/**
 * `OrderRepository`, a `JpaRepository<Order, Long>`, as an in-memory table of
 * rows keyed by id, with generated ids handed out in increasing order.
 */
module Persistence {
  import opened Wrappers
  import opened OrderStates
  import opened OrderEntity

  /**
   * What `findById(id).get().getOrderState()` gives for the rows `rows`:
   * NoSuchElement when there is no such row, IllegalArgument when its
   * state names no constant.
   */
  function StoredState(rows: map<int, OrderRecord>, id: int): (r: Result<State, Failure>)
    ensures r.Failure? <==> id !in rows || ValueOf(rows[id].state).None?
    ensures r.Failure? && id !in rows ==> r.error == NoSuchElement
    ensures r.Failure? && id in rows ==> r.error == IllegalArgument
    ensures r.Success? ==> Name(r.value) == rows[id].state
  {
    if id in rows then DecodeState(rows[id].state) else Failure(NoSuchElement)
  }

  class OrderRepository {
    var rows: map<int, OrderRecord>
    /** The next value of the id generator. */
    var nextId: int

    /** Every row is stored under its own id, and every id was generated. */
    ghost predicate Valid()
      reads this
    {
      1 <= nextId &&
      forall k :: k in rows ==> rows[k].id == k && 1 <= k < nextId
    }

    constructor ()
      ensures Valid() && rows == map[] && nextId == 1
    {
      rows := map[];
      nextId := 1;
    }

    /** `findById`: a freshly loaded entity for the row, or empty. */
    method FindById(id: int) returns (o: Option<Order>)
      requires Valid()
      ensures o.Some? <==> id in rows
      ensures o.Some? ==> fresh(o.value) && o.value.id == Some(id) &&
                          o.value.datetime == rows[id].datetime && o.value.state == rows[id].state
    {
      if id in rows {
        var order := new Order.FromRecord(rows[id]);
        o := Some(order);
      } else {
        o := None;
      }
    }

    /**
     * `save`: an entity without an id is inserted under a newly generated id,
     * which is set on the entity; an entity with an id overwrites its row.
     */
    method Save(o: Order) returns (saved: Order)
      requires Valid()
      requires o.id.Some? ==> o.id.value in rows
      modifies this, o
      ensures Valid() && saved == o
      ensures o.datetime == old(o.datetime) && o.state == old(o.state)
      ensures old(o.id).None? ==>
        old(nextId) !in old(rows) && o.id == Some(old(nextId)) && nextId == old(nextId) + 1 &&
        rows == old(rows)[old(nextId) := OrderRecord(old(nextId), o.datetime, o.state)]
      ensures old(o.id).Some? ==>
        o.id == old(o.id) && nextId == old(nextId) && rows == old(rows)[o.id.value := o.Record()]
    {
      if o.id.None? {
        o.id := Some(nextId);
        nextId := nextId + 1;
      }
      rows := rows[o.id.value := o.Record()];
      saved := o;
    }
  }
}
