/** The `Order` JPA entity and the row it is persisted as. */
module OrderEntity {
  import opened Wrappers
  import opened OrderStates

  /** A stored `orders` row: id, datetime (an opaque timestamp) and the state's name. */
  datatype OrderRecord = OrderRecord(id: int, datetime: int, state: string)

  /** Decodes a stored state name as `getOrderState` does. */
  function DecodeState(name: string): (r: Result<State, Failure>)
    ensures r.Success? <==> ValueOf(name).Some?
    ensures r.Success? ==> Name(r.value) == name
    ensures r.Failure? ==> r.error == IllegalArgument
  {
    match ValueOf(name)
    case Some(s) => Success(s)
    case None => Failure(IllegalArgument)
  }

  /** The row after `setOrderState(s)` is applied to its entity and saved. */
  function WithState(rec: OrderRecord, s: State): (r: OrderRecord)
    ensures r.id == rec.id && r.datetime == rec.datetime
    ensures DecodeState(r.state) == Success(s)
  {
    ValueOfName(s);
    rec.(state := Name(s))
  }

  /** Setting the same state twice leaves the row as setting it once. */
  lemma WithStateIdempotent(rec: OrderRecord, s: State)
    ensures WithState(WithState(rec, s), s) == WithState(rec, s)
  {
  }

  class Order {
    /** `null` until the repository assigns an id on the first save. */
    var id: Option<int>
    var datetime: int
    var state: string

    /** `Order(Date, OrderStates)`: a new, unsaved order in state `os`. */
    constructor (d: int, os: State)
      ensures id == None && datetime == d && state == Name(os)
      ensures GetOrderState() == Success(os)
    {
      id := None;
      datetime := d;
      state := Name(os);
      ValueOfName(os);
    }

    /** The all-arguments constructor, used when an entity is loaded from its row. */
    constructor FromRecord(rec: OrderRecord)
      ensures id == Some(rec.id) && datetime == rec.datetime && state == rec.state
    {
      id := Some(rec.id);
      datetime := rec.datetime;
      state := rec.state;
    }

    /** `getOrderState`: the stored name decoded, failing on an unknown name. */
    function GetOrderState(): (r: Result<State, Failure>)
      reads this
      ensures r.Success? <==> exists s :: Name(s) == state
      ensures r.Success? ==> Name(r.value) == state
      ensures r.Failure? ==> r.error == IllegalArgument
    {
      DecodeState(state)
    }

    /** `setOrderState`: stores the state's name and touches nothing else. */
    method SetOrderState(s: State)
      modifies this
      ensures state == Name(s) && id == old(id) && datetime == old(datetime)
      ensures GetOrderState() == Success(s)
      ensures id.Some? ==> Record() == WithState(old(Record()), s)
    {
      state := Name(s);
      ValueOfName(s);
    }

    /** The row this entity is saved as; only a saved entity has one. */
    function Record(): OrderRecord
      reads this
      requires id.Some?
    {
      OrderRecord(id.value, datetime, state)
    }
  }
}
