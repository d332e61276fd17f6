/**
 * `OrderService`: creates orders and applies events to them through a
 * freshly built state machine whose interceptor persists each transition.
 */
module OrderServices {
  import opened Wrappers
  import opened OrderStates
  import opened OrderEntity
  import opened Persistence
  import opened StateMachines

  /**
   * The rows after event `e` is sent for order `id` stored at state `s`:
   * the row's state is the target when a transition exists, otherwise
   * nothing changes.
   */
  function AfterEvent(rows: map<int, OrderRecord>, id: int, s: State, e: Event): (r: map<int, OrderRecord>)
    requires id in rows
    ensures r.Keys == rows.Keys
    ensures forall k :: k in rows && k != id ==> r[k] == rows[k]
    ensures r[id].id == rows[id].id && r[id].datetime == rows[id].datetime
    ensures Resolve(s, e).None? ==> r[id] == rows[id]
    ensures Resolve(s, e).Some? ==> DecodeState(r[id].state) == Success(Step(s, e))
  {
    match Resolve(s, e)
    case Some(t) => rows[id := WithState(rows[id], t)]
    case None => rows
  }

  class OrderService {
    const repository: OrderRepository

    ghost predicate Valid()
      reads this, repository
    {
      repository.Valid()
    }

    constructor (repository: OrderRepository)
      ensures this.repository == repository
    {
      this.repository := repository;
    }

    /** `create`: saves a new order in SUBMITTED under a newly generated id. */
    method Create(when: int) returns (order: Order)
      requires Valid()
      modifies repository
      ensures Valid() && fresh(order)
      ensures order.id == Some(old(repository.nextId)) && order.id.value !in old(repository.rows)
      ensures order.datetime == when && order.GetOrderState() == Success(Submitted)
      ensures repository.rows ==
        old(repository.rows)[order.id.value := OrderRecord(order.id.value, when, Name(Submitted))]
    {
      order := new Order(when, Submitted);
      order := repository.Save(order);
    }

    /**
     * `build`: loads the order (failing when it is absent or its state is
     * unknown), then returns a started machine at the stored state whose
     * interceptor persists to this service's repository.
     */
    method Build(orderId: int) returns (r: Result<StateMachine, Failure>)
      requires Valid()
      ensures r.Failure? ==> StoredState(repository.rows, orderId) == Failure(r.error)
      ensures r.Success? ==>
        StoredState(repository.rows, orderId) == Success(r.value.current) &&
        fresh(r.value) && r.value.running && r.value.interceptor.Some? &&
        fresh(r.value.interceptor.value) &&
        r.value.interceptor.value.repository == repository && r.value.Valid()
    {
      var order := repository.FindById(orderId);
      if order.None? {
        return Failure(NoSuchElement);
      }
      var machine := new StateMachine();
      machine.Stop();
      var interceptor := new PersistStateInterceptor(repository);
      machine.AddInterceptor(interceptor);
      var state := order.value.GetOrderState();
      if state.Failure? {
        return Failure(state.error);
      }
      machine.ResetStateMachine(state.value);
      machine.Start();
      r := Success(machine);
    }

    /** `change`: builds the machine and sends nothing; `event` is not used. */
    method Change(orderId: int, event: Event) returns (r: Result<StateMachine, Failure>)
      requires Valid()
      ensures r.Failure? <==> StoredState(repository.rows, orderId).Failure?
      ensures r.Failure? ==> StoredState(repository.rows, orderId) == Failure(r.error)
      ensures r.Success? ==>
        fresh(r.value) && r.value.running && Success(r.value.current) == StoredState(repository.rows, orderId)
    {
      r := Build(orderId);
    }

    /** Builds the machine for `orderId` and sends `event` with the order's id as header. */
    method BuildAndSend(orderId: int, event: Event, headers: Headers) returns (r: Result<StateMachine, Failure>)
      requires Valid()
      requires headers.orderId == Some(orderId)
      modifies repository
      ensures Valid() && repository.nextId == old(repository.nextId)
      ensures StoredState(old(repository.rows), orderId).Failure? ==>
        r == Failure(StoredState(old(repository.rows), orderId).error) &&
        repository.rows == old(repository.rows)
      ensures StoredState(old(repository.rows), orderId).Success? ==>
        var s := StoredState(old(repository.rows), orderId).value;
        r.Success? && fresh(r.value) && r.value.running && r.value.current == Step(s, event) &&
        repository.rows == AfterEvent(old(repository.rows), orderId, s, event)
    {
      r := Build(orderId);
      if r.Success? {
        var _ := r.value.SendEvent(event, headers);
      }
    }

    /** `fulfill`: sends FULFILL for the order. */
    method Fulfill(orderId: int) returns (r: Result<StateMachine, Failure>)
      requires Valid()
      modifies repository
      ensures Valid() && repository.nextId == old(repository.nextId)
      ensures StoredState(old(repository.rows), orderId).Failure? ==>
        r == Failure(StoredState(old(repository.rows), orderId).error) &&
        repository.rows == old(repository.rows)
      ensures StoredState(old(repository.rows), orderId).Success? ==>
        var s := StoredState(old(repository.rows), orderId).value;
        r.Success? && fresh(r.value) && r.value.current == Step(s, Event.Fulfill) &&
        repository.rows == AfterEvent(old(repository.rows), orderId, s, Event.Fulfill)
    {
      r := BuildAndSend(orderId, Event.Fulfill, Headers(Some(orderId), None));
    }

    /** `pay`: sends PAY for the order, with the payment confirmation number as a header. */
    method Pay(orderId: int, paymentConfirmationNumber: string) returns (r: Result<StateMachine, Failure>)
      requires Valid()
      modifies repository
      ensures Valid() && repository.nextId == old(repository.nextId)
      ensures StoredState(old(repository.rows), orderId).Failure? ==>
        r == Failure(StoredState(old(repository.rows), orderId).error) &&
        repository.rows == old(repository.rows)
      ensures StoredState(old(repository.rows), orderId).Success? ==>
        var s := StoredState(old(repository.rows), orderId).value;
        r.Success? && fresh(r.value) && r.value.current == Step(s, Event.Pay) &&
        repository.rows == AfterEvent(old(repository.rows), orderId, s, Event.Pay)
    {
      r := BuildAndSend(orderId, Event.Pay, Headers(Some(orderId), Some(paymentConfirmationNumber)));
    }
  }

  /**
   * The runner's scenario: a new order is paid and then fulfilled; both
   * machines and the stored row follow SUBMITTED, PAID, FULFILLED.
   */
  method RunLifecycle(service: OrderService, when: int, paymentConfirmationNumber: string)
    returns (order: Order, paid: Result<StateMachine, Failure>, fulfilled: Result<StateMachine, Failure>)
    requires service.Valid()
    modifies service.repository
    ensures service.Valid() && order.id.Some?
    ensures paid.Success? && paid.value.current == Paid
    ensures fulfilled.Success? && fulfilled.value.current == Fulfilled
    ensures order.id.value in service.repository.rows
    ensures service.repository.rows[order.id.value] == OrderRecord(order.id.value, when, Name(Fulfilled))
  {
    order := service.Create(when);
    var id := order.id.value;
    ValueOfName(Submitted);
    TransitionTable();
    paid := service.Pay(id, paymentConfirmationNumber);
    ValueOfName(Paid);
    fulfilled := service.Fulfill(id);
  }

  /**
   * FULFILL sent to a new order has no transition from SUBMITTED: the
   * returned machine and the stored row both stay at SUBMITTED.
   */
  method FulfillBeforePay(service: OrderService, when: int)
    returns (order: Order, fulfilled: Result<StateMachine, Failure>)
    requires service.Valid()
    modifies service.repository
    ensures service.Valid() && order.id.Some?
    ensures fulfilled.Success? && fulfilled.value.current == Submitted
    ensures service.repository.rows == old(service.repository.rows)[order.id.value := OrderRecord(order.id.value, when, Name(Submitted))]
  {
    order := service.Create(when);
    ValueOfName(Submitted);
    TransitionTable();
    fulfilled := service.Fulfill(order.id.value);
  }
}
