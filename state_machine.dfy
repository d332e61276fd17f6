/**
 * The state-machine engine as the order service uses it: one machine per
 * call, reset to a stored state, with a pre-state-change interceptor that
 * persists the target state before the machine moves to it.
 */
module StateMachines {
  import opened Wrappers
  import opened OrderStates
  import opened OrderEntity
  import opened Persistence

  /** The id used when a message carries no `orderId` header. */
  const DEFAULT_ORDER_ID: int := 1

  /** The headers an event message carries: `orderId` and `paymentConfirmationNumber`. */
  datatype Headers = Headers(orderId: Option<int>, paymentConfirmationNumber: Option<string>)

  /** What `sendEvent` did with one event. */
  datatype SendOutcome =
    | Accepted(source: State, target: State)
    | Rejected(state: State, event: Event)
    | NotRunning
    | InterceptorFailed(failure: Failure)

  /** The id the interceptor persists to: the `orderId` header, or 1 when it is absent. */
  function InterceptedOrderId(h: Headers): (id: int)
    ensures h.orderId.Some? ==> id == h.orderId.value
    ensures h.orderId.None? ==> id == DEFAULT_ORDER_ID
  {
    h.orderId.GetOr(DEFAULT_ORDER_ID)
  }

  /** The anonymous `StateMachineInterceptorAdapter` that `build` installs. */
  class PersistStateInterceptor {
    const repository: OrderRepository

    constructor (repository: OrderRepository)
      ensures this.repository == repository
    {
      this.repository := repository;
    }

    /**
     * `preStateChange`: with a message, load the order its header names,
     * set its state to `target` and save it; without one, do nothing.
     */
    method PreStateChange(target: State, message: Option<Headers>) returns (r: Outcome<Failure>)
      requires repository.Valid()
      modifies repository
      ensures repository.Valid() && repository.nextId == old(repository.nextId)
      ensures message.None? ==> r == Pass && repository.rows == old(repository.rows)
      ensures message.Some? && InterceptedOrderId(message.value) !in old(repository.rows) ==>
        r == Fail(NoSuchElement) && repository.rows == old(repository.rows)
      ensures message.Some? && InterceptedOrderId(message.value) in old(repository.rows) ==>
        var id := InterceptedOrderId(message.value);
        r == Pass && repository.rows == old(repository.rows)[id := WithState(old(repository.rows)[id], target)]
    {
      r := Pass;
      if message.Some? {
        var id := InterceptedOrderId(message.value);
        var order := repository.FindById(id);
        if order.None? {
          return Fail(NoSuchElement);
        }
        order.value.SetOrderState(target);
        var _ := repository.Save(order.value);
      }
    }
  }

  class StateMachine {
    var current: State
    var running: bool
    var interceptor: Option<PersistStateInterceptor>

    /** The repository the installed interceptor writes to, if any. */
    ghost function Footprint(): set<object>
      reads this
    {
      if interceptor.Some? then {interceptor.value.repository} else {}
    }

    ghost predicate Valid()
      reads this, Footprint()
    {
      interceptor.Some? ==> interceptor.value.repository.Valid()
    }

    /** `factory.getStateMachine(..)`: a new machine at the initial state, not started. */
    constructor ()
      ensures current == INITIAL && !running && interceptor == None
    {
      current := INITIAL;
      running := false;
      interceptor := None;
    }

    method Stop()
      requires Valid()
      modifies this
      ensures Valid()
      ensures !running && current == old(current) && interceptor == old(interceptor)
    {
      running := false;
    }

    method Start()
      requires Valid()
      modifies this
      ensures Valid()
      ensures running && current == old(current) && interceptor == old(interceptor)
    {
      running := true;
    }

    /** `addStateMachineInterceptor`. */
    method AddInterceptor(i: PersistStateInterceptor)
      requires i.repository.Valid()
      modifies this
      ensures Valid()
      ensures interceptor == Some(i) && current == old(current) && running == old(running)
    {
      interceptor := Some(i);
    }

    /** `resetStateMachine`: the machine is now at `s`. */
    method ResetStateMachine(s: State)
      requires Valid()
      modifies this
      ensures Valid()
      ensures current == s && running == old(running) && interceptor == old(interceptor)
    {
      current := s;
    }

    /**
     * `sendEvent`: a stopped machine or an event with no transition from the
     * current state changes nothing; otherwise the interceptor runs first and
     * the machine moves to the target only if it succeeded.
     */
    method SendEvent(event: Event, headers: Headers) returns (outcome: SendOutcome)
      requires Valid()
      modifies this, Footprint()
      ensures Valid() && running == old(running) && interceptor == old(interceptor)
      ensures outcome.Accepted? || outcome.Rejected? ==> current == Step(old(current), event)
      ensures !old(running) ==>
        outcome == NotRunning && current == old(current) && unchanged(Footprint())
      ensures old(running) && Resolve(old(current), event).None? ==>
        outcome == Rejected(old(current), event) && current == old(current) && unchanged(Footprint())
      ensures old(running) && Resolve(old(current), event).Some? && interceptor.None? ==>
        outcome == Accepted(old(current), Resolve(old(current), event).value) &&
        current == Resolve(old(current), event).value
      ensures old(running) && Resolve(old(current), event).Some? && interceptor.Some? ==>
        var repository := interceptor.value.repository;
        var id := InterceptedOrderId(headers);
        var target := Resolve(old(current), event).value;
        repository.nextId == old(repository.nextId) &&
        if id in old(repository.rows) then
          outcome == Accepted(old(current), target) && current == target &&
          repository.rows == old(repository.rows)[id := WithState(old(repository.rows)[id], target)]
        else
          outcome == InterceptorFailed(NoSuchElement) && current == old(current) &&
          repository.rows == old(repository.rows)
    {
      if !running {
        return NotRunning;
      }
      var source := current;
      var target := Resolve(source, event);
      if target.None? {
        return Rejected(source, event);
      }
      if interceptor.Some? {
        var r := interceptor.value.PreStateChange(target.value, Some(headers));
        if r.Fail? {
          return InterceptorFailed(r.error);
        }
      }
      current := target.value;
      outcome := Accepted(source, target.value);
    }
  }
}
