/**
 * The order lifecycle: the `OrderStates` and `OrderEvents` enums and the
 * transition and state configuration of `SimpleEnumStateMachineConfiguration`.
 */
module OrderStates {
  import opened Wrappers

  /** `OrderStates`, in declaration order. */
  datatype State = Submitted | Paid | Fulfilled | Cancelled

  /** `OrderEvents`, in declaration order. */
  datatype Event = Fulfill | Pay | Cancel

  /** `Enum.name()`: the constant's identifier as written in the enum. */
  function Name(s: State): (r: string)
    ensures |r| > 0 && forall i :: 0 <= i < |r| ==> 'A' <= r[i] <= 'Z'
  {
    match s
    case Submitted => "SUBMITTED"
    case Paid => "PAID"
    case Fulfilled => "FULFILLED"
    case Cancelled => "CANCELLED"
  }

  /** `OrderStates.valueOf`: the constant whose name is exactly `name`, if any. */
  function ValueOf(name: string): (r: Option<State>)
    ensures r.Some? ==> Name(r.value) == name
    ensures r.None? ==> forall s :: Name(s) != name
  {
    if name == "SUBMITTED" then Some(Submitted)
    else if name == "PAID" then Some(Paid)
    else if name == "FULFILLED" then Some(Fulfilled)
    else if name == "CANCELLED" then Some(Cancelled)
    else None
  }

  /** Decoding a name gives back the constant it was encoded from. */
  lemma ValueOfName(s: State)
    ensures ValueOf(Name(s)) == Some(s)
  {
  }

  /** Two constants with the same name are the same constant. */
  lemma NameInjective(s: State, t: State)
    requires Name(s) == Name(t)
    ensures s == t
  {
    ValueOfName(s);
    ValueOfName(t);
  }

  /** One `withExternal().source(..).target(..).event(..)` declaration. */
  datatype Transition = Transition(source: State, event: Event, target: State)

  /** The declared transitions, in the order they are configured. */
  const TRANSITIONS: seq<Transition> := [
    Transition(Submitted, Pay, Paid),
    Transition(Paid, Fulfill, Fulfilled),
    Transition(Paid, Cancel, Cancelled),
    Transition(Fulfilled, Cancel, Cancelled)
  ]

  /** `initial(OrderStates.SUBMITTED)`. */
  const INITIAL: State := Submitted

  /** The states marked with `end(..)`. */
  const END_STATES: set<State> := {Fulfilled, Cancelled}

  /** No two declarations share a source and an event with different targets. */
  ghost predicate Deterministic(ts: seq<Transition>) {
    forall i, j :: 0 <= i < j < |ts| && ts[i].source == ts[j].source && ts[i].event == ts[j].event
      ==> ts[i].target == ts[j].target
  }

  /** The first declared transition leaving `s` on `e`, as the engine looks it up. */
  function Find(ts: seq<Transition>, s: State, e: Event): (r: Option<State>)
    ensures r.Some? ==> Transition(s, e, r.value) in ts
    ensures r.None? ==> forall t :: t in ts ==> t.source != s || t.event != e
  {
    if ts == [] then None
    else if ts[0].source == s && ts[0].event == e then Some(ts[0].target)
    else Find(ts[1..], s, e)
  }

  /** The target found is that of the first declaration with source `s` and event `e`. */
  lemma {:induction false} FindFirst(ts: seq<Transition>, s: State, e: Event, i: nat)
    requires i < |ts| && ts[i].source == s && ts[i].event == e
    requires forall j :: 0 <= j < i ==> ts[j].source != s || ts[j].event != e
    ensures Find(ts, s, e) == Some(ts[i].target)
  {
    if i > 0 {
      assert ts[0].source != s || ts[0].event != e;
      forall j | 0 <= j < i - 1 ensures ts[1..][j].source != s || ts[1..][j].event != e {
        assert ts[1..][j] == ts[j + 1];
      }
      FindFirst(ts[1..], s, e, i - 1);
    }
  }

  /** In a deterministic list, every declared transition is the one found. */
  lemma FindComplete(ts: seq<Transition>, s: State, e: Event, t: State)
    requires Deterministic(ts)
    requires Transition(s, e, t) in ts
    ensures Find(ts, s, e) == Some(t)
  {
    var r := Find(ts, s, e);
    var j :| 0 <= j < |ts| && ts[j] == Transition(s, e, t);
    var i :| 0 <= i < |ts| && ts[i] == Transition(s, e, r.value);
    if i < j {
      assert ts[i].target == ts[j].target;
    } else if j < i {
      assert ts[j].target == ts[i].target;
    }
  }

  /** The configured transitions are deterministic. */
  lemma TransitionsDeterministic()
    ensures Deterministic(TRANSITIONS)
  {
  }

  /** The target of `s` on `e`, or None when no transition is configured. */
  function Resolve(s: State, e: Event): (r: Option<State>)
    ensures r.Some? <==> exists t :: t in TRANSITIONS && t.source == s && t.event == e
    ensures r.Some? ==> Transition(s, e, r.value) in TRANSITIONS
  {
    Find(TRANSITIONS, s, e)
  }

  /**
   * The configured relation is exactly the four declared transitions:
   * each is resolved, and nothing else is.
   */
  lemma TransitionTable()
    ensures Resolve(Submitted, Pay) == Some(Paid)
    ensures Resolve(Paid, Fulfill) == Some(Fulfilled)
    ensures Resolve(Paid, Cancel) == Some(Cancelled)
    ensures Resolve(Fulfilled, Cancel) == Some(Cancelled)
    ensures forall s, e :: Resolve(s, e).Some? ==>
      (s == Submitted && e == Pay) || (s == Paid && e == Fulfill) ||
      (s == Paid && e == Cancel) || (s == Fulfilled && e == Cancel)
  {
    TransitionsDeterministic();
    FindComplete(TRANSITIONS, Submitted, Pay, Paid);
    FindComplete(TRANSITIONS, Paid, Fulfill, Fulfilled);
    FindComplete(TRANSITIONS, Paid, Cancel, Cancelled);
    FindComplete(TRANSITIONS, Fulfilled, Cancel, Cancelled);
  }

  /** CANCELLED has no outgoing transition for any event. */
  lemma CancelledHasNoTransition(e: Event)
    ensures Resolve(Cancelled, e) == None
  {
    TransitionTable();
  }

  /**
   * Of the end states, only FULFILLED has an outgoing transition, and only on
   * CANCEL, to CANCELLED.
   */
  lemma FulfilledOnlyCancels(e: Event)
    ensures forall s :: s in END_STATES && Resolve(s, e).Some? ==> s == Fulfilled && e == Cancel
    ensures Resolve(Fulfilled, e) == (if e == Cancel then Some(Cancelled) else None)
  {
    TransitionTable();
  }

  /** No transition targets SUBMITTED. */
  lemma NothingEntersSubmitted(s: State, e: Event)
    ensures Resolve(s, e) != Some(Submitted)
  {
    TransitionTable();
  }

  /** One `sendEvent` on a running machine: the target, or the same state when rejected. */
  function Step(s: State, e: Event): (r: State)
    ensures r != s <==> Resolve(s, e).Some?
    ensures r == s || Transition(s, e, r) in TRANSITIONS
  {
    TransitionTable();
    match Resolve(s, e)
    case Some(t) => t
    case None => s
  }

  /** The state after sending `es` one after the other, starting at `s`. */
  function Run(s: State, es: seq<Event>): State
    decreases |es|
  {
    if es == [] then s else Run(Step(s, es[0]), es[1..])
  }

  /** Once CANCELLED, no sequence of events leaves it. */
  lemma {:induction false} CancelledIsAbsorbing(es: seq<Event>)
    ensures Run(Cancelled, es) == Cancelled
  {
    if es != [] {
      CancelledHasNoTransition(es[0]);
      CancelledIsAbsorbing(es[1..]);
    }
  }

  /** A machine that has left SUBMITTED never comes back to it. */
  lemma {:induction false} SubmittedNeverReentered(s: State, es: seq<Event>)
    requires s != Submitted
    ensures Run(s, es) != Submitted
    decreases |es|
  {
    if es != [] {
      NothingEntersSubmitted(s, es[0]);
      SubmittedNeverReentered(Step(s, es[0]), es[1..]);
    }
  }

  /** The runner's sequence PAY then FULFILL takes a new order to FULFILLED. */
  lemma PayThenFulfill()
    ensures Run(INITIAL, [Pay, Fulfill]) == Fulfilled
  {
    TransitionTable();
    assert [Pay, Fulfill][1..] == [Fulfill];
  }
}
