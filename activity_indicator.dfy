/** `ActivityIndicator` (Helpers/ActivityIndicator.swift): a counter of demand
    requests minus terminations of the publishers it tracks, whose `loading`
    signal is "the count is positive".
    The lock is left out: every update is one atomic step here. */
module Activity {

  /** The events `handleEvents` sees on the subscription of a tracked publisher. */
  datatype SubscriptionEvent =
    | Request(demand: nat)        // receiveRequest
    | Completion(finished: bool)  // receiveCompletion, .finished or .failure
    | Cancel                      // receiveCancel

  /** What the hooks installed by `trackActivity` do to the count. */
  function Delta(e: SubscriptionEvent): (d: int)
    ensures e.Request? ==> d == 1
    ensures !e.Request? ==> d == -1
  {
    match e
    case Request(_) => 1
    case Completion(_) => -1
    case Cancel => -1
  }

  class ActivityIndicator {
    /** `count`; nothing keeps it from going below zero. */
    var count: int

    constructor ()
      ensures count == 0 && !Loading()
    {
      count := 0;
    }

    /** The value `loading` publishes for the current count. */
    predicate Loading()
      reads this
    {
      count > 0
    }

    method Increment()
      modifies this
      ensures count == old(count) + 1
    {
      count := count + 1;
    }

    /** No lower bound: decrementing at zero gives -1. */
    method Decrement()
      modifies this
      ensures count == old(count) - 1
    {
      count := count - 1;
    }

    /** The hook `trackActivity` runs for one event of a tracked publisher. */
    method OnEvent(e: SubscriptionEvent)
      modifies this
      ensures count == old(count) + Delta(e)
      ensures Loading() <==> old(count) + Delta(e) > 0
    {
      match e
      case Request(_) => Increment();
      case Completion(_) => Decrement();
      case Cancel => Decrement();
    }

    /** The hooks run for every event of a joint trace, in order. On a
        well-formed trace the count ends up moved by the number of
        operations still in flight. */
    method OnTrace(t: Trace)
      modifies this
      ensures count == old(count) + NetDelta(t)
      ensures WellFormed(t) ==> count == old(count) + |Requested(t) - Terminated(t)|
      ensures Loading() <==> old(count) + NetDelta(t) > 0
    {
      for i := 0 to |t|
        invariant count == old(count) + NetDelta(t[..i])
      {
        assert t[..i + 1][..i] == t[..i];
        OnEvent(t[i].1);
      }
      assert t[..|t|] == t;
      if WellFormed(t) {
        NetDeltaIsInFlight(t);
      }
    }
  }

  /** The joint trace of several tracked operations: which operation saw which event. */
  type Trace = seq<(nat, SubscriptionEvent)>

  function NetDelta(t: Trace): int {
    if t == [] then 0 else NetDelta(t[..|t| - 1]) + Delta(t[|t| - 1].1)
  }

  /** Operations that have requested, and operations that have terminated. */
  function Requested(t: Trace): set<nat> {
    if t == [] then {}
    else Requested(t[..|t| - 1]) + (if t[|t| - 1].1.Request? then {t[|t| - 1].0} else {})
  }

  function Terminated(t: Trace): set<nat> {
    if t == [] then {}
    else Terminated(t[..|t| - 1]) + (if !t[|t| - 1].1.Request? then {t[|t| - 1].0} else {})
  }

  /** Each operation requests once (a sink asks for unlimited demand once) and
      then terminates at most once: by completion or by cancellation. */
  predicate WellFormed(t: Trace) {
    if t == [] then true
    else
      var (op, e) := t[|t| - 1];
      var init := t[..|t| - 1];
      && WellFormed(init)
      && (e.Request? ==> op !in Requested(init))
      && (!e.Request? ==> op in Requested(init) && op !in Terminated(init))
  }

  /** The count has moved by exactly the number of operations still in flight. */
  lemma {:induction false} NetDeltaIsInFlight(t: Trace)
    requires WellFormed(t)
    ensures Terminated(t) <= Requested(t)
    ensures NetDelta(t) == |Requested(t) - Terminated(t)|
  {
    if t != [] {
      NetDeltaIsInFlight(t[..|t| - 1]);
      InFlightStep(t[..|t| - 1], t[|t| - 1].0, t[|t| - 1].1);
      assert t[..|t| - 1] + [t[|t| - 1]] == t;
    }
  }

  /** One more event keeps the in-flight count right. */
  lemma InFlightStep(init: Trace, op: nat, e: SubscriptionEvent)
    requires Terminated(init) <= Requested(init)
    requires NetDelta(init) == |Requested(init) - Terminated(init)|
    requires e.Request? ==> op !in Requested(init)
    requires !e.Request? ==> op in Requested(init) && op !in Terminated(init)
    ensures var t := init + [(op, e)];
            Terminated(t) <= Requested(t) && NetDelta(t) == |Requested(t) - Terminated(t)|
  {
    var t := init + [(op, e)];
    TraceSnoc(init, op, e);
    var requested, terminated := Requested(init), Terminated(init);
    if e.Request? {
      InFlightGrows(requested, terminated, op);
    } else {
      InFlightShrinks(requested, terminated, op);
    }
  }

  /** What one more event adds to each of the three folds. */
  lemma TraceSnoc(init: Trace, op: nat, e: SubscriptionEvent)
    ensures var t := init + [(op, e)];
            && NetDelta(t) == NetDelta(init) + Delta(e)
            && Requested(t) == Requested(init) + (if e.Request? then {op} else {})
            && Terminated(t) == Terminated(init) + (if !e.Request? then {op} else {})
  {
    var t := init + [(op, e)];
    assert t[..|t| - 1] == init && t[|t| - 1] == (op, e);
  }

  lemma InFlightGrows(requested: set<nat>, terminated: set<nat>, op: nat)
    requires terminated <= requested && op !in requested
    ensures terminated <= requested + {op}
    ensures |(requested + {op}) - terminated| == |requested - terminated| + 1
  {
    assert (requested + {op}) - terminated == (requested - terminated) + {op};
  }

  lemma InFlightShrinks(requested: set<nat>, terminated: set<nat>, op: nat)
    requires terminated <= requested && op in requested && op !in terminated
    ensures terminated + {op} <= requested
    ensures |requested - (terminated + {op})| == |requested - terminated| - 1
  {
    assert requested - (terminated + {op}) == (requested - terminated) - {op};
  }

  /** Once every tracked operation has been requested and terminated, the
      trace's net change is zero, so `OnTrace` leaves the count where it
      started and `loading` as it was. */
  lemma AllTerminatedRestoresCount(t: Trace)
    requires WellFormed(t)
    requires Requested(t) == Terminated(t)
    ensures NetDelta(t) == 0
  {
    NetDeltaIsInFlight(t);
    assert Requested(t) - Terminated(t) == {};
  }

  /** The hook counts demand requests, not subscriptions: a subscriber that asks
      for demand twice raises the count twice, and one completion leaves it up by one. */
  lemma RepeatedDemandIsCountedTwice(op: nat)
    ensures NetDelta([(op, Request(1)), (op, Request(1)), (op, Completion(true))]) == 1
  {
    var t: Trace := [(op, Request(1)), (op, Request(1)), (op, Completion(true))];
    var t2: Trace := [(op, Request(1)), (op, Request(1))];
    var t1: Trace := [(op, Request(1))];
    assert t[..2] == t2 && t2[..1] == t1 && t1[..0] == [];
    assert NetDelta(t1) == 1;
    assert NetDelta(t2) == 2;
  }
}
