/** General helpers and the view-inspection hook (Utilities/Helpers.swift). */
module Helpers {
  import opened Types

  /** `Result.isSuccess`. */
  predicate IsSuccess<T, E>(r: Result<T, E>) {
    match r
    case Success(_) => true
    case Failure(_) => false
  }

  lemma IsSuccessMeaning<T, E>(r: Result<T, E>)
    ensures IsSuccess(r) <==> r.Success?
    ensures !IsSuccess(r) <==> r.Failure?
  {
  }

  // ---------------------------------------------------------------- Inspection

  /** One `visit`: the callback map after `removeValue(forKey: line)`, and the
      callback it returned, which `visit` then invokes with the view. */
  function VisitStep<C>(callbacks: map<nat, C>, line: nat): (step: (map<nat, C>, Option<C>))
    ensures line !in step.0
    ensures step.1.Some? <==> line in callbacks
    ensures step.1.Some? ==> step.1.value == callbacks[line]
    ensures forall k | k != line :: (k in step.0 <==> k in callbacks)
    ensures forall k | k in step.0 :: step.0[k] == callbacks[k]
    ensures line !in callbacks ==> step.0 == callbacks
  {
    if line in callbacks then (callbacks - {line}, Some(callbacks[line]))
    else (callbacks, None)
  }

  /** The lines whose callbacks run, in order, when the view is visited at
      each line of `lines`. */
  function InvokedLines<C>(callbacks: map<nat, C>, lines: seq<nat>): seq<nat>
    decreases |lines|
  {
    if lines == [] then []
    else
      var (next, invoked) := VisitStep(callbacks, lines[0]);
      (if invoked.Some? then [lines[0]] else []) + InvokedLines(next, lines[1..])
  }

  /** A second visit at the same line invokes nothing. */
  lemma VisitTwiceInvokesOnce<C>(callbacks: map<nat, C>, line: nat)
    ensures VisitStep(VisitStep(callbacks, line).0, line).1 == None
    ensures VisitStep(VisitStep(callbacks, line).0, line).0 == VisitStep(callbacks, line).0
  {
  }

  /** Over any sequence of visits, each callback runs at most once, and only
      callbacks that were registered run. */
  lemma {:induction false} EachCallbackRunsAtMostOnce<C>(callbacks: map<nat, C>, lines: seq<nat>)
    ensures forall i | 0 <= i < |InvokedLines(callbacks, lines)| :: InvokedLines(callbacks, lines)[i] in callbacks
    ensures forall i, j | 0 <= i < j < |InvokedLines(callbacks, lines)| ::
              InvokedLines(callbacks, lines)[i] != InvokedLines(callbacks, lines)[j]
    decreases |lines|
  {
    if lines != [] {
      var (next, invoked) := VisitStep(callbacks, lines[0]);
      EachCallbackRunsAtMostOnce(next, lines[1..]);
      var tail := InvokedLines(next, lines[1..]);
      var head: seq<nat> := if invoked.Some? then [lines[0]] else [];
      assert InvokedLines(callbacks, lines) == head + tail;
      forall i | 0 <= i < |tail| ensures tail[i] in callbacks && tail[i] != lines[0] {
        assert tail[i] in next;
      }
    }
  }

  /** `Inspection<V>`: callbacks keyed by source line, each taken out and run
      the first time the view is visited at that line. `C` stands for the
      callback closures, which the model does not run. */
  class Inspection<V, C> {
    var callbacks: map<nat, C>

    /** `init(callbacks:)`: the map is stored as given. */
    constructor(callbacks: map<nat, C>)
      ensures this.callbacks == callbacks
    {
      this.callbacks := callbacks;
    }

    /** `visit(view, line)`: remove the callback for `line` and return it, the
        callback the source invokes with `view`. */
    method Visit(view: V, line: nat) returns (invoked: Option<C>)
      modifies this
      ensures (callbacks, invoked) == VisitStep(old(callbacks), line)
    {
      if line in callbacks {
        invoked := Some(callbacks[line]);
        callbacks := callbacks - {line};
      } else {
        invoked := None;
      }
    }
  }
}
