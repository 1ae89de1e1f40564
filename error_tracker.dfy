/** `ErrorTracker` (Helpers/ErrorTracker.swift): a channel of tracked errors,
    and `trackError`, which diverts a publisher's failure into that channel
    and completes quietly instead. Publishers are finite event traces here. */
module Errors {

  /** What a publisher whose Failure type is `Error` can send. */
  datatype Event<T, E> = Value(value: T) | Finished | Failed(error: E)

  /** What a publisher whose Failure type is `Never` can send: there is no
      failure event, so the wrapped stream never fails. */
  datatype QuietEvent<T> = QuietValue(value: T) | QuietFinished

  /** The index of the first completion (finished or failed), if any. */
  function FirstTerminal<T, E>(trace: seq<Event<T, E>>): (i: int)
    ensures -1 <= i < |trace|
    ensures i >= 0 ==> !trace[i].Value?
    ensures forall j | 0 <= j < |trace| && (i < 0 || j < i) :: trace[j].Value?
  {
    if trace == [] then -1
    else if !trace[0].Value? then 0
    else var k := FirstTerminal(trace[1..]); if k < 0 then -1 else k + 1
  }

  /** The values of a trace of values, re-sent on the quiet stream. */
  function QuietValues<T, E>(trace: seq<Event<T, E>>): (out: seq<QuietEvent<T>>)
    requires forall j | 0 <= j < |trace| :: trace[j].Value?
    ensures |out| == |trace|
    ensures forall j | 0 <= j < |trace| :: out[j] == QuietValue(trace[j].value)
  {
    seq(|trace|, j requires 0 <= j < |trace| => QuietValue(trace[j].value))
  }

  /** `catch { error in tracker.track(error); return Empty() }` over a trace:
      the quiet stream it produces and the errors handed to the tracker.
      Nothing arrives after a completion, so later events are ignored. */
  function CatchIntoTracker<T, E>(trace: seq<Event<T, E>>): (seq<QuietEvent<T>>, seq<E>) {
    if trace == [] then ([], [])
    else match trace[0]
      case Value(v) =>
        var (out, tracked) := CatchIntoTracker(trace[1..]);
        ([QuietValue(v)] + out, tracked)
      case Finished => ([QuietFinished], [])
      case Failed(e) => ([QuietFinished], [e])
  }

  /** Values before the first completion pass through unchanged; a failure `e`
      is tracked exactly once and the quiet stream finishes in its place; a
      normal finish tracks nothing; a trace still open tracks nothing and does
      not complete. */
  lemma {:induction false} CatchIntoTrackerMeaning<T, E>(trace: seq<Event<T, E>>)
    ensures var (out, tracked) := CatchIntoTracker(trace);
            var i := FirstTerminal(trace);
            && (i < 0 ==> out == QuietValues(trace) && tracked == [])
            && (i >= 0 ==> out == QuietValues(trace[..i]) + [QuietFinished])
            && (i >= 0 && trace[i].Failed? ==> tracked == [trace[i].error])
            && (i >= 0 && trace[i].Finished? ==> tracked == [])
  {
    if trace != [] && trace[0].Value? {
      var rest := trace[1..];
      CatchIntoTrackerMeaning(rest);
      var k := FirstTerminal(rest);
      if k < 0 {
        assert QuietValues(trace) == [QuietValue(trace[0].value)] + QuietValues(rest);
      } else {
        assert trace[1..][..k] == trace[..k + 1][1..];
        assert QuietValues(trace[..k + 1]) == [QuietValue(trace[0].value)] + QuietValues(rest[..k]);
      }
    } else if trace != [] {
      assert trace[..0] == [];
    }
  }

  /** At most one error reaches the tracker, and the quiet stream completes at
      most once, as its last event. */
  lemma {:induction false} CatchTracksAtMostOnce<T, E>(trace: seq<Event<T, E>>)
    ensures |CatchIntoTracker(trace).1| <= 1
    ensures var out := CatchIntoTracker(trace).0;
            forall j | 0 <= j < |out| - 1 :: out[j].QuietValue?
  {
    if trace != [] && trace[0].Value? {
      CatchTracksAtMostOnce(trace[1..]);
    }
  }

  class ErrorTracker<E> {
    /** Every error sent through `subject`, in order; a subscriber sees the
        ones sent after it subscribed. */
    var sent: seq<E>

    constructor ()
      ensures sent == []
    {
      sent := [];
    }

    /** `track(_:)`: `subject.send(error)`. */
    method Track(error: E)
      modifies this
      ensures sent == old(sent) + [error]
    {
      sent := sent + [error];
    }

    /** `trackError(_:)` applied to a source trace: returns the quiet stream and
        tracks whatever the catch handler received. */
    method TrackError<T>(source: seq<Event<T, E>>) returns (quiet: seq<QuietEvent<T>>)
      modifies this
      ensures quiet == CatchIntoTracker(source).0
      ensures sent == old(sent) + CatchIntoTracker(source).1
    {
      CatchTracksAtMostOnce(source);
      var (out, tracked) := CatchIntoTracker(source);
      if tracked != [] {
        assert tracked == [tracked[0]];
        Track(tracked[0]);
      }
      quiet := out;
    }
  }
}
