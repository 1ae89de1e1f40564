/** `Stack` and `Queue` (Helpers/Generics.swift): an array used LIFO and an
    array used FIFO. The array is a `seq` the mutating methods reassign. */
module Generics {
  import opened Types

  class Stack<T> {
    /** `stack`, bottom first. */
    var stack: seq<T>

    constructor ()
      ensures stack == []
    {
      stack := [];
    }

    /** `push(_:)`: `append`. */
    method Push(data: T)
      modifies this
      ensures stack == old(stack) + [data]
      ensures StackStep(old(stack), PushOp(data)) == (stack, None)
    {
      stack := stack + [data];
    }

    /** `pop()`: `popLast()`, nil and no change on an empty stack. */
    method Pop() returns (top: Option<T>)
      modifies this
      ensures old(stack) == [] ==> top == None && stack == []
      ensures old(stack) != [] ==> top == Some(old(stack)[|old(stack)| - 1]) && stack == old(stack)[..|old(stack)| - 1]
      ensures StackStep(old(stack), PopOp) == (stack, top)
    {
      if stack == [] {
        top := None;
      } else {
        top := Some(stack[|stack| - 1]);
        stack := stack[..|stack| - 1];
      }
    }
  }

  class Queue<T> {
    /** `queue`, front first. */
    var queue: seq<T>

    constructor ()
      ensures queue == []
    {
      queue := [];
    }

    /** `enqueue(_:)`: append at the back. */
    method Enqueue(data: T)
      modifies this
      ensures queue == old(queue) + [data]
      ensures QueueStep(old(queue), EnqueueOp(data)) == (queue, None)
    {
      queue := queue + [data];
    }

    /** `dequeue()`: `removeFirst()` when there is a first element, else nil. */
    method Dequeue() returns (front: Option<T>)
      modifies this
      ensures old(queue) == [] ==> front == None && queue == []
      ensures old(queue) != [] ==> front == Some(old(queue)[0]) && queue == old(queue)[1..]
      ensures QueueStep(old(queue), DequeueOp) == (queue, front)
    {
      if queue != [] {
        front := Some(queue[0]);
        queue := queue[1..];
      } else {
        front := None;
      }
    }
  }

  // The same operations on values, so that whole call sequences can be reasoned about.

  datatype StackOp<T> = PushOp(x: T) | PopOp
  datatype QueueOp<T> = EnqueueOp(x: T) | DequeueOp

  function StackStep<T>(s: seq<T>, op: StackOp<T>): (seq<T>, Option<T>) {
    match op
    case PushOp(x) => (s + [x], None)
    case PopOp => if s == [] then ([], None) else (s[..|s| - 1], Some(s[|s| - 1]))
  }

  function QueueStep<T>(q: seq<T>, op: QueueOp<T>): (seq<T>, Option<T>) {
    match op
    case EnqueueOp(x) => (q + [x], None)
    case DequeueOp => if q == [] then ([], None) else (q[1..], Some(q[0]))
  }

  /** The final stack and what each pop returned, in call order. */
  function RunStack<T>(s: seq<T>, ops: seq<StackOp<T>>): (seq<T>, seq<Option<T>>)
    decreases ops
  {
    if ops == [] then (s, [])
    else
      var step := StackStep(s, ops[0]);
      var run := RunStack(step.0, ops[1..]);
      (run.0, if ops[0].PopOp? then [step.1] + run.1 else run.1)
  }

  function RunQueue<T>(q: seq<T>, ops: seq<QueueOp<T>>): (seq<T>, seq<Option<T>>)
    decreases ops
  {
    if ops == [] then (q, [])
    else
      var step := QueueStep(q, ops[0]);
      var run := RunQueue(step.0, ops[1..]);
      (run.0, if ops[0].DequeueOp? then [step.1] + run.1 else run.1)
  }

  function Pushes<T>(xs: seq<T>): (ops: seq<StackOp<T>>)
    ensures |ops| == |xs| && forall i | 0 <= i < |xs| :: ops[i] == PushOp(xs[i])
  {
    seq(|xs|, i requires 0 <= i < |xs| => PushOp(xs[i]))
  }

  function Pops<T>(n: nat): (ops: seq<StackOp<T>>)
    ensures |ops| == n && forall i | 0 <= i < n :: ops[i] == PopOp
  {
    seq(n, _ => PopOp)
  }

  function Enqueues<T>(xs: seq<T>): (ops: seq<QueueOp<T>>)
    ensures |ops| == |xs| && forall i | 0 <= i < |xs| :: ops[i] == EnqueueOp(xs[i])
  {
    seq(|xs|, i requires 0 <= i < |xs| => EnqueueOp(xs[i]))
  }

  function Dequeues<T>(n: nat): (ops: seq<QueueOp<T>>)
    ensures |ops| == n && forall i | 0 <= i < n :: ops[i] == DequeueOp
  {
    seq(n, _ => DequeueOp)
  }

  function Somes<T>(xs: seq<T>): (r: seq<Option<T>>)
    ensures |r| == |xs| && forall i | 0 <= i < |xs| :: r[i] == Some(xs[i])
  {
    seq(|xs|, i requires 0 <= i < |xs| => Some(xs[i]))
  }

  function Reverse<T>(xs: seq<T>): (r: seq<T>)
    ensures |r| == |xs| && forall i | 0 <= i < |xs| :: r[i] == xs[|xs| - 1 - i]
  {
    seq(|xs|, i requires 0 <= i < |xs| => xs[|xs| - 1 - i])
  }

  /** Pushing runs the stack forward without output. */
  lemma {:induction false} RunPushes<T>(s: seq<T>, xs: seq<T>, rest: seq<StackOp<T>>)
    ensures RunStack(s, Pushes(xs) + rest) == RunStack(s + xs, rest)
    decreases xs
  {
    if xs != [] {
      assert (Pushes(xs) + rest)[0] == PushOp(xs[0]);
      assert (Pushes(xs) + rest)[1..] == Pushes(xs[1..]) + rest;
      RunPushes(s + [xs[0]], xs[1..], rest);
      assert s + [xs[0]] + xs[1..] == s + xs;
    } else {
      assert Pushes(xs) + rest == rest;
      assert s + xs == s;
    }
  }

  /** Popping n times from s + xs (with |xs| == n) returns xs last-first and leaves s. */
  lemma {:induction false} RunPops<T>(s: seq<T>, xs: seq<T>)
    ensures RunStack(s + xs, Pops(|xs|)) == (s, Somes(Reverse(xs)))
  {
    var ops := Pops<T>(|xs|);
    if xs == [] {
      assert ops == [] && s + xs == s && Somes(Reverse(xs)) == [];
    } else {
      var init := xs[..|xs| - 1];
      var last := xs[|xs| - 1];
      assert s + xs == (s + init) + [last];
      assert ops[0] == PopOp && ops[1..] == Pops(|init|);
      assert StackStep(s + xs, PopOp) == (s + init, Some(last));
      RunPops(s, init);
      assert Somes(Reverse(xs)) == [Some(last)] + Somes(Reverse(init));
    }
  }

  /** LIFO: pushing xs and then popping as many times returns xs in reverse
      order and restores the stack. In particular push(x) then pop() gives x. */
  lemma StackIsLifo<T>(s: seq<T>, xs: seq<T>)
    ensures RunStack(s, Pushes(xs) + Pops(|xs|)) == (s, Somes(Reverse(xs)))
  {
    RunPushes(s, xs, Pops(|xs|));
    RunPops(s, xs);
  }

  function Nones<T>(n: nat): (r: seq<Option<T>>)
    ensures |r| == n && forall i | 0 <= i < n :: r[i] == None
  {
    seq(n, _ => None)
  }

  /** Popping an empty stack returns nil and leaves it empty, however often. */
  lemma {:induction false} PopEmptyStack<T>(n: nat)
    ensures RunStack([], Pops<T>(n)) == ([], Nones<T>(n))
  {
    var ops := Pops<T>(n);
    if n == 0 {
      assert ops == [] && Nones<T>(n) == [];
    } else {
      assert ops[0] == PopOp && ops[1..] == Pops(n - 1);
      assert StackStep<T>([], PopOp) == ([], None);
      PopEmptyStack<T>(n - 1);
      assert Nones<T>(n) == [None] + Nones<T>(n - 1);
    }
  }

  lemma {:induction false} RunEnqueues<T>(q: seq<T>, xs: seq<T>, rest: seq<QueueOp<T>>)
    ensures RunQueue(q, Enqueues(xs) + rest) == RunQueue(q + xs, rest)
    decreases xs
  {
    if xs != [] {
      assert (Enqueues(xs) + rest)[0] == EnqueueOp(xs[0]);
      assert (Enqueues(xs) + rest)[1..] == Enqueues(xs[1..]) + rest;
      RunEnqueues(q + [xs[0]], xs[1..], rest);
      assert q + [xs[0]] + xs[1..] == q + xs;
    } else {
      assert Enqueues(xs) + rest == rest;
      assert q + xs == q;
    }
  }

  /** Dequeuing |xs| times from xs + q returns xs front first and leaves q. */
  lemma {:induction false} RunDequeues<T>(xs: seq<T>, q: seq<T>)
    ensures RunQueue(xs + q, Dequeues(|xs|)) == (q, Somes(xs))
  {
    var ops := Dequeues<T>(|xs|);
    if xs == [] {
      assert ops == [] && xs + q == q && Somes(xs) == [];
    } else {
      assert (xs + q)[1..] == xs[1..] + q;
      assert ops[0] == DequeueOp && ops[1..] == Dequeues(|xs| - 1);
      assert QueueStep(xs + q, DequeueOp) == (xs[1..] + q, Some(xs[0]));
      RunDequeues(xs[1..], q);
      assert Somes(xs) == [Some(xs[0])] + Somes(xs[1..]);
    }
  }

  lemma DrainQueue<T>(all: seq<T>)
    ensures RunQueue(all, Dequeues(|all|)) == ([], Somes(all))
  {
    RunDequeues(all, []);
    assert all + [] == all;
  }

  /** FIFO: what was already queued comes out first, then the enqueued
      elements in insertion order, and the queue ends empty. */
  lemma QueueIsFifo<T>(q: seq<T>, xs: seq<T>)
    ensures RunQueue(q, Enqueues(xs) + Dequeues(|q| + |xs|)) == ([], Somes(q + xs))
  {
    var all := q + xs;
    var drain := Dequeues<T>(|all|);
    RunEnqueues(q, xs, drain);
    assert RunQueue(q, Enqueues(xs) + drain) == RunQueue(all, drain);
    DrainQueue(all);
  }
}
