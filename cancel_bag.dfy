/** `CancelBag` (Utilities/CancelBag.swift): a set of subscription handles
    released together. Removing a handle from the set drops the bag's
    reference to it, which cancels the subscription. */
module Cancellation {

  /** An `AnyCancellable`, identified by the object it is. */
  datatype AnyCancellable = AnyCancellable(id: nat)

  class CancelBag {
    var subscriptions: set<AnyCancellable>

    constructor ()
      ensures subscriptions == {}
    {
      subscriptions := {};
    }

    /** `cancel()`: `removeAll()`; returns the handles it let go of. */
    method Cancel() returns (released: set<AnyCancellable>)
      modifies this
      ensures released == old(subscriptions)
      ensures subscriptions == {}
    {
      released := subscriptions;
      subscriptions := {};
    }
  }

  /** `AnyCancellable.store(in:)`: a set insert, so storing twice keeps one copy. */
  method Store(handle: AnyCancellable, bag: CancelBag)
    modifies bag
    ensures bag.subscriptions == old(bag.subscriptions) + {handle}
  {
    bag.subscriptions := bag.subscriptions + {handle};
  }

  /** A sequence of calls on one bag. */
  datatype BagOp = StoreOp(handle: AnyCancellable) | CancelOp

  /** The bag's content after the calls, starting from an empty bag. */
  function Held(ops: seq<BagOp>): set<AnyCancellable> {
    if ops == [] then {}
    else match ops[|ops| - 1]
      case StoreOp(h) => Held(ops[..|ops| - 1]) + {h}
      case CancelOp => {}
  }

  /** Runs the calls on a new bag, in order: the bag ends up holding `Held(ops)`,
      that is, exactly the handles stored since the last cancel. */
  method Replay(ops: seq<BagOp>) returns (bag: CancelBag)
    ensures fresh(bag)
    ensures bag.subscriptions == Held(ops)
    ensures forall h :: h in bag.subscriptions <==> StoredSinceLastCancel(ops, h)
  {
    bag := new CancelBag();
    for i := 0 to |ops|
      invariant bag.subscriptions == Held(ops[..i])
    {
      assert ops[..i + 1][..i] == ops[..i];
      match ops[i]
      case StoreOp(h) =>
        Store(h, bag);
      case CancelOp =>
        var _ := bag.Cancel();
    }
    assert ops[..|ops|] == ops;
    forall h ensures h in bag.subscriptions <==> StoredSinceLastCancel(ops, h) {
      HeldIsStoredSinceLastCancel(ops, h);
    }
  }

  /** An independent description: a handle is held exactly when it was stored
      and no cancel came after that store. */
  predicate StoredSinceLastCancel(ops: seq<BagOp>, h: AnyCancellable) {
    exists i | 0 <= i < |ops| :: ops[i] == StoreOp(h) && forall j | i < j < |ops| :: ops[j] != CancelOp
  }

  lemma {:induction false} HeldIsStoredSinceLastCancel(ops: seq<BagOp>, h: AnyCancellable)
    ensures h in Held(ops) <==> StoredSinceLastCancel(ops, h)
  {
    if ops != [] {
      var init := ops[..|ops| - 1];
      HeldIsStoredSinceLastCancel(init, h);
      match ops[|ops| - 1]
      case CancelOp =>
        forall i | 0 <= i < |ops| && ops[i] == StoreOp(h)
          ensures exists j | i < j < |ops| :: ops[j] == CancelOp
        {
          assert ops[|ops| - 1] == CancelOp;
        }
      case StoreOp(g) =>
        if h in Held(ops) && h != g {
          var i :| 0 <= i < |init| && init[i] == StoreOp(h) && forall j | i < j < |init| :: init[j] != CancelOp;
          assert ops[i] == StoreOp(h) && forall j | i < j < |ops| :: ops[j] != CancelOp;
        }
        if h == g {
          assert ops[|ops| - 1] == StoreOp(h);
        }
        if StoredSinceLastCancel(ops, h) && h != g {
          var i :| 0 <= i < |ops| && ops[i] == StoreOp(h) && forall j | i < j < |ops| :: ops[j] != CancelOp;
          assert i < |ops| - 1;
          assert init[i] == StoreOp(h) && forall j | i < j < |init| :: init[j] != CancelOp;
        }
    }
  }

  /** A cancel releases everything stored before it; what is stored after it
      is held regardless of that cancel. */
  lemma CancelThenStore(before: seq<BagOp>, after: seq<BagOp>, h: AnyCancellable)
    requires StoreOp(h) in after
    requires CancelOp !in after
    ensures h in Held(before + [CancelOp] + after)
  {
    var ops := before + [CancelOp] + after;
    var i :| 0 <= i < |after| && after[i] == StoreOp(h);
    var k := |before| + 1 + i;
    assert ops[k] == StoreOp(h);
    forall j | k < j < |ops| ensures ops[j] != CancelOp {
      assert ops[j] == after[j - |before| - 1];
    }
    HeldIsStoredSinceLastCancel(ops, h);
  }
}
