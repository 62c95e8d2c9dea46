/**
 * The cancellation ledger the hooks and `SubjectProxy` share: an RxJS `Subscription`
 * used as a bag of finalizers. `add` registers a finalizer (or runs it at once when the
 * ledger is already disposed); `unsubscribe` disposes the ledger, running every
 * registered finalizer once, in the order they were added.
 */
module Subscriptions {

  /** What a finalizer releases. */
  datatype Resource =
    | StateSubscription          // the subscription to `nextState` (or to a bare output stream)
    | DerivedSubscription        // the subscription to `derived`
    | Teardown                   // the novel's own `teardown` callback
    | Forwarding(link: nat)      // the subscription `imitate` made, by imitation number

  /** `entries`: finalizers added while open; `released`: finalizers run, in the order they ran. */
  datatype LedgerState = LedgerState(entries: seq<Resource>, disposed: bool, released: seq<Resource>)

  const Open := LedgerState([], false, [])

  /** A resource is live while it is registered and the ledger is not yet disposed. */
  predicate Live(l: LedgerState, r: Resource)
  {
    r in l.entries && !l.disposed
  }

  function Added(l: LedgerState, r: Resource): (l': LedgerState)
    ensures l'.disposed == l.disposed
    ensures !l.disposed ==> Live(l', r)
    ensures l.disposed ==> !Live(l', r) && l'.released == l.released + [r]
  {
    if l.disposed then l.(released := l.released + [r])
    else l.(entries := l.entries + [r])
  }

  function Disposed(l: LedgerState): (l': LedgerState)
    ensures l'.disposed && l'.entries == l.entries
    ensures forall r :: !Live(l', r)
  {
    if l.disposed then l
    else l.(disposed := true, released := l.released + l.entries)
  }

  /** What can happen to a ledger. */
  datatype LedgerOp = Add(resource: Resource) | Dispose

  function Apply(l: LedgerState, op: LedgerOp): LedgerState
  {
    match op
    case Add(r) => Added(l, r)
    case Dispose => Disposed(l)
  }

  function ApplyAll(l: LedgerState, ops: seq<LedgerOp>): LedgerState
    decreases |ops|
  {
    if ops == [] then l else ApplyAll(Apply(l, ops[0]), ops[1..])
  }

  /** The resources the operations add, in order. */
  function AddedBy(ops: seq<LedgerOp>): seq<Resource>
  {
    if ops == [] then []
    else (if ops[0].Add? then [ops[0].resource] else []) + AddedBy(ops[1..])
  }

  /** Disposal is idempotent: a second `unsubscribe` runs nothing. */
  lemma DisposeIdempotent(l: LedgerState)
    ensures Disposed(Disposed(l)) == Disposed(l)
  {
  }

  /** The ledger's bookkeeping against the list of everything added so far: while open, all of
      it is registered and nothing has run; once disposed, all of it has run, in order. */
  predicate Accounts(l: LedgerState, added: seq<Resource>)
  {
    if l.disposed then l.released == added else l.released == [] && l.entries == added
  }

  lemma AccountsStep(l: LedgerState, added: seq<Resource>, op: LedgerOp)
    requires Accounts(l, added)
    ensures Accounts(Apply(l, op), added + AddedBy([op]))
  {
    assert AddedBy([op]) == (if op.Add? then [op.resource] else []) + AddedBy([]);
  }

  /** Every added resource is released exactly once, in the order it was added: those added
      before disposal when the ledger is disposed, those added after on the spot. */
  lemma {:induction false} ReleasedInAddOrder(l: LedgerState, added: seq<Resource>, ops: seq<LedgerOp>)
    requires Accounts(l, added)
    ensures Accounts(ApplyAll(l, ops), added + AddedBy(ops))
    decreases |ops|
  {
    if ops == [] {
      assert added + AddedBy(ops) == added;
    } else {
      var l1, first, rest := Apply(l, ops[0]), AddedBy([ops[0]]), AddedBy(ops[1..]);
      assert ApplyAll(l, ops) == ApplyAll(l1, ops[1..]);
      AccountsStep(l, added, ops[0]);
      ReleasedInAddOrder(l1, added + first, ops[1..]);
      assert AddedBy(ops) == first + rest by {
        assert first == (if ops[0].Add? then [ops[0].resource] else []) + AddedBy([]);
      }
      assert added + first + rest == added + AddedBy(ops);
    }
  }

  /** From a fresh ledger: before disposal everything added is registered and nothing has run;
      after it, everything added has run exactly once, in add order. */
  lemma LedgerReleasesEverythingOnce(ops: seq<LedgerOp>)
    ensures var l := ApplyAll(Open, ops);
            (Dispose in ops ==> l.disposed && l.released == AddedBy(ops))
            && (Dispose !in ops ==> !l.disposed && l.released == [] && l.entries == AddedBy(ops))
  {
    ReleasedInAddOrder(Open, [], ops);
    assert [] + AddedBy(ops) == AddedBy(ops);
    DisposedIffDisposeOp(Open, ops);
  }

  lemma {:induction false} DisposedIffDisposeOp(l: LedgerState, ops: seq<LedgerOp>)
    ensures ApplyAll(l, ops).disposed <==> l.disposed || Dispose in ops
    decreases |ops|
  {
    if ops != [] {
      DisposedIffDisposeOp(Apply(l, ops[0]), ops[1..]);
      assert ops == [ops[0]] + ops[1..];
    }
  }

  /** The mutable `Subscription` object itself. */
  class Ledger {
    var entries: seq<Resource>
    var disposed: bool
    var released: seq<Resource>

    function State(): LedgerState
      reads this
    {
      LedgerState(entries, disposed, released)
    }

    constructor ()
      ensures State() == Open
    {
      entries, disposed, released := [], false, [];
    }

    /** `subscription.add(r)` */
    method Add(r: Resource)
      modifies this
      ensures State() == Added(old(State()), r)
    {
      if disposed {
        released := released + [r];
      } else {
        entries := entries + [r];
      }
    }

    /** `subscription.unsubscribe()` */
    method Dispose()
      modifies this
      ensures State() == Disposed(old(State()))
    {
      if !disposed {
        disposed := true;
        var i := 0;
        while i < |entries|
          invariant 0 <= i <= |entries|
          invariant entries == old(entries) && disposed
          invariant released == old(released) + entries[..i]
        {
          released := released + [entries[i]];
          i := i + 1;
        }
        assert entries[..|entries|] == entries;
      }
    }
  }
}
