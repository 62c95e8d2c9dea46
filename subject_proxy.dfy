/**
 * `SubjectProxy`: a multicast subject that owns no subscriptions itself but records the ones
 * it makes in a ledger handed to it at construction. `imitate(target$)` subscribes the proxy
 * to `target$`; `loop(fn)` is `imitate(fn(this))`, so the proxy's own values flow through
 * `fn` and back into it. Delivery is synchronous and depth-first: a value is handed to each
 * observer in subscription order, and a value a loop feeds back is delivered in full before
 * the next observer sees the original one.
 */
module Proxy {
  import opened Subscriptions

  /** An observer of the proxy: a plain subscriber, or the pipeline `fn(this)` set up by
      `loop`, seen as the values `fn` produces for each input value. Its subscription is the
      ledger entry `Forwarding(link)`. */
  datatype Observer<!T> = Sink | Transform(fn: T -> seq<T>, link: nat)

  /** What the proxy was told to imitate: a stream of its own, which hands over `sync` as soon
      as it is subscribed (a `BehaviorSubject`'s current value, `of(...)`, a `startWith`), or
      `fn(this)`, which has nothing to hand over until the proxy emits. */
  datatype Target<!T> = Upstream(name: nat, sync: seq<T>) | Derived(fn: T -> seq<T>)

  /** A value handed to the subscriber at position `slot` of the observer list. */
  datatype Delivery<T> = Delivery(slot: nat, value: T)

  /** The deliveries one `next` makes, and whether it ran out of stack (a `RangeError` in the
      host) before finishing. */
  datatype Emission<T> = Emission(deliveries: seq<Delivery<T>>, overflow: bool)

  function Join<T>(a: Emission<T>, b: Emission<T>): Emission<T>
  {
    Emission(a.deliveries + b.deliveries, b.overflow)
  }

  predicate ObserverLive<T>(l: LedgerState, o: Observer<T>)
  {
    o.Sink? || Live(l, Forwarding(o.link))
  }

  /** `next(v)` with `stack` nested calls still available. */
  function Broadcast<T>(obs: seq<Observer<T>>, l: LedgerState, v: T, stack: nat): Emission<T>
    decreases stack, 2, 0, 0
  {
    EmitFrom(obs, l, v, 0, stack)
  }

  /** The rest of `next(v)`, from the observer at position `i` on; an overflow stops it. */
  function EmitFrom<T>(obs: seq<Observer<T>>, l: LedgerState, v: T, i: nat, stack: nat): Emission<T>
    decreases stack, 1, if i <= |obs| then |obs| - i else 0, 1
  {
    if i >= |obs| then Emission([], false)
    else
      var first := Notify(obs, l, v, i, stack);
      if first.overflow then first else Join(first, EmitFrom(obs, l, v, i + 1, stack))
  }

  /** What handing `v` to the observer at position `i` does: a subscriber records it; a live
      loop feeds each value `fn` makes of it back into the proxy; a cut loop does nothing. */
  function Notify<T>(obs: seq<Observer<T>>, l: LedgerState, v: T, i: nat, stack: nat): Emission<T>
    requires i < |obs|
    decreases stack, 1, |obs| - i, 0
  {
    match obs[i]
    case Sink => Emission([Delivery(i, v)], false)
    case Transform(fn, link) =>
      if Live(l, Forwarding(link)) then FeedFrom(obs, l, fn(v), 0, stack) else Emission([], false)
  }

  /** A loop's outputs `ws`, from position `j` on, each fed back through a nested `next`. */
  function FeedFrom<T>(obs: seq<Observer<T>>, l: LedgerState, ws: seq<T>, j: nat, stack: nat): Emission<T>
    decreases stack, 0, if j <= |ws| then |ws| - j else 0, 0
  {
    if j >= |ws| then Emission([], false)
    else if stack == 0 then Emission([], true)
    else
      var first := Broadcast(obs, l, ws[j], stack - 1);
      if first.overflow then first else Join(first, FeedFrom(obs, l, ws, j + 1, stack))
  }

  /** Deliveries already made, then the rest: joining is associative. */
  lemma JoinStep<T>(done: seq<Delivery<T>>, first: Emission<T>, rest: Emission<T>)
    ensures Join(Emission(done, false), Join(first, rest)) == Join(Emission(done + first.deliveries, false), rest)
  {
    assert done + (first.deliveries + rest.deliveries) == (done + first.deliveries) + rest.deliveries;
  }

  function SinkDeliveries<T>(obs: seq<Observer<T>>, v: T, i: nat): seq<Delivery<T>>
    decreases if i <= |obs| then |obs| - i else 0
  {
    if i >= |obs| then []
    else (if obs[i].Sink? then [Delivery(i, v)] else []) + SinkDeliveries(obs, v, i + 1)
  }

  /** Without a live loop, `next(v)` hands `v` once to every subscriber, in subscription order,
      and always finishes. */
  lemma {:induction false} BroadcastWithoutLoops<T>(obs: seq<Observer<T>>, l: LedgerState, v: T, i: nat, stack: nat)
    requires forall k :: 0 <= k < |obs| ==> !obs[k].Transform? || !Live(l, Forwarding(obs[k].link))
    ensures EmitFrom(obs, l, v, i, stack) == Emission(SinkDeliveries(obs, v, i), false)
    decreases if i <= |obs| then |obs| - i else 0
  {
    if i < |obs| {
      BroadcastWithoutLoops(obs, l, v, i + 1, stack);
    }
  }

  /** The values a stream hands over when subscribed, each one a `next` of the proxy made from
      the top of the stack; an overflow stops them. */
  function SyncDeliveries<T>(obs: seq<Observer<T>>, l: LedgerState, vs: seq<T>, stack: nat): Emission<T>
  {
    FeedFrom(obs, l, vs, 0, stack + 1)
  }

  /** Handed over to plain subscribers, the values from position `j` on reach the subscriber at
      slot 0 once each, in order. */
  lemma {:induction false} SyncToSubscriber<T>(l: LedgerState, vs: seq<T>, j: nat, stack: nat)
    requires j <= |vs|
    ensures FeedFrom([Sink], l, vs, j, stack + 1) == Emission(Sinked(vs[j..]), false)
    decreases |vs| - j
  {
    if j < |vs| {
      BroadcastWithoutLoops([Sink], l, vs[j], 0, stack);
      assert SinkDeliveries([Sink], vs[j], 1) == [];
      SyncToSubscriber(l, vs, j + 1, stack);
      assert Sinked(vs[j..]) == [Delivery(0, vs[j])] + Sinked(vs[j + 1..]);
    } else {
      assert Sinked(vs[j..]) == [];
    }
  }

  /** A subscriber of the proxy receives every value a stream hands over on subscription, in
      order: `SyncDeliveries` to a lone subscriber is exactly those values. */
  lemma SyncValuesReachSubscriber<T>(l: LedgerState, vs: seq<T>, stack: nat)
    ensures SyncDeliveries([Sink], l, vs, stack) == Emission(Sinked(vs), false)
  {
    SyncToSubscriber(l, vs, 0, stack);
    assert vs[0..] == vs;
  }

  function Echo<T>(x: T): seq<T>
  {
    [x]
  }

  /** A loop that echoes every value back unchanged exhausts any stack: the subscriber sees the
      value `stack + 1` times and the call overflows. */
  lemma {:induction false} EchoOverflows<T>(l: LedgerState, v: T, stack: nat)
    requires Live(l, Forwarding(0))
    ensures var echo := [Sink, Transform(Echo, 0)];
            Broadcast(echo, l, v, stack) == Emission(seq(stack + 1, _ => Delivery(0, v)), true)
  {
    var echo := [Sink, Transform(Echo, 0)];
    var rest := if stack > 0 then Broadcast(echo, l, v, stack - 1) else Emission([], true);
    if stack > 0 {
      EchoOverflows(l, v, stack - 1);
    }
    assert Echo(v) == [v];
    assert FeedFrom(echo, l, [v], 0, stack) == rest;
    assert Notify(echo, l, v, 1, stack) == rest;
    assert EmitFrom(echo, l, v, 1, stack) == rest;
    assert Notify(echo, l, v, 0, stack) == Emission([Delivery(0, v)], false);
    assert seq(stack + 1, _ => Delivery(0, v)) == [Delivery(0, v)] + rest.deliveries;
  }

  /** Each value handed to the subscriber at slot 0, in order. */
  function Sinked<T>(ws: seq<T>): (r: seq<Delivery<T>>)
    ensures |r| == |ws| && forall k :: 0 <= k < |ws| ==> r[k] == Delivery(0, ws[k])
  {
    seq(|ws|, k requires 0 <= k < |ws| => Delivery(0, ws[k]))
  }

  /** A value whose loop output is empty reaches the subscriber and goes no further. */
  lemma QuietDelivery<T>(fn: T -> seq<T>, l: LedgerState, w: T, stack: nat)
    requires fn(w) == []
    ensures Broadcast([Sink, Transform(fn, 0)], l, w, stack) == Emission([Delivery(0, w)], false)
  {
    var obs := [Sink, Transform(fn, 0)];
    assert FeedFrom(obs, l, fn(w), 0, stack) == Emission([], false);
    assert Notify(obs, l, w, 1, stack) == Emission([], false);
    assert EmitFrom(obs, l, w, 1, stack) == Emission([], false);
    assert Notify(obs, l, w, 0, stack) == Emission([Delivery(0, w)], false);
  }

  /** A loop's outputs from position `j` on, none of which the loop maps any further, are each
      delivered once, in order, without overflowing. */
  lemma {:induction false} FeedQuiet<T>(fn: T -> seq<T>, l: LedgerState, ws: seq<T>, j: nat, stack: nat)
    requires j <= |ws| && stack > 0
    requires forall w :: w in ws ==> fn(w) == []
    ensures FeedFrom([Sink, Transform(fn, 0)], l, ws, j, stack) == Emission(Sinked(ws[j..]), false)
    decreases |ws| - j
  {
    var obs := [Sink, Transform(fn, 0)];
    if j < |ws| {
      QuietDelivery(fn, l, ws[j], stack - 1);
      FeedQuiet(fn, l, ws, j + 1, stack);
      assert Sinked(ws[j..]) == [Delivery(0, ws[j])] + Sinked(ws[j + 1..]);
    } else {
      assert Sinked(ws[j..]) == [];
    }
  }

  /** With a subscriber registered before `loop(fn)`, and a loop that produces nothing from its
      own outputs, `next(v)` is seen as `v` followed by the values `fn` makes of `v`, in order,
      while the loop's subscription is live, and as `v` alone once the ledger cut it. */
  lemma LoopDeliversOutputs<T>(fn: T -> seq<T>, l: LedgerState, v: T, stack: nat)
    requires stack > 0 && forall w :: w in fn(v) ==> fn(w) == []
    ensures Broadcast([Sink, Transform(fn, 0)], l, v, stack) ==
              Emission([Delivery(0, v)] + (if Live(l, Forwarding(0)) then Sinked(fn(v)) else []), false)
  {
    var obs := [Sink, Transform(fn, 0)];
    if Live(l, Forwarding(0)) {
      FeedQuiet(fn, l, fn(v), 0, stack);
      assert fn(v)[0..] == fn(v);
      assert Notify(obs, l, v, 1, stack) == Emission(Sinked(fn(v)), false);
    } else {
      assert Notify(obs, l, v, 1, stack) == Emission([], false);
    }
    assert EmitFrom(obs, l, v, 1, stack) == Notify(obs, l, v, 1, stack);
    assert Notify(obs, l, v, 0, stack) == Emission([Delivery(0, v)], false);
  }

  /** The loop of the repository's test: keep positive values and negate them. */
  function NegatePositive(x: int): seq<int>
  {
    if x > 0 then [-x] else []
  }

  /** With a subscriber registered before `loop(filter(x > 0), map(-x))`, `next(v)` for a
      positive `v` is seen as `v` then `-v`, and the fed-back `-v` goes no further; once the
      ledger is disposed the loop is cut and `v` is seen alone. */
  lemma LoopDelivery(l: LedgerState, v: int, stack: nat)
    requires v > 0 && stack > 0
    ensures var obs := [Sink, Transform(NegatePositive, 0)];
            Broadcast(obs, l, v, stack) ==
              Emission(if Live(l, Forwarding(0)) then [Delivery(0, v), Delivery(0, -v)] else [Delivery(0, v)], false)
  {
    assert NegatePositive(v) == [-v] && NegatePositive(-v) == [];
    LoopDeliversOutputs(NegatePositive, l, v, stack);
    assert [Delivery(0, v)] + Sinked([-v]) == [Delivery(0, v), Delivery(0, -v)];
  }

  class SubjectProxy<T> {
    /** The ledger passed to the constructor; never replaced. */
    const ledger: Ledger
    /** Nested `next` calls the host stack allows. */
    const stackLimit: nat
    var observers: seq<Observer<T>>
    var targets: seq<Target<T>>
    /** Every value handed to a subscriber, in order. */
    var received: seq<Delivery<T>>

    constructor (ledger: Ledger, stackLimit: nat)
      ensures this.ledger == ledger && this.stackLimit == stackLimit
      ensures observers == [] && targets == [] && received == []
    {
      this.ledger := ledger;
      this.stackLimit := stackLimit;
      observers, targets, received := [], [], [];
    }

    /** `subscribe`: a new subscriber at the end of the list; returns its slot. */
    method Subscribe() returns (slot: nat)
      modifies this
      ensures slot == |old(observers)| && observers == old(observers) + [Sink]
      ensures targets == old(targets) && received == old(received)
    {
      slot := |observers|;
      observers := observers + [Sink];
    }

    /** `imitate(target$)`: subscribe the proxy to the target, which hands its values on
        subscription straight to the proxy's observers, and only then register that
        subscription in the ledger (released at once if the ledger is already disposed).
        Imitating `fn(this)` makes a new observer of the proxy itself and hands nothing over.
        `ok` is false when the handed-over values overflowed the stack. */
    method Imitate(target: Target<T>) returns (ok: bool)
      modifies this, ledger
      ensures targets == old(targets) + [target]
      ensures observers == old(observers) + (if target.Derived? then [Transform(target.fn, |old(targets)|)] else [])
      ensures ledger.State() == Added(old(ledger.State()), Forwarding(|old(targets)|))
      ensures var e := if target.Upstream? then SyncDeliveries(old(observers), old(ledger.State()), target.sync, stackLimit)
                       else Emission([], false);
              received == old(received) + e.deliveries && ok == !e.overflow
    {
      var link := |targets|;
      if target.Derived? {
        observers := observers + [Transform(target.fn, link)];
        ok := true;
      } else {
        ok := Feed(target.sync, stackLimit + 1);
      }
      targets := targets + [target];
      ledger.Add(Forwarding(link));
    }

    /** `loop(fn)`, which is exactly `imitate(fn(this))`. */
    method Loop(fn: T -> seq<T>)
      modifies this, ledger
      ensures targets == old(targets) + [Derived(fn)]
      ensures observers == old(observers) + [Transform(fn, |old(targets)|)]
      ensures ledger.State() == Added(old(ledger.State()), Forwarding(|old(targets)|))
      ensures received == old(received)
    {
      var ok := Imitate(Derived(fn));
    }

    /** `next(v)`; `ok` is false when the nested deliveries overflowed the stack. */
    method Next(v: T) returns (ok: bool)
      modifies this
      ensures var e := Broadcast(old(observers), ledger.State(), v, stackLimit);
              received == old(received) + e.deliveries && ok == !e.overflow
      ensures observers == old(observers) && targets == old(targets)
    {
      ok := Deliver(v, stackLimit);
    }

    /** The upstream imitated at position `link` emits `v`; it reaches the proxy only while
        that subscription is live. */
    method UpstreamNext(link: nat, v: T) returns (ok: bool)
      requires link < |targets| && targets[link].Upstream?
      modifies this
      ensures if Live(ledger.State(), Forwarding(link))
              then var e := Broadcast(old(observers), ledger.State(), v, stackLimit);
                   received == old(received) + e.deliveries && ok == !e.overflow
              else received == old(received) && ok
      ensures observers == old(observers) && targets == old(targets)
    {
      if Forwarding(link) in ledger.entries && !ledger.disposed {
        ok := Deliver(v, stackLimit);
      } else {
        ok := true;
      }
    }

    method Deliver(v: T, stack: nat) returns (ok: bool)
      modifies this
      ensures var e := Broadcast(old(observers), ledger.State(), v, stack);
              received == old(received) + e.deliveries && ok == !e.overflow
      ensures observers == old(observers) && targets == old(targets)
      decreases stack, 2
    {
      var obs, l := observers, ledger.State();
      ghost var done: seq<Delivery<T>> := [];
      var i := 0;
      while i < |obs|
        invariant 0 <= i <= |obs|
        invariant observers == obs && targets == old(targets) && ledger.State() == l
        invariant received == old(received) + done
        invariant EmitFrom(obs, l, v, 0, stack) == Join(Emission(done, false), EmitFrom(obs, l, v, i, stack))
      {
        ghost var first := Notify(obs, l, v, i, stack);
        ghost var rest := EmitFrom(obs, l, v, i + 1, stack);
        assert EmitFrom(obs, l, v, i, stack) == if first.overflow then first else Join(first, rest);
        ok := Visit(v, i, stack);
        if !ok {
          return;
        }
        JoinStep(done, first, rest);
        done := done + first.deliveries;
        i := i + 1;
      }
      ok := true;
    }

    /** Hand `v` to the observer at position `i`. */
    method Visit(v: T, i: nat, stack: nat) returns (ok: bool)
      requires i < |observers|
      modifies this
      ensures var e := Notify(old(observers), ledger.State(), v, i, stack);
              received == old(received) + e.deliveries && ok == !e.overflow
      ensures observers == old(observers) && targets == old(targets)
      decreases stack, 1
    {
      match observers[i] {
        case Sink =>
          received := received + [Delivery(i, v)];
          ok := true;
        case Transform(fn, link) =>
          if Forwarding(link) in ledger.entries && !ledger.disposed {
            ok := Feed(fn(v), stack);
          } else {
            ok := true;
          }
      }
    }

    /** Feed a loop's outputs back into the proxy, one nested `next` each. */
    method Feed(ws: seq<T>, stack: nat) returns (ok: bool)
      modifies this
      ensures var e := FeedFrom(old(observers), ledger.State(), ws, 0, stack);
              received == old(received) + e.deliveries && ok == !e.overflow
      ensures observers == old(observers) && targets == old(targets)
      decreases stack, 0
    {
      var obs, l := observers, ledger.State();
      if stack == 0 {
        ok := |ws| == 0;
        return;
      }
      ghost var done: seq<Delivery<T>> := [];
      var j := 0;
      while j < |ws|
        invariant 0 <= j <= |ws|
        invariant observers == obs && targets == old(targets) && ledger.State() == l
        invariant received == old(received) + done
        invariant FeedFrom(obs, l, ws, 0, stack) == Join(Emission(done, false), FeedFrom(obs, l, ws, j, stack))
      {
        ghost var first := Broadcast(obs, l, ws[j], stack - 1);
        ghost var rest := FeedFrom(obs, l, ws, j + 1, stack);
        assert FeedFrom(obs, l, ws, j, stack) == if first.overflow then first else Join(first, rest);
        var delivered := Deliver(ws[j], stack - 1);
        if !delivered {
          assert received == old(received) + (done + first.deliveries);
          ok := false;
          return;
        }
        JoinStep(done, first, rest);
        done := done + first.deliveries;
        j := j + 1;
      }
      ok := true;
    }
  }

  function Values<T>(ds: seq<Delivery<T>>): (r: seq<T>)
    ensures |r| == |ds| && forall k :: 0 <= k < |ds| ==> r[k] == ds[k].value
  {
    if ds == [] then [] else [ds[0].value] + Values(ds[1..])
  }

  /** `source$.next(v)` on the proxy of the `imitate` case. */
  method SendUpstream(proxy: SubjectProxy<int>, v: int)
    requires proxy.observers == [Sink] && |proxy.targets| == 1 && proxy.targets[0].Upstream?
    modifies proxy
    ensures proxy.observers == old(proxy.observers) && proxy.targets == old(proxy.targets)
    ensures proxy.received == old(proxy.received) + if Live(proxy.ledger.State(), Forwarding(0)) then [Delivery(0, v)] else []
  {
    BroadcastWithoutLoops([Sink], proxy.ledger.State(), v, 0, proxy.stackLimit);
    var ok := proxy.UpstreamNext(0, v);
  }

  /** The `imitate` case: a subscriber of a proxy imitating `source$` sees 1, 2, 3; after the
      shared ledger is disposed, 4 and 5 from `source$` no longer reach it. */
  method ImitateScenario(stackLimit: nat) returns (collected: seq<int>)
    ensures collected == [1, 2, 3]
  {
    var subscription := new Ledger();
    var proxy := new SubjectProxy<int>(subscription, stackLimit);
    var ok := proxy.Imitate(Upstream(0, []));
    var slot := proxy.Subscribe();
    assert proxy.observers == [Sink] && proxy.targets == [Upstream(0, [])];
    assert Live(subscription.State(), Forwarding(0));
    SendUpstream(proxy, 1);
    SendUpstream(proxy, 2);
    SendUpstream(proxy, 3);
    subscription.Dispose();
    SendUpstream(proxy, 4);
    SendUpstream(proxy, 5);
    assert proxy.received == [Delivery(0, 1), Delivery(0, 2), Delivery(0, 3)];
    collected := Values(proxy.received);
  }

  /** A subscriber registered before `imitate` receives the values the target hands over on
      subscription, even when the ledger was disposed beforehand: the subscription is made
      first and only released by `add` afterwards, so later values no longer arrive. */
  method ImitateAfterDispose(stackLimit: nat, vs: seq<int>) returns (collected: seq<int>)
    ensures collected == vs
  {
    var subscription := new Ledger();
    var proxy := new SubjectProxy<int>(subscription, stackLimit);
    var slot := proxy.Subscribe();
    subscription.Dispose();
    assert proxy.observers == [Sink] && proxy.received == [];
    ghost var e := SyncDeliveries(proxy.observers, subscription.State(), vs, stackLimit);
    SyncValuesReachSubscriber(subscription.State(), vs, stackLimit);
    var ok := proxy.Imitate(Upstream(0, vs));
    assert proxy.received == [] + e.deliveries;
    assert !Live(subscription.State(), Forwarding(0));
    assert proxy.received == Sinked(vs);
    SendUpstream(proxy, 7);
    assert proxy.received == Sinked(vs);
    collected := Values(proxy.received);
  }

  /** `next(v)` of a positive value on the proxy of the `loop` case. */
  method SendLooped(proxy: SubjectProxy<int>, v: int)
    requires v > 0 && proxy.stackLimit > 0 && proxy.observers == [Sink, Transform(NegatePositive, 0)]
    modifies proxy
    ensures proxy.observers == old(proxy.observers) && proxy.targets == old(proxy.targets)
    ensures proxy.received == old(proxy.received)
              + if Live(proxy.ledger.State(), Forwarding(0)) then [Delivery(0, v), Delivery(0, -v)] else [Delivery(0, v)]
  {
    LoopDelivery(proxy.ledger.State(), v, proxy.stackLimit);
    var ok := proxy.Next(v);
  }

  /** The `loop` case: with a subscriber registered first and the loop `filter(x > 0), map(-x)`,
      `next` of 1, 2, 3 is seen as 1, -1, 2, -2, 3, -3; after the ledger is disposed, 4 and 5
      are seen alone. */
  method LoopScenario(stackLimit: nat) returns (collected: seq<int>)
    requires stackLimit > 0
    ensures collected == [1, -1, 2, -2, 3, -3, 4, 5]
  {
    var subscription := new Ledger();
    var proxy := new SubjectProxy<int>(subscription, stackLimit);
    var slot := proxy.Subscribe();
    proxy.Loop(NegatePositive);
    assert proxy.observers == [Sink, Transform(NegatePositive, 0)];
    assert Live(subscription.State(), Forwarding(0));
    var looped := [Delivery(0, 1), Delivery(0, -1), Delivery(0, 2), Delivery(0, -2), Delivery(0, 3), Delivery(0, -3)];
    SendLooped(proxy, 1);
    assert proxy.received == looped[..2];
    SendLooped(proxy, 2);
    assert proxy.received == looped[..4];
    SendLooped(proxy, 3);
    assert proxy.received == looped;
    subscription.Dispose();
    assert !Live(proxy.ledger.State(), Forwarding(0));
    SendLooped(proxy, 4);
    SendLooped(proxy, 5);
    assert proxy.received == looped + [Delivery(0, 4), Delivery(0, 5)];
    collected := Values(proxy.received);
    LoopValues();
  }

  lemma LoopValues()
    ensures Values([Delivery(0, 1), Delivery(0, -1), Delivery(0, 2), Delivery(0, -2), Delivery(0, 3), Delivery(0, -3)]
                   + [Delivery(0, 4), Delivery(0, 5)])
            == [1, -1, 2, -2, 3, -3, 4, 5]
  {
    var ds := [Delivery(0, 1), Delivery(0, -1), Delivery(0, 2), Delivery(0, -2), Delivery(0, 3), Delivery(0, -3)]
              + [Delivery(0, 4), Delivery(0, 5)];
    assert |Values(ds)| == 8;
  }
}
