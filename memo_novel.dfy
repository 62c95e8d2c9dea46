/**
 * `useMemoNovel` (also exported as `useNovel`): the novel runs once, synchronously, during the
 * first render, on cursors over two plain subjects `input$` and `state$`; everything it
 * subscribes, and its `teardown`, go into one ledger that the unmount cleanup disposes.
 */
module MemoNovel {
  import opened Wrappers
  import opened Subscriptions
  import opened Harness

  /** Everything one hook instance keeps between host events. */
  datatype Hook<I, V, E> = Hook(
    input: I,                     // the input of the latest render
    mirror: Mirror<I>,            // `mount.current`, and what went into `input$`
    renderState: Fields<V>,       // the `useState` value
    statePushes: seq<Fields<V>>,  // what went into `state$`
    derived: Option<Fields<V>>,   // `derivedValueRef.current`; `None` is `null`
    exports: Ref<E>,              // `exportsRef.current`
    ledger: LedgerState,          // the `Subscription`
    phase: Phase,
    calls: nat)                   // how often the novel ran

  /** A value of the state stream goes into `state$`, then into render state. */
  function PushStates<I, V, E>(h: Hook<I, V, E>, vs: seq<Fields<V>>): Hook<I, V, E>
  {
    h.(statePushes := h.statePushes + vs, renderState := if vs == [] then h.renderState else Last(vs))
  }

  /** `subscription.add(stream.subscribe(v => { state$.next(v); setState(v) }))` */
  function SubscribeState<I, V, E>(h: Hook<I, V, E>, src: Source<Fields<V>>): Hook<I, V, E>
  {
    var h' := PushStates(h, src.sync);
    h'.(ledger := Added(h'.ledger, StateSubscription))
  }

  function FinishBind<I, V, E>(h: Hook<I, V, E>, p: Parts<V, E>): Hook<I, V, E>
  {
    h.(ledger := if p.teardown then Added(h.ledger, Teardown) else h.ledger,
       exports := PropertyRef(p.exports), phase := Bound)
  }

  function BindParts<I, V, E>(h: Hook<I, V, E>, p: Parts<V, E>, checkSync: bool): Hook<I, V, E>
  {
    var h1 := if p.nextState.Some? then SubscribeState(h, p.nextState.value) else h;
    if p.derived.None? then FinishBind(h1, p)
    else
      var src := p.derived.value;
      var h2 := h1.(derived := LastOr(h1.derived, src.sync), ledger := Added(h1.ledger, DerivedSubscription));
      if checkSync && src.sync == [] then h2.(phase := Failed(SyncCheckMessage))
      else FinishBind(h2, p)
  }

  /** Running the novel and wiring up what it returned; `checkSync` enables the check that
      `derived` emits synchronously. */
  function Bind<I, V, E>(h: Hook<I, V, E>, output: Output<V, E>, checkSync: bool): Hook<I, V, E>
  {
    var h := h.(calls := h.calls + 1);
    match output
    case NoOutput => h.(phase := Bound)
    case Bare(src) => SubscribeState(h, src).(phase := Bound)
    case Structured(p) => BindParts(h, p, checkSync)
  }

  function Fresh<I, V, E>(input: I, initialState: Fields<V>): Hook<I, V, E>
  {
    Hook(input, Mirror(true, []), initialState, [], None, Null, Open, Unbound, 0)
  }

  /** The first render: the hook's state is created and the novel runs on the initial input
      and initial state. `production` stands for `process.env.NODE_ENV === 'production'`. */
  function Mount<I, V, E>(input: I, initialState: Fields<V>, novel: Novel<I, V, E>, production: bool): Hook<I, V, E>
  {
    Bind(Fresh(input, initialState), novel(input, initialState), !production)
  }

  function Step<I, V, E>(h: Hook<I, V, E>, event: HostEvent<I, V>): Hook<I, V, E>
  {
    if !h.phase.Bound? then h
    else match event
      case Render(input) => h.(input := input)
      case AfterRender => h.(mirror := MirrorEffect(h.mirror, h.input))
      case NextStateEmits(v) => if Live(h.ledger, StateSubscription) then PushStates(h, [v]) else h
      case DerivedEmits(d) => if Live(h.ledger, DerivedSubscription) then h.(derived := Some(d)) else h
      case Unmount => h.(ledger := Disposed(h.ledger), phase := Unmounted)
  }

  function Run<I, V, E>(h: Hook<I, V, E>, events: seq<HostEvent<I, V>>): Hook<I, V, E>
    decreases |events|
  {
    if events == [] then h else Run(Step(h, events[0]), events[1..])
  }

  /** What a render returns: render state overlaid by the derived value, and the exports. */
  function View<I, V, E>(h: Hook<I, V, E>): (Fields<V>, Ref<E>)
  {
    (Overlay(h.renderState, h.derived), h.exports)
  }

  /** What binding registers in the ledger, in order. */
  function Registered<V, E>(output: Output<V, E>): seq<Resource>
  {
    match output
    case NoOutput => []
    case Bare(_) => [StateSubscription]
    case Structured(p) =>
      (if p.nextState.Some? then [StateSubscription] else [])
      + (if p.derived.Some? then [DerivedSubscription] else [])
      + (if p.teardown then [Teardown] else [])
  }

  /** Binding: the novel has run once; either the check failed with its message, or the ledger
      holds the subscriptions and teardown in order, exports are set, and render state is the
      last value the state stream emitted synchronously. */
  lemma MountBinds<I, V, E>(input: I, initialState: Fields<V>, novel: Novel<I, V, E>, production: bool)
    ensures var h := Mount(input, initialState, novel, production);
            var output := novel(input, initialState);
            h.calls == 1 && h.mirror == Mirror(true, []) && h.input == input
            && (h.phase == Failed(SyncCheckMessage) <==> FailsCheck(output, production))
            && (h.phase.Bound? <==> !FailsCheck(output, production))
            && (h.phase.Bound? ==> h.ledger == LedgerState(Registered(output), false, [])
                                   && h.exports == ExportsOf(output))
            && h.renderState == (if h.statePushes == [] then initialState else Last(h.statePushes))
  {
    BindFromOpen(Fresh<I, V, E>(input, initialState), novel(input, initialState), !production);
  }

  /** Binding into a hook that holds nothing yet: the check fails exactly when `FailsCheck`
      says; otherwise the ledger holds what `Registered` lists and exports are set. */
  lemma BindFromOpen<I, V, E>(h: Hook<I, V, E>, output: Output<V, E>, checkSync: bool)
    requires h.ledger == Open && h.statePushes == [] && h.derived == None && h.exports == Null
    ensures var h' := Bind(h, output, checkSync);
            h'.calls == h.calls + 1 && h'.mirror == h.mirror && h'.input == h.input
            && (h'.phase == Failed(SyncCheckMessage) <==> FailsCheck(output, !checkSync))
            && (h'.phase.Bound? <==> !FailsCheck(output, !checkSync))
            && (h'.phase.Bound? ==> h'.ledger == LedgerState(Registered(output), false, [])
                                    && h'.exports == ExportsOf(output))
            && h'.renderState == (if h'.statePushes == [] then h.renderState else Last(h'.statePushes))
            && (output.Structured? && output.parts.derived == Some(Source([])) ==> h'.derived == None)
  {
    var h0 := h.(calls := h.calls + 1);
    match output
    case NoOutput =>
    case Bare(src) =>
      SubscribeStateRegisters(h0, src);
    case Structured(p) =>
      BindPartsFromOpen(h0, p, checkSync);
  }

  lemma BindPartsFromOpen<I, V, E>(h: Hook<I, V, E>, p: Parts<V, E>, checkSync: bool)
    requires h.ledger == Open && h.statePushes == [] && h.derived == None && h.exports == Null
    ensures var h' := BindParts(h, p, checkSync);
            var fails := checkSync && p.derived == Some(Source([]));
            h'.calls == h.calls && h'.mirror == h.mirror && h'.input == h.input
            && (h'.phase == Failed(SyncCheckMessage) <==> fails)
            && (h'.phase.Bound? <==> !fails)
            && (h'.phase.Bound? ==> h'.ledger == LedgerState(Registered(Structured(p)), false, [])
                                    && h'.exports == PropertyRef(p.exports))
            && h'.renderState == (if h'.statePushes == [] then h.renderState else Last(h'.statePushes))
            && (p.derived == Some(Source([])) ==> h'.derived == None)
  {
    var h1 := if p.nextState.Some? then SubscribeState(h, p.nextState.value) else h;
    if p.nextState.Some? {
      SubscribeStateRegisters(h, p.nextState.value);
    }
    assert h1.ledger == LedgerState(if p.nextState.Some? then [StateSubscription] else [], false, []);
    assert h1.renderState == (if h1.statePushes == [] then h.renderState else Last(h1.statePushes));
  }

  lemma SubscribeStateRegisters<I, V, E>(h: Hook<I, V, E>, src: Source<Fields<V>>)
    requires h.ledger == Open && h.statePushes == []
    ensures var h' := SubscribeState(h, src);
            h'.ledger == LedgerState([StateSubscription], false, []) && h'.statePushes == src.sync
            && h'.renderState == (if src.sync == [] then h.renderState else Last(src.sync))
            && h'.phase == h.phase && h'.exports == h.exports && h'.calls == h.calls
            && h'.mirror == h.mirror && h'.input == h.input && h'.derived == h.derived
  {
    assert [] + src.sync == src.sync;
  }

  /** A bare stream is bound exactly like `{ nextState: stream }`, except that exports stay
      `null` rather than becoming `undefined`. */
  lemma BareIsNextState<I, V, E>(h: Hook<I, V, E>, src: Source<Fields<V>>, checkSync: bool)
    ensures Bind(h, Bare(src), checkSync)
            == Bind(h, Structured(Parts(Some(src), None, None, false)), checkSync).(exports := h.exports)
  {
  }

  /** A null output subscribes nothing, and nothing it does not subscribe can reach the hook:
      render state stays the initial state, the derived value and exports stay `null`. */
  lemma {:induction false} NoOutputStaysInitial<I, V, E>(input: I, initialState: Fields<V>, novel: Novel<I, V, E>,
                                                         production: bool, events: seq<HostEvent<I, V>>)
    requires novel(input, initialState) == NoOutput
    ensures var h := Run(Mount(input, initialState, novel, production), events);
            h.ledger.entries == [] && h.statePushes == [] && h.renderState == initialState
            && h.derived == None && h.exports == Null
  {
    var h := Mount(input, initialState, novel, production);
    assert h.ledger.entries == [];
    NoOutputRun(h, initialState, events);
  }

  lemma {:induction false} NoOutputRun<I, V, E>(h: Hook<I, V, E>, initialState: Fields<V>, events: seq<HostEvent<I, V>>)
    requires h.ledger.entries == [] && h.statePushes == [] && h.renderState == initialState
    requires h.derived == None && h.exports == Null
    ensures var h' := Run(h, events);
            h'.ledger.entries == [] && h'.statePushes == [] && h'.renderState == initialState
            && h'.derived == None && h'.exports == Null
    decreases |events|
  {
    if events != [] {
      NoOutputRun(Step(h, events[0]), initialState, events[1..]);
    }
  }

  /** What holds of a bound hook for the rest of its life. */
  ghost predicate Lifetime<I, V, E>(h: Hook<I, V, E>, initialState: Fields<V>, registered: seq<Resource>, exports: Ref<E>)
  {
    h.calls == 1 && h.exports == exports && h.ledger.entries == registered
    && h.renderState == (if h.statePushes == [] then initialState else Last(h.statePushes))
    && (h.phase == Bound || h.phase == Unmounted)
    && (h.phase == Bound ==> !h.ledger.disposed && h.ledger.released == [])
    && (h.phase == Unmounted ==> h.ledger.disposed && h.ledger.released == registered)
  }

  lemma {:induction false} LifetimeRun<I, V, E>(h: Hook<I, V, E>, initialState: Fields<V>, registered: seq<Resource>,
                                                exports: Ref<E>, events: seq<HostEvent<I, V>>)
    requires Lifetime(h, initialState, registered, exports)
    ensures Lifetime(Run(h, events), initialState, registered, exports)
    decreases |events|
  {
    if events != [] {
      var h1 := Step(h, events[0]);
      if events[0].NextStateEmits? && h.phase.Bound? && Live(h.ledger, StateSubscription) {
        assert h1.statePushes == h.statePushes + [events[0].state];
      }
      LifetimeRun(h1, initialState, registered, exports, events[1..]);
    }
  }

  /** Whatever the host does after a successful bind: the novel never runs again, the ledger
      registers nothing more, exports keep the value bind gave them, render state is always the
      last value pushed into `state$`, and after unmount every subscription and the teardown
      have been released once, in the order they were added. */
  lemma MemoLifetime<I, V, E>(input: I, initialState: Fields<V>, novel: Novel<I, V, E>, production: bool,
                              events: seq<HostEvent<I, V>>)
    requires !FailsCheck(novel(input, initialState), production)
    ensures var output := novel(input, initialState);
            var h := Run(Mount(input, initialState, novel, production), events);
            h.calls == 1 && h.exports == ExportsOf(output) && h.ledger.entries == Registered(output)
            && h.renderState == (if h.statePushes == [] then initialState else Last(h.statePushes))
            && (Unmount in events <==> h.phase == Unmounted)
            && (h.phase == Unmounted ==> h.ledger.released == Registered(output))
            && (h.phase == Bound ==> h.ledger.released == [])
  {
    var output := novel(input, initialState);
    var h := Mount(input, initialState, novel, production);
    MountBinds(input, initialState, novel, production);
    LifetimeRun(h, initialState, Registered(output), ExportsOf(output), events);
    UnmountedIffUnmount(h, events);
  }

  lemma {:induction false} UnmountedIffUnmount<I, V, E>(h: Hook<I, V, E>, events: seq<HostEvent<I, V>>)
    requires h.phase == Bound
    ensures Run(h, events).phase == Unmounted <==> Unmount in events
    ensures Run(h, events).phase == Bound <==> Unmount !in events
    decreases |events|
  {
    if events != [] {
      var h1 := Step(h, events[0]);
      assert events == [events[0]] + events[1..];
      if events[0] == Unmount {
        UnmountedStays(h1, events[1..]);
      } else {
        UnmountedIffUnmount(h1, events[1..]);
      }
    }
  }

  /** A hook that is not bound (its render threw, or it is unmounted) no longer changes. */
  lemma {:induction false} UnmountedStays<I, V, E>(h: Hook<I, V, E>, events: seq<HostEvent<I, V>>)
    requires !h.phase.Bound?
    ensures Run(h, events) == h
    decreases |events|
  {
    if events != [] {
      UnmountedStays(h, events[1..]);
    }
  }

  /** A render that fails the check leaves the state subscription (if any) and the derived
      subscription registered in a ledger that nothing will dispose, without the teardown, and
      with exports still `null`. */
  lemma FailedBindLeaks<I, V, E>(input: I, initialState: Fields<V>, novel: Novel<I, V, E>, production: bool,
                                 events: seq<HostEvent<I, V>>)
    requires FailsCheck(novel(input, initialState), production)
    ensures var p := novel(input, initialState).parts;
            var h := Run(Mount(input, initialState, novel, production), events);
            h.phase == Failed(SyncCheckMessage) && h.exports == Null
            && h.ledger == LedgerState((if p.nextState.Some? then [StateSubscription] else []) + [DerivedSubscription], false, [])
            && Live(h.ledger, DerivedSubscription)
  {
    var h := Mount(input, initialState, novel, production);
    UnmountedStays(h, events);
  }

  /** Past the first render, each render's effect pushes that render's input into `input$`;
      the first render's effect pushes nothing. */
  lemma InputMirror<I, V, E>(input: I, initialState: Fields<V>, novel: Novel<I, V, E>, production: bool, inputs: seq<I>)
    requires !FailsCheck(novel(input, initialState), production)
    ensures Run(Mount(input, initialState, novel, production), [AfterRender] + Cycles(inputs)).mirror.pushed == inputs
  {
    var h := Mount(input, initialState, novel, production);
    MountBinds(input, initialState, novel, production);
    var h1 := Step(h, AfterRender);
    assert h1.mirror == Mirror(false, []);
    assert ([AfterRender] + Cycles<I, V>(inputs))[1..] == Cycles(inputs);
    CyclesMirror(h1, inputs);
    MirrorPushesEach([], inputs);
    assert [] + inputs == inputs;
  }

  lemma {:induction false} CyclesMirror<I, V, E>(h: Hook<I, V, E>, inputs: seq<I>)
    requires h.phase == Bound
    ensures Run(h, Cycles(inputs)).mirror == MirrorEffects(h.mirror, inputs)
    decreases |inputs|
  {
    if inputs != [] {
      var h2 := Step(Step(h, Render(inputs[0])), AfterRender);
      assert Cycles<I, V>(inputs)[2..] == Cycles(inputs[1..]);
      assert Run(h, Cycles(inputs)) == Run(h2, Cycles(inputs[1..]));
      CyclesMirror(h2, inputs[1..]);
    }
  }

  function StateEmissions<I, V>(vs: seq<Fields<V>>): (r: seq<HostEvent<I, V>>)
    ensures |r| == |vs|
  {
    if vs == [] then [] else [NextStateEmits(vs[0])] + StateEmissions(vs[1..])
  }

  /** While the state subscription is live, every value of the state stream goes into `state$`
      and into render state, in order. */
  lemma {:induction false} StateRouting<I, V, E>(h: Hook<I, V, E>, vs: seq<Fields<V>>)
    requires h.phase == Bound && Live(h.ledger, StateSubscription)
    ensures var h' := Run(h, StateEmissions(vs));
            h'.statePushes == h.statePushes + vs
            && h'.renderState == (if vs == [] then h.renderState else Last(vs))
            && h'.ledger == h.ledger && h'.phase == Bound
    decreases |vs|
  {
    if vs == [] {
      assert h.statePushes + vs == h.statePushes;
    } else {
      var h1 := PushStates(h, [vs[0]]);
      assert Step(h, NextStateEmits(vs[0])) == h1;
      var events := StateEmissions<I, V>(vs);
      assert events[0] == NextStateEmits(vs[0]) && events[1..] == StateEmissions(vs[1..]);
      var h2 := Run(h1, events[1..]);
      assert Run(h, events) == h2;
      StateRouting(h1, vs[1..]);
      assert h2.statePushes == h.statePushes + vs by {
        assert h.statePushes + [vs[0]] + vs[1..] == h.statePushes + vs;
      }
      assert h2.renderState == Last(vs) by {
        if vs[1..] == [] {
          assert h1.renderState == vs[0] == Last(vs);
        } else {
          assert Last(vs[1..]) == Last(vs);
        }
      }
    }
  }

  /** Once the state subscription is not live, no value of the state stream has any effect. */
  lemma {:induction false} StateIgnoredWhenNotLive<I, V, E>(h: Hook<I, V, E>, vs: seq<Fields<V>>)
    requires !Live(h.ledger, StateSubscription)
    ensures Run(h, StateEmissions(vs)) == h
    decreases |vs|
  {
    if vs != [] {
      assert Step(h, NextStateEmits(vs[0])) == h;
      assert StateEmissions<I, V>(vs)[1..] == StateEmissions(vs[1..]);
      StateIgnoredWhenNotLive(h, vs[1..]);
    }
  }

  /** A derived value is seen by the next render, overlaid on render state, exactly while the
      derived subscription is live. */
  lemma DerivedRouting<I, V, E>(h: Hook<I, V, E>, d: Fields<V>)
    requires h.phase == Bound
    ensures View(Step(h, DerivedEmits(d))).0
            == if Live(h.ledger, DerivedSubscription) then Overlay(h.renderState, Some(d)) else View(h).0
  {
  }

  /** One instance of the hook, with the refs and the ledger as mutable fields. */
  class MemoNovelHook<I, V, E> {
    var input: I
    var mounted: bool
    var pushed: seq<I>
    var renderState: Fields<V>
    var statePushes: seq<Fields<V>>
    var derived: Option<Fields<V>>
    var exports: Ref<E>
    var phase: Phase
    var calls: nat
    const ledger: Ledger

    function Model(): Hook<I, V, E>
      reads this, ledger
    {
      Hook(input, Mirror(mounted, pushed), renderState, statePushes, derived, exports, ledger.State(), phase, calls)
    }

    /** The first render. */
    constructor (input: I, initialState: Fields<V>, novel: Novel<I, V, E>, production: bool)
      ensures Model() == Mount(input, initialState, novel, production)
    {
      this.input := input;
      mounted, pushed := true, [];
      renderState, statePushes := initialState, [];
      derived, exports := None, Null;
      phase, calls := Unbound, 0;
      ledger := new Ledger();
      new;
      BindOutput(novel(input, initialState), !production);
    }

    method BindOutput(output: Output<V, E>, checkSync: bool)
      modifies this, ledger
      ensures Model() == Bind(old(Model()), output, checkSync)
    {
      calls := calls + 1;
      match output {
        case NoOutput =>
          phase := Bound;
        case Bare(src) =>
          SubscribeToState(src);
          phase := Bound;
        case Structured(p) =>
          BindStructured(p, checkSync);
      }
    }

    method BindStructured(p: Parts<V, E>, checkSync: bool)
      modifies this, ledger
      ensures Model() == BindParts(old(Model()), p, checkSync)
    {
      if p.nextState.Some? {
        SubscribeToState(p.nextState.value);
      }
      if p.derived.Some? {
        var syncEmitted := SubscribeToDerived(p.derived.value, checkSync);
        if checkSync && !syncEmitted {
          phase := Failed(SyncCheckMessage);
          return;
        }
      }
      if p.teardown {
        ledger.Add(Teardown);
      }
      exports := PropertyRef(p.exports);
      phase := Bound;
    }

    /** `subscription.add(derived.subscribe(...))`; `syncEmitted` is the check's flag, which
        is only kept when the check is on (a non-production build). */
    method SubscribeToDerived(src: Source<Fields<V>>, checkSync: bool) returns (syncEmitted: bool)
      modifies this, ledger
      ensures syncEmitted == (checkSync && src.sync != [])
      ensures Model() == old(Model()).(derived := LastOr(old(derived), src.sync),
                                       ledger := Added(old(ledger.State()), DerivedSubscription))
    {
      syncEmitted := false;
      var k := 0;
      while k < |src.sync|
        invariant 0 <= k <= |src.sync|
        invariant Model() == old(Model()).(derived := LastOr(old(derived), src.sync[..k]))
        invariant syncEmitted == (checkSync && k > 0)
      {
        derived := Some(src.sync[k]);
        if checkSync {
          syncEmitted := true;
        }
        k := k + 1;
      }
      assert src.sync[..k] == src.sync;
      ledger.Add(DerivedSubscription);
    }

    method SubscribeToState(src: Source<Fields<V>>)
      modifies this, ledger
      ensures Model() == SubscribeState(old(Model()), src)
    {
      var k := 0;
      while k < |src.sync|
        invariant 0 <= k <= |src.sync|
        invariant Model() == PushStates(old(Model()), src.sync[..k])
      {
        ReceiveState(src.sync[k]);
        assert src.sync[..k + 1] == src.sync[..k] + [src.sync[k]];
        k := k + 1;
      }
      assert src.sync[..k] == src.sync;
      ledger.Add(StateSubscription);
    }

    /** `state$.next(v); setState(v)` */
    method ReceiveState(v: Fields<V>)
      modifies this
      ensures Model() == PushStates(old(Model()), [v])
    {
      statePushes := statePushes + [v];
      renderState := v;
    }

    /** A later render with `input`; returns what the render returns. */
    method Render(input: I) returns (view: Fields<V>, currentExports: Ref<E>)
      modifies this
      ensures Model() == Step(old(Model()), HostEvent.Render(input))
      ensures (view, currentExports) == View(Model())
    {
      if phase.Bound? {
        this.input := input;
      }
      view, currentExports := Overlay(renderState, derived), exports;
    }

    /** The render's effects: the input mirror. */
    method AfterRender()
      modifies this
      ensures Model() == Step(old(Model()), HostEvent.AfterRender)
    {
      if phase.Bound? {
        if mounted {
          mounted := false;
        } else {
          pushed := pushed + [input];
        }
      }
    }

    method StateEmits(v: Fields<V>)
      modifies this
      ensures Model() == Step(old(Model()), NextStateEmits(v))
    {
      if phase.Bound? && StateSubscription in ledger.entries && !ledger.disposed {
        ReceiveState(v);
      }
    }

    method DerivedEmits(d: Fields<V>)
      modifies this
      ensures Model() == Step(old(Model()), HostEvent.DerivedEmits(d))
    {
      if phase.Bound? && DerivedSubscription in ledger.entries && !ledger.disposed {
        derived := Some(d);
      }
    }

    /** The cleanup: `subscription.unsubscribe()`. */
    method Unmount()
      modifies this, ledger
      ensures Model() == Step(old(Model()), HostEvent.Unmount)
    {
      if phase.Bound? {
        ledger.Dispose();
        phase := Unmounted;
      }
    }
  }
}
