/**
 * `useNovel` of src/novel.ts: the novel runs once, synchronously, during the first render, on
 * two behaviour subjects, `input$` seeded with the first input and `state$` seeded with the
 * initial state. The subscriptions and `teardown` are kept in separate refs, and the unmount
 * cleanup completes `state$`, calls `teardown`, then unsubscribes `derived` and the state
 * stream, each step only if there is something to do.
 */
module NovelHook {
  import opened Wrappers
  import opened Harness
  import Equality
  import Operators

  /** A subscription ref: never set (`undefined`), or holding a subscription. */
  datatype Sub = Unset | Subscribed | Unsubscribed

  function Close(s: Sub): Sub
  {
    if s.Unset? then Unset else Unsubscribed
  }

  datatype Hook<I, V, E> = Hook(
    input: I,                     // the input of the latest render
    inputSeed: I,                 // the value `input$` was created with
    mirror: Mirror<I>,            // `mount.current`, and what went into `input$` after its seed
    renderState: Fields<V>,       // the `useState` value
    statePushes: seq<Fields<V>>,  // what `state$` has held, its seed first
    stateCompleted: bool,
    derived: Option<Fields<V>>,   // `derivedValueRef.current`
    exports: Ref<E>,              // `exportsRef.current`
    stateSub: Sub,                // `ref.current.stateSub`
    deriveSub: Sub,               // `ref.current.deriveSub`
    teardown: bool,               // whether `ref.current.teardown` holds a function
    cleanup: seq<Cleanup>,        // what the unmount cleanup did, in order
    phase: Phase,
    calls: nat)

  function PushStates<I, V, E>(h: Hook<I, V, E>, vs: seq<Fields<V>>): Hook<I, V, E>
  {
    h.(statePushes := h.statePushes + vs, renderState := if vs == [] then h.renderState else Last(vs))
  }

  /** `ref.current.stateSub = stream.subscribe(v => { state$.next(v); setState(v) })` */
  function SubscribeState<I, V, E>(h: Hook<I, V, E>, src: Source<Fields<V>>): Hook<I, V, E>
  {
    PushStates(h, src.sync).(stateSub := Subscribed)
  }

  function BindParts<I, V, E>(h: Hook<I, V, E>, p: Parts<V, E>, checkSync: bool): Hook<I, V, E>
  {
    BindDerived(BindNextState(h, p), p, checkSync)
  }

  /** `if (output.nextState) ref.current.stateSub = ...`, the ref left unset otherwise. */
  function BindNextState<I, V, E>(h: Hook<I, V, E>, p: Parts<V, E>): Hook<I, V, E>
  {
    if p.nextState.Some? then SubscribeState(h, p.nextState.value) else h.(stateSub := Unset)
  }

  /** `derived`, the synchronous-emission check, then the refs for `teardown` and exports. */
  function BindDerived<I, V, E>(h: Hook<I, V, E>, p: Parts<V, E>, checkSync: bool): Hook<I, V, E>
  {
    if p.derived.None? then FinishBind(h, p)
    else
      var src := p.derived.value;
      var h2 := h.(derived := LastOr(h.derived, src.sync), deriveSub := Subscribed);
      if checkSync && src.sync == [] then h2.(phase := Failed(SyncCheckMessage))
      else FinishBind(h2, p)
  }

  /** `ref.current.teardown = output.teardown; exportsRef.current = output.exports` */
  function FinishBind<I, V, E>(h: Hook<I, V, E>, p: Parts<V, E>): Hook<I, V, E>
  {
    h.(teardown := p.teardown, exports := PropertyRef(p.exports), phase := Bound)
  }

  /** Running the novel (counted in `calls`) on what it returned. */
  function Bind<I, V, E>(h: Hook<I, V, E>, output: Output<V, E>, checkSync: bool): Hook<I, V, E>
  {
    var h' := match output
      case NoOutput => h.(phase := Bound)
      case Bare(src) => SubscribeState(h, src).(phase := Bound)
      case Structured(p) => BindParts(h, p, checkSync);
    h'.(calls := h.calls + 1)
  }

  function Fresh<I, V, E>(input: I, initialState: Fields<V>): Hook<I, V, E>
  {
    Hook(input, input, Mirror(true, []), initialState, [initialState], false, None, Ref.Null,
         Unset, Unset, false, [], Unbound, 0)
  }

  function Mount<I, V, E>(input: I, initialState: Fields<V>, novel: Novel<I, V, E>, production: bool): Hook<I, V, E>
  {
    Bind(Fresh(input, initialState), novel(input, initialState), !production)
  }

  /** The cleanup's steps for the refs as they are. */
  function CleanupSteps<I, V, E>(h: Hook<I, V, E>): seq<Cleanup>
  {
    [CompleteState]
    + (if h.teardown then [CallTeardown] else [])
    + (if !h.deriveSub.Unset? then [UnsubscribeDerived] else [])
    + (if !h.stateSub.Unset? then [UnsubscribeState] else [])
  }

  function Step<I, V, E>(h: Hook<I, V, E>, event: HostEvent<I, V>): Hook<I, V, E>
  {
    if !h.phase.Bound? then h
    else match event
      case Render(input) => h.(input := input)
      case AfterRender => h.(mirror := MirrorEffect(h.mirror, h.input))
      case NextStateEmits(v) => if h.stateSub.Subscribed? then PushStates(h, [v]) else h
      case DerivedEmits(d) => if h.deriveSub.Subscribed? then h.(derived := Some(d)) else h
      case Unmount =>
        h.(stateCompleted := true, cleanup := h.cleanup + CleanupSteps(h),
           deriveSub := Close(h.deriveSub), stateSub := Close(h.stateSub), phase := Unmounted)
  }

  function Run<I, V, E>(h: Hook<I, V, E>, events: seq<HostEvent<I, V>>): Hook<I, V, E>
    decreases |events|
  {
    if events == [] then h else Run(Step(h, events[0]), events[1..])
  }

  function View<I, V, E>(h: Hook<I, V, E>): (Fields<V>, Ref<E>)
  {
    (Overlay(h.renderState, h.derived), h.exports)
  }

  /** Everything `input$` has held: its seed, then each push. */
  function InputValues<I, V, E>(h: Hook<I, V, E>): seq<I>
  {
    [h.inputSeed] + h.mirror.pushed
  }

  function HasStateStream<V, E>(output: Output<V, E>): bool
  {
    output.Bare? || (output.Structured? && output.parts.nextState.Some?)
  }

  function HasDerived<V, E>(output: Output<V, E>): bool
  {
    output.Structured? && output.parts.derived.Some?
  }

  function HasTeardown<V, E>(output: Output<V, E>): bool
  {
    output.Structured? && output.parts.teardown
  }

  /** The cleanup's steps for a hook bound to `output`. */
  function ExpectedCleanup<V, E>(output: Output<V, E>): seq<Cleanup>
  {
    [CompleteState]
    + (if HasTeardown(output) then [CallTeardown] else [])
    + (if HasDerived(output) then [UnsubscribeDerived] else [])
    + (if HasStateStream(output) then [UnsubscribeState] else [])
  }

  /** What holds of a bound hook for the rest of its life. */
  ghost predicate Lifetime<I, V, E>(h: Hook<I, V, E>, output: Output<V, E>)
  {
    h.calls == 1 && h.exports == ExportsOf(output) && h.teardown == HasTeardown(output)
    && h.statePushes != [] && h.renderState == Last(h.statePushes)
    && (h.phase == Bound || h.phase == Unmounted)
    && (h.phase == Bound ==>
          h.stateSub == (if HasStateStream(output) then Subscribed else Unset)
          && h.deriveSub == (if HasDerived(output) then Subscribed else Unset)
          && h.cleanup == [] && !h.stateCompleted)
    && (h.phase == Unmounted ==>
          h.stateSub == (if HasStateStream(output) then Unsubscribed else Unset)
          && h.deriveSub == (if HasDerived(output) then Unsubscribed else Unset)
          && h.cleanup == ExpectedCleanup(output) && h.stateCompleted)
  }

  lemma PushStatesLast<I, V, E>(h: Hook<I, V, E>, vs: seq<Fields<V>>)
    requires h.statePushes != [] && h.renderState == Last(h.statePushes)
    ensures var h' := PushStates(h, vs);
            h'.statePushes != [] && h'.renderState == Last(h'.statePushes)
  {
  }

  /** Binding: the novel has run once on the seeds; the render throws exactly when the check
      fails; otherwise the refs hold what the output provided. `state$` starts with the initial
      state and render state is always its latest value. */
  lemma MountBinds<I, V, E>(input: I, initialState: Fields<V>, novel: Novel<I, V, E>, production: bool)
    ensures var h := Mount(input, initialState, novel, production);
            var output := novel(input, initialState);
            h.calls == 1 && h.inputSeed == input && h.mirror == Mirror(true, []) && h.statePushes[0] == initialState
            && (h.phase == Failed(SyncCheckMessage) <==> FailsCheck(output, production))
            && (!FailsCheck(output, production) ==> Lifetime(h, output) && h.phase == Bound)
  {
    var h0 := Fresh<I, V, E>(input, initialState);
    assert h0.statePushes == [initialState];
    BindFromFresh(h0, novel(input, initialState), !production);
  }

  /** Binding into refs that hold nothing yet. */
  lemma BindFromFresh<I, V, E>(h0: Hook<I, V, E>, output: Output<V, E>, checkSync: bool)
    requires h0.statePushes != [] && h0.renderState == Last(h0.statePushes)
    requires h0.stateSub == Unset && h0.deriveSub == Unset && !h0.teardown && h0.exports == Null
    requires h0.cleanup == [] && !h0.stateCompleted && h0.calls == 0
    ensures var h := Bind(h0, output, checkSync);
            h.inputSeed == h0.inputSeed && h.mirror == h0.mirror && h.statePushes[0] == h0.statePushes[0]
            && (h.phase == Failed(SyncCheckMessage) <==> FailsCheck(output, !checkSync))
            && (!FailsCheck(output, !checkSync) ==> Lifetime(h, output) && h.phase == Bound)
  {
    match output
    case NoOutput =>
    case Bare(src) =>
      PushStatesLast(h0, src.sync);
    case Structured(p) =>
      BindPartsFromFresh(h0, p, checkSync);
  }

  lemma BindPartsFromFresh<I, V, E>(h0: Hook<I, V, E>, p: Parts<V, E>, checkSync: bool)
    requires h0.statePushes != [] && h0.renderState == Last(h0.statePushes)
    requires h0.stateSub == Unset && h0.deriveSub == Unset && !h0.teardown && h0.exports == Null
    requires h0.cleanup == [] && !h0.stateCompleted
    ensures var h := BindParts(h0, p, checkSync);
            var fails := checkSync && p.derived == Some(Source([]));
            h.inputSeed == h0.inputSeed && h.mirror == h0.mirror && h.statePushes[0] == h0.statePushes[0]
            && h.calls == h0.calls
            && (h.phase == Failed(SyncCheckMessage) <==> fails)
            && (!fails ==> h.phase == Bound && h.exports == PropertyRef(p.exports) && h.teardown == p.teardown
                           && h.statePushes != [] && h.renderState == Last(h.statePushes)
                           && h.stateSub == (if p.nextState.Some? then Subscribed else Unset)
                           && h.deriveSub == (if p.derived.Some? then Subscribed else Unset)
                           && h.cleanup == [] && !h.stateCompleted)
  {
    if p.nextState.Some? {
      PushStatesLast(h0, p.nextState.value.sync);
    }
  }

  lemma {:induction false} LifetimeRun<I, V, E>(h: Hook<I, V, E>, output: Output<V, E>, events: seq<HostEvent<I, V>>)
    requires Lifetime(h, output)
    ensures Lifetime(Run(h, events), output)
    decreases |events|
  {
    if events != [] {
      var h1 := Step(h, events[0]);
      if events[0].NextStateEmits? && h.phase.Bound? && h.stateSub.Subscribed? {
        PushStatesLast(h, [events[0].state]);
      }
      LifetimeRun(h1, output, events[1..]);
    }
  }

  lemma {:induction false} NotBoundStays<I, V, E>(h: Hook<I, V, E>, events: seq<HostEvent<I, V>>)
    requires !h.phase.Bound?
    ensures Run(h, events) == h
    decreases |events|
  {
    if events != [] {
      NotBoundStays(h, events[1..]);
    }
  }

  lemma {:induction false} UnmountedIffUnmount<I, V, E>(h: Hook<I, V, E>, events: seq<HostEvent<I, V>>)
    requires h.phase == Bound
    ensures Run(h, events).phase == Unmounted <==> Unmount in events
    decreases |events|
  {
    if events != [] {
      var h1 := Step(h, events[0]);
      assert events == [events[0]] + events[1..];
      if events[0] == Unmount {
        NotBoundStays(h1, events[1..]);
      } else {
        UnmountedIffUnmount(h1, events[1..]);
      }
    }
  }

  /** Whatever the host does after a successful bind: the novel never runs again, exports keep
      their value, render state is always the latest value of `state$`, and once unmounted the
      cleanup has completed `state$`, called `teardown`, unsubscribed `derived` and then the
      state stream, each exactly when the output provided it, and nothing else. */
  lemma NovelLifetime<I, V, E>(input: I, initialState: Fields<V>, novel: Novel<I, V, E>, production: bool,
                               events: seq<HostEvent<I, V>>)
    requires !FailsCheck(novel(input, initialState), production)
    ensures var output := novel(input, initialState);
            var h := Run(Mount(input, initialState, novel, production), events);
            h.calls == 1 && h.exports == ExportsOf(output)
            && h.statePushes != [] && h.renderState == Last(h.statePushes)
            && (Unmount in events <==> h.phase == Unmounted)
            && (h.phase == Unmounted ==> h.cleanup == ExpectedCleanup(output) && h.stateCompleted)
            && (h.phase == Bound ==> h.cleanup == [] && !h.stateCompleted)
  {
    var h := Mount(input, initialState, novel, production);
    MountBinds(input, initialState, novel, production);
    LifetimeRun(h, novel(input, initialState), events);
    UnmountedIffUnmount(h, events);
  }

  /** A first render that throws leaves the refs as they were when it threw: the state stream
      and `derived` stay subscribed, `teardown` and exports are never stored, and since the
      component never mounts, no cleanup runs. */
  lemma NovelFailedBindLeaks<I, V, E>(input: I, initialState: Fields<V>, novel: Novel<I, V, E>, production: bool,
                                      events: seq<HostEvent<I, V>>)
    requires FailsCheck(novel(input, initialState), production)
    ensures var p := novel(input, initialState).parts;
            var h := Run(Mount(input, initialState, novel, production), events);
            h.phase == Failed(SyncCheckMessage) && h.exports == Null && !h.teardown
            && h.deriveSub == Subscribed && h.stateSub == (if p.nextState.Some? then Subscribed else Unset)
            && h.cleanup == [] && !h.stateCompleted
  {
    NotBoundStays(Mount(input, initialState, novel, production), events);
  }

  /** `input$` holds the first input, then each later render's input, in order. */
  lemma InputMirror<I, V, E>(input: I, initialState: Fields<V>, novel: Novel<I, V, E>, production: bool, inputs: seq<I>)
    requires !FailsCheck(novel(input, initialState), production)
    ensures InputValues(Run(Mount(input, initialState, novel, production), [AfterRender] + Cycles(inputs)))
            == [input] + inputs
  {
    var h := Mount(input, initialState, novel, production);
    MountBinds(input, initialState, novel, production);
    assert h.phase == Bound && h.mirror == Mirror(true, []);
    var h1 := h.(mirror := Mirror(false, []));
    assert Step(h, AfterRender) == h1;
    var events := [AfterRender] + Cycles<I, V>(inputs);
    assert events[0] == AfterRender && events[1..] == Cycles(inputs);
    assert Run(h, events) == Run(h1, Cycles(inputs));
    CyclesMirror(h1, inputs);
    MirrorPushesEach([], inputs);
    assert [] + inputs == inputs;
  }

  lemma {:induction false} CyclesMirror<I, V, E>(h: Hook<I, V, E>, inputs: seq<I>)
    requires h.phase == Bound
    ensures Run(h, Cycles(inputs)).mirror == MirrorEffects(h.mirror, inputs)
    ensures Run(h, Cycles(inputs)).inputSeed == h.inputSeed
    decreases |inputs|
  {
    if inputs != [] {
      var h2 := Step(Step(h, Render(inputs[0])), AfterRender);
      assert Cycles<I, V>(inputs)[2..] == Cycles(inputs[1..]);
      assert Run(h, Cycles(inputs)) == Run(h2, Cycles(inputs[1..]));
      CyclesMirror(h2, inputs[1..]);
    }
  }

  /** A dispatch as the host sees it: the state stream emits the new state, then `derived`
      emits the record it makes from it. A `derived` built with `combineLatest` over `state$`
      and the action stream emits twice per dispatch (the new state with the previous action,
      then with this action); no render falls between the two, so only the second is kept. */
  function Dispatches<I, V>(states: seq<Fields<V>>, records: seq<Fields<V>>): seq<HostEvent<I, V>>
    requires |states| == |records|
  {
    if states == [] then []
    else [NextStateEmits(states[0]), DerivedEmits(records[0])] + Dispatches(states[1..], records[1..])
  }

  /** While both subscriptions are live, every dispatched state is pushed into `state$` and
      becomes render state, and each render shows the latest state overlaid by the latest
      derived record. */
  lemma {:induction false} DispatchRouting<I, V, E>(h: Hook<I, V, E>, states: seq<Fields<V>>, records: seq<Fields<V>>)
    requires h.phase == Bound && h.stateSub == Subscribed && h.deriveSub == Subscribed
    requires |states| == |records| && states != []
    ensures var h' := Run(h, Dispatches(states, records));
            h'.statePushes == h.statePushes + states
            && View(h') == (Overlay(Last(states), Some(Last(records))), h.exports)
            && h'.phase == Bound && h'.stateSub == Subscribed && h'.deriveSub == Subscribed
    decreases |states|
  {
    var h2 := PushStates(h, [states[0]]).(derived := Some(records[0]));
    var events := Dispatches<I, V>(states, records);
    assert events == [NextStateEmits(states[0]), DerivedEmits(records[0])] + Dispatches(states[1..], records[1..]);
    assert Run(h, events) == Run(h2, events[2..]);
    if |states| == 1 {
      assert events[2..] == [];
    } else {
      assert events[2..] == Dispatches(states[1..], records[1..]);
      DispatchRouting(h2, states[1..], records[1..]);
      assert h.statePushes + [states[0]] + states[1..] == h.statePushes + states;
    }
  }

  /** The counter novel's fields: `{ count }`, and `{ count, action }` as `derived` makes them. */
  function Count(n: int): Fields<Equality.Value>
  {
    map["count" := Equality.Num(n)]
  }

  function Counted(n: int, action: string): Fields<Equality.Value>
  {
    map["count" := Equality.Num(n), "action" := Equality.Str(action)]
  }

  const InitCount := Equality.Obj(0, [Equality.Prop("initCount", Equality.Num(0))])

  /** The counter novel at its first run: its state stream has nothing to emit yet, its
      `derived` starts with the action `init`, and its exports are the dispatch handle. */
  function CounterNovel(input: Equality.Value, state: Fields<Equality.Value>): Output<Equality.Value, nat>
  {
    var count := if "count" in state && state["count"].Num? then state["count"].n else 0;
    Structured(Parts(Some(Source([])), Some(Source([Counted(count, "init")])), Some(7), false))
  }

  /** The counter novel's first render: bound, showing `{ count: 0, action: 'init' }`, with the
      dispatch handle exported and both streams subscribed. */
  lemma CounterMount()
    ensures var h := Mount<Equality.Value, Equality.Value, nat>(InitCount, Count(0), CounterNovel, false);
            View(h) == (Counted(0, "init"), Holds(7)) && h.statePushes == [Count(0)]
            && h.phase == Bound && h.stateSub == Subscribed && h.deriveSub == Subscribed
  {
    var h := Mount<Equality.Value, Equality.Value, nat>(InitCount, Count(0), CounterNovel, false);
    assert CounterNovel(InitCount, Count(0))
        == Structured(Parts(Some(Source([])), Some(Source([Counted(0, "init")])), Some(7), false));
    assert h.renderState == Count(0) && h.derived == Some(Counted(0, "init"));
    assert Overlay(Count(0), Some(Counted(0, "init"))) == Counted(0, "init");
  }

  /** The counter case's reducer: dispatching inc, inc, dec, reset from a count of 0 makes
      it produce 1, 2, 1, 0. */
  lemma CounterDispatchStates()
    ensures Operators.Feedback(Operators.Counter(0), 0, ["inc", "inc", "dec", "reset"])
            == [Operators.Next(1), Operators.Next(2), Operators.Next(1), Operators.Next(0)]
  {
  }

  /** What the counter reducer's outputs put into `state$`: `{ count }` for each produced
      state, up to the first error. */
  function CounterStates(outs: seq<Operators.Notification<int, string>>): (r: seq<Fields<Equality.Value>>)
    ensures |r| <= |outs|
  {
    if outs == [] || outs[0].Failure? then [] else [Count(outs[0].value)] + CounterStates(outs[1..])
  }

  /** The `{ count, action }` record `derived` makes of each produced state and the action
      dispatched for it. */
  function CounterRecords(outs: seq<Operators.Notification<int, string>>, actions: seq<string>): (r: seq<Fields<Equality.Value>>)
    requires |outs| <= |actions|
    ensures |r| == |CounterStates(outs)|
  {
    if outs == [] || outs[0].Failure? then []
    else [Counted(outs[0].value, actions[0])] + CounterRecords(outs[1..], actions[1..])
  }

  /** The host events of dispatching `actions` to the counter novel: each state the counter
      reducer produces is emitted into `state$`, then `derived` emits its record. */
  function CounterDispatches(actions: seq<string>): seq<HostEvent<Equality.Value, Equality.Value>>
  {
    var outs := Operators.Feedback(Operators.Counter(0), 0, actions);
    Dispatches(CounterStates(outs), CounterRecords(outs, actions))
  }

  /** Dispatching inc, inc, dec, reset from a count of 0 emits the states 1, 2, 1, 0. */
  lemma CounterDispatched()
    ensures CounterDispatches(["inc", "inc", "dec", "reset"])
            == Dispatches([Count(1), Count(2), Count(1), Count(0)],
                          [Counted(1, "inc"), Counted(2, "inc"), Counted(1, "dec"), Counted(0, "reset")])
  {
    var actions := ["inc", "inc", "dec", "reset"];
    var outs := Operators.Feedback(Operators.Counter(0), 0, actions);
    CounterDispatchStates();
    assert outs[2..] == [Operators.Next(1), Operators.Next(0)];
    assert CounterStates(outs[2..]) == [Count(1), Count(0)];
    assert CounterRecords(outs[2..], actions[2..]) == [Counted(1, "dec"), Counted(0, "reset")];
    assert CounterStates(outs) == [Count(1), Count(2), Count(1), Count(0)];
  }

  /** The states 1, 2, 1, 0 and their records, dispatched to the mounted counter novel, go
      into `state$` in turn, and the last render shows `{ count: 0, action: 'reset' }`. */
  lemma CounterRouting()
    ensures var h := Run(Mount<Equality.Value, Equality.Value, nat>(InitCount, Count(0), CounterNovel, false),
                         Dispatches([Count(1), Count(2), Count(1), Count(0)],
                                    [Counted(1, "inc"), Counted(2, "inc"), Counted(1, "dec"), Counted(0, "reset")]));
            h.statePushes == [Count(0)] + [Count(1), Count(2), Count(1), Count(0)]
            && View(h) == (Counted(0, "reset"), Holds(7))
  {
    var h := Mount<Equality.Value, Equality.Value, nat>(InitCount, Count(0), CounterNovel, false);
    var states := [Count(1), Count(2), Count(1), Count(0)];
    var records := [Counted(1, "inc"), Counted(2, "inc"), Counted(1, "dec"), Counted(0, "reset")];
    CounterMount();
    DispatchRouting(h, states, records);
    assert Last(states) == Count(0) && Last(records) == Counted(0, "reset");
    assert Overlay(Count(0), Some(Counted(0, "reset"))) == Counted(0, "reset");
  }

  /** The counter case: dispatching inc, inc, dec, reset runs the counter reducer, whose states
      go into `state$` in turn as 1, 2, 1, 0, and the render after the reset shows
      `{ count: 0, action: 'reset' }`. */
  lemma CounterScenario()
    ensures var h := Run(Mount<Equality.Value, Equality.Value, nat>(InitCount, Count(0), CounterNovel, false),
                         CounterDispatches(["inc", "inc", "dec", "reset"]));
            h.statePushes == [Count(0)] + [Count(1), Count(2), Count(1), Count(0)]
            && View(h) == (Counted(0, "reset"), Holds(7))
  {
    CounterDispatched();
    CounterRouting();
  }

  /** One instance of the hook. */
  class NovelHook<I, V, E> {
    var input: I
    const inputSeed: I
    var mounted: bool
    var pushed: seq<I>
    var renderState: Fields<V>
    var statePushes: seq<Fields<V>>
    var stateCompleted: bool
    var derived: Option<Fields<V>>
    var exports: Ref<E>
    var stateSub: Sub
    var deriveSub: Sub
    var teardown: bool
    var cleanup: seq<Cleanup>
    var phase: Phase
    var calls: nat

    function Model(): Hook<I, V, E>
      reads this
    {
      Hook(input, inputSeed, Mirror(mounted, pushed), renderState, statePushes, stateCompleted, derived, exports,
           stateSub, deriveSub, teardown, cleanup, phase, calls)
    }

    /** The first render. */
    constructor (input: I, initialState: Fields<V>, novel: Novel<I, V, E>, production: bool)
      ensures Model() == Mount(input, initialState, novel, production)
    {
      this.input, inputSeed := input, input;
      mounted, pushed := true, [];
      renderState, statePushes, stateCompleted := initialState, [initialState], false;
      derived, exports := None, Ref.Null;
      stateSub, deriveSub, teardown, cleanup := Unset, Unset, false, [];
      phase, calls := Unbound, 0;
      new;
      BindOutput(novel(input, initialState), !production);
    }

    method BindOutput(output: Output<V, E>, checkSync: bool)
      modifies this
      ensures Model() == Bind(old(Model()), output, checkSync)
    {
      match output {
        case NoOutput =>
          phase := Bound;
        case Bare(src) =>
          SubscribeToState(src);
          phase := Bound;
        case Structured(p) =>
          BindStructured(p, checkSync);
      }
      calls := calls + 1;
    }

    method BindStructured(p: Parts<V, E>, checkSync: bool)
      modifies this
      ensures Model() == BindParts(old(Model()), p, checkSync)
    {
      if p.nextState.Some? {
        SubscribeToState(p.nextState.value);
      } else {
        stateSub := Unset;
      }
      BindDerivedParts(p, checkSync);
    }

    method BindDerivedParts(p: Parts<V, E>, checkSync: bool)
      modifies this
      ensures Model() == BindDerived(old(Model()), p, checkSync)
    {
      if p.derived.Some? {
        var syncEmitted := SubscribeToDerived(p.derived.value, checkSync);
        if checkSync && !syncEmitted {
          phase := Failed(SyncCheckMessage);
          return;
        }
      }
      teardown := p.teardown;
      exports := PropertyRef(p.exports);
      phase := Bound;
    }

    /** `ref.current.deriveSub = output.derived.subscribe(...)`; `syncEmitted` is the check's
        flag, which is only kept when the check is on (a non-production build). */
    method SubscribeToDerived(src: Source<Fields<V>>, checkSync: bool) returns (syncEmitted: bool)
      modifies this
      ensures syncEmitted == (checkSync && src.sync != [])
      ensures Model() == old(Model()).(derived := LastOr(old(derived), src.sync), deriveSub := Subscribed)
    {
      syncEmitted := false;
      var k := 0;
      while k < |src.sync|
        invariant 0 <= k <= |src.sync|
        invariant Model() == old(Model()).(derived := LastOr(old(derived), src.sync[..k]))
        invariant syncEmitted == (checkSync && k > 0)
      {
        derived := Some(src.sync[k]);
        if checkSync {
          syncEmitted := true;
        }
        k := k + 1;
      }
      assert src.sync[..k] == src.sync;
      deriveSub := Subscribed;
    }

    method SubscribeToState(src: Source<Fields<V>>)
      modifies this
      ensures Model() == SubscribeState(old(Model()), src)
    {
      var k := 0;
      while k < |src.sync|
        invariant 0 <= k <= |src.sync|
        invariant Model() == PushStates(old(Model()), src.sync[..k])
      {
        ReceiveState(src.sync[k]);
        assert src.sync[..k + 1] == src.sync[..k] + [src.sync[k]];
        k := k + 1;
      }
      assert src.sync[..k] == src.sync;
      stateSub := Subscribed;
    }

    /** `state$.next(v); setState(v)` */
    method ReceiveState(v: Fields<V>)
      modifies this
      ensures Model() == PushStates(old(Model()), [v])
    {
      statePushes := statePushes + [v];
      renderState := v;
    }

    method Render(input: I) returns (view: Fields<V>, currentExports: Ref<E>)
      modifies this
      ensures Model() == Step(old(Model()), HostEvent.Render(input))
      ensures (view, currentExports) == View(Model())
    {
      if phase.Bound? {
        this.input := input;
      }
      view, currentExports := Overlay(renderState, derived), exports;
    }

    /** The render's effects: `input$.next(input)` except after the first render. */
    method AfterRender()
      modifies this
      ensures Model() == Step(old(Model()), HostEvent.AfterRender)
    {
      if phase.Bound? {
        if mounted {
          mounted := false;
        } else {
          pushed := pushed + [input];
        }
      }
    }

    method StateEmits(v: Fields<V>)
      modifies this
      ensures Model() == Step(old(Model()), NextStateEmits(v))
    {
      if phase.Bound? && stateSub.Subscribed? {
        ReceiveState(v);
      }
    }

    method DerivedEmits(d: Fields<V>)
      modifies this
      ensures Model() == Step(old(Model()), HostEvent.DerivedEmits(d))
    {
      if phase.Bound? && deriveSub.Subscribed? {
        derived := Some(d);
      }
    }

    /** The cleanup, step by step. */
    method Unmount()
      modifies this
      ensures Model() == Step(old(Model()), HostEvent.Unmount)
    {
      if phase.Bound? {
        var steps := [CompleteState];
        if teardown {
          steps := steps + [CallTeardown];
        }
        if !deriveSub.Unset? {
          steps := steps + [UnsubscribeDerived];
        }
        if !stateSub.Unset? {
          steps := steps + [UnsubscribeState];
        }
        assert steps == CleanupSteps(Model());
        stateCompleted, cleanup := true, cleanup + steps;
        deriveSub, stateSub, phase := Close(deriveSub), Close(stateSub), Unmounted;
      }
    }
  }
}
