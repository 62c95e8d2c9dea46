/**
 * `useFiction` and `useMimicBehaviorSubject` of src/index.tsx, the older hooks. A fiction
 * only sees `state$`, always returns its parts (none of them required), and is never checked
 * for a synchronous `derived` value; its cleanup unsubscribes first and completes `state$`
 * and calls `teardown` last.
 */
module Fiction {
  import opened Wrappers
  import opened Harness
  import NovelHook

  type Sub = NovelHook.Sub

  /** `useState(initialState)`: a value, or a function React calls once for it. */
  datatype InitialState<!V> = Eager(state: Fields<V>) | Lazy(make: () -> Fields<V>)

  function Resolve<V>(init: InitialState<V>): Fields<V>
  {
    match init
    case Eager(s) => s
    case Lazy(make) => make()
  }

  type FictionFn<!V, E> = Fields<V> -> Parts<V, E>

  datatype Hook<V, E> = Hook(
    renderState: Fields<V>,
    statePushes: seq<Fields<V>>,   // what `state$` has held, its seed first
    stateCompleted: bool,
    derived: Option<Fields<V>>,    // `derivedValueRef.current`
    exports: Ref<E>,               // `exportsRef.current`
    derivationSub: Sub,            // `ref.current.derivationSubscription`
    nextStateSub: Sub,             // `ref.current.nextStateSubscription`
    teardown: bool,                // whether `ref.current.teardown` holds a function
    cleanup: seq<Cleanup>,
    phase: Phase,
    calls: nat)

  function PushStates<V, E>(h: Hook<V, E>, vs: seq<Fields<V>>): Hook<V, E>
  {
    h.(statePushes := h.statePushes + vs, renderState := if vs == [] then h.renderState else Last(vs))
  }

  /** The first render: `useState`, `state$` seeded with its value, then the fiction runs once
      and its exports, teardown, `derived` and `nextState` are taken in that order. */
  function Mount<V, E>(init: InitialState<V>, fiction: FictionFn<V, E>): Hook<V, E>
  {
    var s := Resolve(init);
    var p := fiction(s);
    var h0 := Hook(s, [s], false, None, PropertyRef(p.exports), NovelHook.Unset, NovelHook.Unset,
                   p.teardown, [], Unbound, 1);
    var h1 := if p.derived.Some? then h0.(derived := LastOr(h0.derived, p.derived.value.sync),
                                          derivationSub := NovelHook.Subscribed)
              else h0;
    var h2 := if p.nextState.Some? then PushStates(h1, p.nextState.value.sync).(nextStateSub := NovelHook.Subscribed)
              else h1;
    h2.(phase := Bound)
  }

  function CleanupSteps<V, E>(h: Hook<V, E>): seq<Cleanup>
  {
    (if !h.derivationSub.Unset? then [UnsubscribeDerived] else [])
    + (if !h.nextStateSub.Unset? then [UnsubscribeState] else [])
    + [CompleteState]
    + (if h.teardown then [CallTeardown] else [])
  }

  /** A fiction has no input: renders and their effects change nothing. */
  function Step<I, V, E>(h: Hook<V, E>, event: HostEvent<I, V>): Hook<V, E>
  {
    if !h.phase.Bound? then h
    else match event
      case Render(_) => h
      case AfterRender => h
      case NextStateEmits(v) => if h.nextStateSub.Subscribed? then PushStates(h, [v]) else h
      case DerivedEmits(d) => if h.derivationSub.Subscribed? then h.(derived := Some(d)) else h
      case Unmount =>
        h.(stateCompleted := true, cleanup := h.cleanup + CleanupSteps(h),
           derivationSub := NovelHook.Close(h.derivationSub), nextStateSub := NovelHook.Close(h.nextStateSub),
           phase := Unmounted)
  }

  function Run<I, V, E>(h: Hook<V, E>, events: seq<HostEvent<I, V>>): Hook<V, E>
    decreases |events|
  {
    if events == [] then h else Run(Step(h, events[0]), events[1..])
  }

  function View<V, E>(h: Hook<V, E>): (Fields<V>, Ref<E>)
  {
    (Overlay(h.renderState, h.derived), h.exports)
  }

  /** The cleanup's steps for a fiction that returned `p`. */
  function ExpectedCleanup<V, E>(p: Parts<V, E>): seq<Cleanup>
  {
    (if p.derived.Some? then [UnsubscribeDerived] else [])
    + (if p.nextState.Some? then [UnsubscribeState] else [])
    + [CompleteState]
    + (if p.teardown then [CallTeardown] else [])
  }

  ghost predicate Lifetime<V, E>(h: Hook<V, E>, p: Parts<V, E>)
  {
    h.calls == 1 && h.exports == PropertyRef(p.exports) && h.teardown == p.teardown
    && h.statePushes != [] && h.renderState == Last(h.statePushes)
    && (h.phase == Bound || h.phase == Unmounted)
    && (h.phase == Bound ==>
          h.nextStateSub == (if p.nextState.Some? then NovelHook.Subscribed else NovelHook.Unset)
          && h.derivationSub == (if p.derived.Some? then NovelHook.Subscribed else NovelHook.Unset)
          && h.cleanup == [] && !h.stateCompleted)
    && (h.phase == Unmounted ==>
          h.nextStateSub == (if p.nextState.Some? then NovelHook.Unsubscribed else NovelHook.Unset)
          && h.derivationSub == (if p.derived.Some? then NovelHook.Unsubscribed else NovelHook.Unset)
          && h.cleanup == ExpectedCleanup(p) && h.stateCompleted)
  }

  lemma PushStatesLast<V, E>(h: Hook<V, E>, vs: seq<Fields<V>>)
    requires h.statePushes != [] && h.renderState == Last(h.statePushes)
    ensures var h' := PushStates(h, vs);
            h'.statePushes != [] && h'.renderState == Last(h'.statePushes)
  {
  }

  /** The first render always binds: the fiction runs once, on the resolved initial state
      (a lazy one is called), `state$` starts with that state, and nothing is checked. */
  lemma MountBinds<V, E>(init: InitialState<V>, fiction: FictionFn<V, E>)
    ensures var h := Mount(init, fiction);
            h.phase == Bound && h.statePushes[0] == Resolve(init)
            && (init.Lazy? ==> h.statePushes[0] == init.make())
            && Lifetime(h, fiction(Resolve(init)))
  {
    var s := Resolve(init);
    var p := fiction(s);
    var h0 := Hook(s, [s], false, None, PropertyRef(p.exports), NovelHook.Unset, NovelHook.Unset,
                   p.teardown, [], Unbound, 1);
    if p.nextState.Some? {
      PushStatesLast(h0, p.nextState.value.sync);
    }
  }

  lemma {:induction false} LifetimeRun<I, V, E>(h: Hook<V, E>, p: Parts<V, E>, events: seq<HostEvent<I, V>>)
    requires Lifetime(h, p)
    ensures Lifetime(Run(h, events), p)
    decreases |events|
  {
    if events != [] {
      var h1 := Step(h, events[0]);
      if events[0].NextStateEmits? && h.phase.Bound? && h.nextStateSub.Subscribed? {
        PushStatesLast(h, [events[0].state]);
      }
      LifetimeRun(h1, p, events[1..]);
    }
  }

  lemma {:induction false} NotBoundStays<I, V, E>(h: Hook<V, E>, events: seq<HostEvent<I, V>>)
    requires !h.phase.Bound?
    ensures Run(h, events) == h
    decreases |events|
  {
    if events != [] {
      NotBoundStays(h, events[1..]);
    }
  }

  lemma {:induction false} UnmountedIffUnmount<I, V, E>(h: Hook<V, E>, events: seq<HostEvent<I, V>>)
    requires h.phase == Bound
    ensures Run(h, events).phase == Unmounted <==> Unmount in events
    decreases |events|
  {
    if events != [] {
      var h1 := Step(h, events[0]);
      assert events == [events[0]] + events[1..];
      if events[0] == Unmount {
        NotBoundStays(h1, events[1..]);
      } else {
        UnmountedIffUnmount(h1, events[1..]);
      }
    }
  }

  /** Whatever the host does: the fiction never runs again, exports keep their value, render
      state is the latest value of `state$`, and once unmounted the cleanup has unsubscribed
      `derived`, then `nextState`, then completed `state$` and called `teardown`, each exactly
      when the fiction provided it. */
  lemma FictionLifetime<I, V, E>(init: InitialState<V>, fiction: FictionFn<V, E>, events: seq<HostEvent<I, V>>)
    ensures var p := fiction(Resolve(init));
            var h := Run(Mount(init, fiction), events);
            h.calls == 1 && h.exports == PropertyRef(p.exports)
            && h.statePushes != [] && h.renderState == Last(h.statePushes)
            && (Unmount in events <==> h.phase == Unmounted)
            && (h.phase == Unmounted ==> h.cleanup == ExpectedCleanup(p) && h.stateCompleted)
            && (h.phase == Bound ==> h.cleanup == [] && !h.stateCompleted)
  {
    MountBinds(init, fiction);
    LifetimeRun(Mount(init, fiction), fiction(Resolve(init)), events);
    UnmountedIffUnmount(Mount(init, fiction), events);
  }

  /** The two cleanups do the same steps in different orders: `useFiction` unsubscribes before
      it completes `state$`, `useNovel` completes `state$` first and unsubscribes last. */
  lemma CleanupsAgreeUpToOrder<V, E>(p: Parts<V, E>)
    ensures multiset(ExpectedCleanup(p)) == multiset(NovelHook.ExpectedCleanup(Structured(p)))
    ensures ExpectedCleanup(p)[|ExpectedCleanup(p)| - 1] == (if p.teardown then CallTeardown else CompleteState)
    ensures NovelHook.ExpectedCleanup(Structured(p))[0] == CompleteState
  {
  }

  /** One instance of `useFiction`. */
  class FictionHook<V, E> {
    var renderState: Fields<V>
    var statePushes: seq<Fields<V>>
    var stateCompleted: bool
    var derived: Option<Fields<V>>
    var exports: Ref<E>
    var derivationSub: Sub
    var nextStateSub: Sub
    var teardown: bool
    var cleanup: seq<Cleanup>
    var phase: Phase
    var calls: nat

    function Model(): Hook<V, E>
      reads this
    {
      Hook(renderState, statePushes, stateCompleted, derived, exports, derivationSub, nextStateSub,
           teardown, cleanup, phase, calls)
    }

    constructor (init: InitialState<V>, fiction: FictionFn<V, E>)
      ensures Model() == Mount(init, fiction)
    {
      var s := Resolve(init);
      renderState, statePushes, stateCompleted := s, [s], false;
      derived := None;
      derivationSub, nextStateSub := NovelHook.Unset, NovelHook.Unset;
      cleanup, phase := [], Unbound;
      var p := fiction(s);
      calls := 1;
      exports := PropertyRef(p.exports);
      teardown := p.teardown;
      new;
      if p.derived.Some? {
        SubscribeToDerived(p.derived.value);
      }
      if p.nextState.Some? {
        SubscribeToNextState(p.nextState.value);
      }
      phase := Bound;
    }

    method SubscribeToDerived(src: Source<Fields<V>>)
      modifies this
      ensures Model() == old(Model()).(derived := LastOr(old(derived), src.sync), derivationSub := NovelHook.Subscribed)
    {
      var k := 0;
      while k < |src.sync|
        invariant 0 <= k <= |src.sync|
        invariant Model() == old(Model()).(derived := LastOr(old(derived), src.sync[..k]))
      {
        derived := Some(src.sync[k]);
        k := k + 1;
      }
      assert src.sync[..k] == src.sync;
      derivationSub := NovelHook.Subscribed;
    }

    method SubscribeToNextState(src: Source<Fields<V>>)
      modifies this
      ensures Model() == PushStates(old(Model()), src.sync).(nextStateSub := NovelHook.Subscribed)
    {
      var k := 0;
      while k < |src.sync|
        invariant 0 <= k <= |src.sync|
        invariant Model() == PushStates(old(Model()), src.sync[..k])
      {
        ReceiveState(src.sync[k]);
        assert src.sync[..k + 1] == src.sync[..k] + [src.sync[k]];
        k := k + 1;
      }
      assert src.sync[..k] == src.sync;
      nextStateSub := NovelHook.Subscribed;
    }

    /** `state$.next(value); setState(value)` */
    method ReceiveState(v: Fields<V>)
      modifies this
      ensures Model() == PushStates(old(Model()), [v])
    {
      statePushes := statePushes + [v];
      renderState := v;
    }

    /** A re-render: it only reads. */
    method Render() returns (view: Fields<V>, currentExports: Ref<E>)
      ensures (view, currentExports) == View(Model())
    {
      view, currentExports := Overlay(renderState, derived), exports;
    }

    method StateEmits(v: Fields<V>)
      modifies this
      ensures Model() == Step<(), V, E>(old(Model()), NextStateEmits(v))
    {
      if phase.Bound? && nextStateSub.Subscribed? {
        ReceiveState(v);
      }
    }

    method DerivedEmits(d: Fields<V>)
      modifies this
      ensures Model() == Step<(), V, E>(old(Model()), HostEvent.DerivedEmits(d))
    {
      if phase.Bound? && derivationSub.Subscribed? {
        derived := Some(d);
      }
    }

    method Unmount()
      modifies this
      ensures Model() == Step<(), V, E>(old(Model()), HostEvent.Unmount)
    {
      if phase.Bound? {
        var steps := [];
        if !derivationSub.Unset? {
          steps := steps + [UnsubscribeDerived];
        }
        if !nextStateSub.Unset? {
          steps := steps + [UnsubscribeState];
        }
        steps := steps + [CompleteState];
        if teardown {
          steps := steps + [CallTeardown];
        }
        assert steps == CleanupSteps(Model());
        derivationSub, nextStateSub := NovelHook.Close(derivationSub), NovelHook.Close(nextStateSub);
        stateCompleted, cleanup, phase := true, cleanup + steps, Unmounted;
      }
    }
  }

  // ---------------------------------------------------------------------------
  // useMimicBehaviorSubject

  /** A behaviour subject that follows a value from render to render. */
  class MimicSubject<S> {
    var value: S            // the latest render's value
    const seed: S           // the subject's initial value
    var mounted: bool       // `mount.current`
    var pushed: seq<S>      // what the effect has passed to `next`

    /** Everything the subject has held, in order. */
    function Values(): seq<S>
      reads this
    {
      [seed] + pushed
    }

    constructor (value: S)
      ensures this.value == value && seed == value && pushed == [] && mounted
    {
      this.value, seed := value, value;
      mounted, pushed := true, [];
    }

    method Render(value: S)
      modifies this
      ensures this.value == value && mounted == old(mounted) && pushed == old(pushed)
    {
      this.value := value;
    }

    /** The effect after each render: skipped once, then `subject$.next(value)`. */
    method AfterRender()
      modifies this
      ensures Mirror(mounted, pushed) == MirrorEffect(old(Mirror(mounted, pushed)), value)
      ensures value == old(value)
    {
      if mounted {
        mounted := false;
      } else {
        pushed := pushed + [value];
      }
    }
  }

  /** A component rendered with `first` and then with each of `inputs`: the subject holds the
      first value, then each later one in order, and never a value twice for one render. */
  method MimicRenders<S>(first: S, inputs: seq<S>) returns (values: seq<S>)
    ensures values == [first] + inputs
  {
    var subject := new MimicSubject(first);
    subject.AfterRender();
    var i := 0;
    while i < |inputs|
      invariant 0 <= i <= |inputs|
      invariant !subject.mounted && subject.seed == first && subject.pushed == inputs[..i]
    {
      ghost var before := subject.pushed;
      subject.Render(inputs[i]);
      subject.AfterRender();
      assert subject.pushed == before + [inputs[i]];
      assert inputs[..i + 1] == inputs[..i] + [inputs[i]];
      i := i + 1;
    }
    assert inputs[..i] == inputs;
    values := subject.Values();
  }

  /** The same, through the effect alone: the first effect skips, each later one pushes. */
  lemma MimicEffects<S>(first: S, inputs: seq<S>)
    ensures MirrorEffects(Mirror(true, []), [first] + inputs) == Mirror(false, inputs)
  {
    MirrorSkipsFirst([first] + inputs);
    assert ([first] + inputs)[1..] == inputs;
  }
}
