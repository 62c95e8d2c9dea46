/**
 * `useEffectNovel`: like `useMemoNovel`, but the novel runs in a post-render effect, after the
 * first render has already returned, and there is no check that `derived` emits
 * synchronously. The hook keeps the same refs and ledger, so its state is `MemoNovel.Hook`
 * and, once bound, it reacts to host events exactly as `useMemoNovel` does.
 */
module EffectNovel {
  import opened Wrappers
  import opened Subscriptions
  import opened Harness
  import MemoNovel

  type Hook<I, V, E> = MemoNovel.Hook<I, V, E>

  /** The first render: state and refs are created, nothing is bound yet. */
  function Mount<I, V, E>(input: I, initialState: Fields<V>): Hook<I, V, E>
  {
    MemoNovel.Fresh(input, initialState)
  }

  /** The effects run in declaration order: the input mirror, then (on the first run only) the
      binding effect, with the first render's input and initial state and no check. */
  function Step<I, V, E>(initialState: Fields<V>, novel: Novel<I, V, E>, h: Hook<I, V, E>,
                         event: HostEvent<I, V>): Hook<I, V, E>
  {
    match h.phase
    case Unbound =>
      (match event
       case AfterRender =>
         var h1 := h.(mirror := MirrorEffect(h.mirror, h.input));
         MemoNovel.Bind(h1, novel(h.input, initialState), false)
       case Unmount => h.(ledger := Disposed(h.ledger), phase := Unmounted)
       case _ => h)
    case _ => MemoNovel.Step(h, event)
  }

  function Run<I, V, E>(initialState: Fields<V>, novel: Novel<I, V, E>, h: Hook<I, V, E>,
                        events: seq<HostEvent<I, V>>): Hook<I, V, E>
    decreases |events|
  {
    if events == [] then h else Run(initialState, novel, Step(initialState, novel, h, events[0]), events[1..])
  }

  /** The first render returns the initial state with no derived fields, and `null` exports:
      the novel has not run yet. */
  lemma FirstRenderUnbound<I, V, E>(input: I, initialState: Fields<V>)
    ensures var h := Mount<I, V, E>(input, initialState);
            MemoNovel.View(h) == (initialState, Null) && h.calls == 0 && h.ledger == Open
  {
  }

  /** The first effects push no input and bind: the novel runs once on the first input, the
      ledger registers what it returned, and a `derived` that emits nothing is accepted. */
  lemma FirstEffectsBind<I, V, E>(input: I, initialState: Fields<V>, novel: Novel<I, V, E>)
    ensures var output := novel(input, initialState);
            var h := Step(initialState, novel, Mount<I, V, E>(input, initialState), AfterRender);
            h.calls == 1 && h.phase == Bound && h.mirror == Mirror(false, [])
            && h.ledger == LedgerState(MemoNovel.Registered(output), false, [])
            && h.exports == ExportsOf(output)
            && h.renderState == (if h.statePushes == [] then initialState else Last(h.statePushes))
            && (output.Structured? && output.parts.derived == Some(Source([])) ==> h.derived == None)
  {
    var h0 := Mount<I, V, E>(input, initialState);
    var h1 := h0.(mirror := Mirror(false, []));
    assert Step(initialState, novel, h0, AfterRender) == MemoNovel.Bind(h1, novel(input, initialState), false);
    MemoNovel.BindFromOpen(h1, novel(input, initialState), false);
  }

  /** After the first effects, the hook behaves like a bound `useMemoNovel`. */
  lemma {:induction false} RunAsMemo<I, V, E>(initialState: Fields<V>, novel: Novel<I, V, E>, h: Hook<I, V, E>,
                                              events: seq<HostEvent<I, V>>)
    requires !h.phase.Unbound?
    ensures Run(initialState, novel, h, events) == MemoNovel.Run(h, events)
    decreases |events|
  {
    if events != [] {
      var h1 := MemoNovel.Step(h, events[0]);
      if h.phase.Bound? {
        assert h1.phase.Bound? || h1.phase.Unmounted?;
      }
      RunAsMemo(initialState, novel, h1, events[1..]);
    }
  }

  /** Whatever the host does after the first effects: the novel never runs again, the ledger
      registers nothing more, exports keep their value, render state is the last value pushed
      into `state$`, a render never fails, and after unmount everything registered has been
      released once, in order. */
  lemma EffectLifetime<I, V, E>(input: I, initialState: Fields<V>, novel: Novel<I, V, E>, events: seq<HostEvent<I, V>>)
    ensures var output := novel(input, initialState);
            var h := Run(initialState, novel, Mount<I, V, E>(input, initialState), [AfterRender] + events);
            h.calls == 1 && h.exports == ExportsOf(output) && h.ledger.entries == MemoNovel.Registered(output)
            && h.renderState == (if h.statePushes == [] then initialState else Last(h.statePushes))
            && !h.phase.Failed?
            && (h.phase == Unmounted ==> h.ledger.released == MemoNovel.Registered(output))
  {
    var output := novel(input, initialState);
    var h := Step(initialState, novel, Mount<I, V, E>(input, initialState), AfterRender);
    FirstEffectsBind<I, V, E>(input, initialState, novel);
    assert ([AfterRender] + events)[1..] == events;
    RunAsMemo(initialState, novel, h, events);
    MemoNovel.LifetimeRun(h, initialState, MemoNovel.Registered(output), ExportsOf(output), events);
  }

  /** The first effect pushes nothing into `input$`; each later one pushes its render's input. */
  lemma InputMirror<I, V, E>(input: I, initialState: Fields<V>, novel: Novel<I, V, E>, inputs: seq<I>)
    ensures Run(initialState, novel, Mount<I, V, E>(input, initialState), [AfterRender] + Cycles(inputs)).mirror.pushed == inputs
  {
    var h := Step(initialState, novel, Mount<I, V, E>(input, initialState), AfterRender);
    FirstEffectsBind<I, V, E>(input, initialState, novel);
    assert ([AfterRender] + Cycles<I, V>(inputs))[1..] == Cycles(inputs);
    RunAsMemo(initialState, novel, h, Cycles(inputs));
    MemoNovel.CyclesMirror(h, inputs);
    MirrorPushesEach([], inputs);
    assert [] + inputs == inputs;
  }

  /** One instance of the hook. */
  class EffectNovelHook<I, V, E> {
    const initialState: Fields<V>
    const novel: Novel<I, V, E>
    var input: I
    var mounted: bool
    var pushed: seq<I>
    var renderState: Fields<V>
    var statePushes: seq<Fields<V>>
    var derived: Option<Fields<V>>
    var exports: Ref<E>
    var phase: Phase
    var calls: nat
    const ledger: Ledger

    function Model(): Hook<I, V, E>
      reads this, ledger
    {
      MemoNovel.Hook(input, Mirror(mounted, pushed), renderState, statePushes, derived, exports, ledger.State(), phase, calls)
    }

    /** The first render. */
    constructor (input: I, initialState: Fields<V>, novel: Novel<I, V, E>)
      ensures Model() == Mount(input, initialState)
      ensures this.initialState == initialState && this.novel == novel
    {
      this.input := input;
      this.initialState, this.novel := initialState, novel;
      mounted, pushed := true, [];
      renderState, statePushes := initialState, [];
      derived, exports := None, Null;
      phase, calls := Unbound, 0;
      ledger := new Ledger();
    }

    /** A later render with `input`; returns what the render returns. */
    method Render(input: I) returns (view: Fields<V>, currentExports: Ref<E>)
      modifies this
      ensures Model() == Step(initialState, novel, old(Model()), HostEvent.Render(input))
      ensures (view, currentExports) == MemoNovel.View(Model())
    {
      if phase.Bound? {
        this.input := input;
      }
      view, currentExports := Overlay(renderState, derived), exports;
    }

    /** The render's effects: the input mirror, then on the first run the binding effect. */
    method AfterRender()
      modifies this, ledger
      ensures Model() == Step(initialState, novel, old(Model()), HostEvent.AfterRender)
    {
      if phase.Bound? || phase.Unbound? {
        if mounted {
          mounted := false;
        } else {
          pushed := pushed + [input];
        }
      }
      if phase.Unbound? {
        BindOutput(novel(input, initialState));
      }
    }

    method BindOutput(output: Output<V, E>)
      modifies this, ledger
      ensures Model() == MemoNovel.Bind(old(Model()), output, false)
    {
      calls := calls + 1;
      match output {
        case NoOutput =>
          phase := Bound;
        case Bare(src) =>
          SubscribeToState(src);
          phase := Bound;
        case Structured(p) =>
          BindStructured(p);
      }
    }

    method BindStructured(p: Parts<V, E>)
      modifies this, ledger
      ensures Model() == MemoNovel.BindParts(old(Model()), p, false)
    {
      if p.nextState.Some? {
        SubscribeToState(p.nextState.value);
      }
      if p.derived.Some? {
        SubscribeToDerived(p.derived.value);
      }
      if p.teardown {
        ledger.Add(Teardown);
      }
      exports := PropertyRef(p.exports);
      phase := Bound;
    }

    method SubscribeToDerived(src: Source<Fields<V>>)
      modifies this, ledger
      ensures Model() == old(Model()).(derived := LastOr(old(derived), src.sync),
                                       ledger := Added(old(ledger.State()), DerivedSubscription))
    {
      var k := 0;
      while k < |src.sync|
        invariant 0 <= k <= |src.sync|
        invariant Model() == old(Model()).(derived := LastOr(old(derived), src.sync[..k]))
      {
        derived := Some(src.sync[k]);
        k := k + 1;
      }
      assert src.sync[..k] == src.sync;
      ledger.Add(DerivedSubscription);
    }

    method SubscribeToState(src: Source<Fields<V>>)
      modifies this, ledger
      ensures Model() == MemoNovel.SubscribeState(old(Model()), src)
    {
      var k := 0;
      while k < |src.sync|
        invariant 0 <= k <= |src.sync|
        invariant Model() == MemoNovel.PushStates(old(Model()), src.sync[..k])
      {
        ReceiveState(src.sync[k]);
        assert src.sync[..k + 1] == src.sync[..k] + [src.sync[k]];
        k := k + 1;
      }
      assert src.sync[..k] == src.sync;
      ledger.Add(StateSubscription);
    }

    /** `state$.next(v); setState(v)` */
    method ReceiveState(v: Fields<V>)
      modifies this
      ensures Model() == MemoNovel.PushStates(old(Model()), [v])
    {
      statePushes := statePushes + [v];
      renderState := v;
    }

    method StateEmits(v: Fields<V>)
      modifies this
      ensures Model() == Step(initialState, novel, old(Model()), NextStateEmits(v))
    {
      if phase.Bound? && StateSubscription in ledger.entries && !ledger.disposed {
        ReceiveState(v);
      }
    }

    method DerivedEmits(d: Fields<V>)
      modifies this
      ensures Model() == Step(initialState, novel, old(Model()), HostEvent.DerivedEmits(d))
    {
      if phase.Bound? && DerivedSubscription in ledger.entries && !ledger.disposed {
        derived := Some(d);
      }
    }

    /** The cleanup: `subscription.unsubscribe()`. */
    method Unmount()
      modifies this, ledger
      ensures Model() == Step(initialState, novel, old(Model()), HostEvent.Unmount)
    {
      if phase.Bound? || phase.Unbound? {
        ledger.Dispose();
        phase := Unmounted;
      }
    }
  }
}
