/**
 * What the binding hooks (`useMemoNovel`, `useNovel`, `useEffectNovel`, `useFiction`) have in
 * common: the shape of a novel's output, the React refs they keep, the input-mirroring effect,
 * and the merged value a render returns. React itself is replaced by explicit host events.
 */
module Harness {
  import opened Wrappers

  /** A plain object as a map from property name to value; state and derived values are these. */
  type Fields<V> = map<string, V>

  /** `{ ...state, ...derived }`: every key of either; derived values win on a clash; spreading
      `null` (no derived value yet) adds nothing. */
  function Overlay<V>(state: Fields<V>, derived: Option<Fields<V>>): (r: Fields<V>)
    ensures derived.None? ==> r == state
    ensures derived.Some? ==> r.Keys == state.Keys + derived.value.Keys
    ensures derived.Some? ==> forall k :: k in derived.value ==> r[k] == derived.value[k]
    ensures forall k :: k in state && (derived.None? || k !in derived.value) ==> r[k] == state[k]
  {
    if derived.None? then state else state + derived.value
  }

  /** A stream as a hook meets it when subscribing: the values it emits synchronously inside
      `subscribe`. Its later values arrive as host events. */
  datatype Source<T> = Source(sync: seq<T>)

  /** `{ nextState?, derived?, exports?, teardown? }` */
  datatype Parts<V, E> = Parts(nextState: Option<Source<Fields<V>>>, derived: Option<Source<Fields<V>>>,
                               exports: Option<E>, teardown: bool)

  /** What a novel returns: nothing (`null`/`undefined`), a bare state stream, or the parts. */
  datatype Output<V, E> = NoOutput | Bare(stream: Source<Fields<V>>) | Structured(parts: Parts<V, E>)

  /** A novel: given the seeds of its input and state cursors, what it returns. The cursors
      themselves are opaque; their later values are the hook's own pushes. */
  type Novel<!I, !V, E> = (I, Fields<V>) -> Output<V, E>

  /** A React ref: starts `null`, may be set to a value or to `undefined`. */
  datatype Ref<E> = Null | Undefined | Holds(value: E)

  /** Reading an optional property: absent is `undefined`. */
  function PropertyRef<E>(o: Option<E>): (r: Ref<E>)
    ensures r != Null
    ensures o.Some? <==> r.Holds?
  {
    if o.Some? then Holds(o.value) else Undefined
  }

  /** Where a hook instance is in its life. `Failed` is a render that threw during binding;
      React mounts nothing for it, so no effect of it ever runs. */
  datatype Phase = Unbound | Bound | Failed(message: string) | Unmounted

  const SyncCheckMessage := "derived$ must synchronously emit a value."

  /** What the host does to a mounted component. */
  datatype HostEvent<I, V> =
    | Render(input: I)                  // a re-render with this input
    | AfterRender                       // the render's effects run
    | NextStateEmits(state: Fields<V>)  // the state stream (`nextState` or a bare output) emits
    | DerivedEmits(derived: Fields<V>)  // `derived` emits
    | Unmount                           // the effects' cleanups run

  /** Renders with the given inputs, each followed by its effects. */
  function Cycles<I, V>(inputs: seq<I>): (r: seq<HostEvent<I, V>>)
    ensures |r| == 2 * |inputs|
    ensures forall k :: 0 <= k < |inputs| ==> r[2 * k] == Render(inputs[k]) && r[2 * k + 1] == AfterRender
  {
    if inputs == [] then [] else [Render(inputs[0]), AfterRender] + Cycles(inputs[1..])
  }

  /** The effect that mirrors each rendered input into a stream; `mounted` is `mount.current`,
      `pushed` what it has pushed. */
  datatype Mirror<I> = Mirror(mounted: bool, pushed: seq<I>)

  function MirrorEffect<I>(m: Mirror<I>, input: I): Mirror<I>
  {
    if m.mounted then Mirror(false, m.pushed) else Mirror(false, m.pushed + [input])
  }

  function MirrorEffects<I>(m: Mirror<I>, inputs: seq<I>): Mirror<I>
    decreases |inputs|
  {
    if inputs == [] then m else MirrorEffects(MirrorEffect(m, inputs[0]), inputs[1..])
  }

  /** Once past the first render, every effect pushes its render's input. */
  lemma {:induction false} MirrorPushesEach<I>(pushed: seq<I>, inputs: seq<I>)
    ensures MirrorEffects(Mirror(false, pushed), inputs) == Mirror(false, pushed + inputs)
    decreases |inputs|
  {
    if inputs == [] {
      assert pushed + inputs == pushed;
    } else {
      MirrorPushesEach(pushed + [inputs[0]], inputs[1..]);
      assert pushed + [inputs[0]] + inputs[1..] == pushed + inputs;
    }
  }

  /** The first effect pushes nothing; each later one pushes its render's input. */
  lemma MirrorSkipsFirst<I>(inputs: seq<I>)
    requires inputs != []
    ensures MirrorEffects(Mirror(true, []), inputs) == Mirror(false, inputs[1..])
  {
    MirrorPushesEach([], inputs[1..]);
    assert [] + inputs[1..] == inputs[1..];
  }

  function Last<T>(s: seq<T>): T
    requires s != []
  {
    s[|s| - 1]
  }

  /** The value a ref holds after each of `values` is written into it in turn. */
  function LastOr<T>(current: Option<T>, values: seq<T>): (r: Option<T>)
    ensures values == [] ==> r == current
    ensures values != [] ==> r == Some(Last(values))
  {
    if values == [] then current else Some(values[|values| - 1])
  }

  function ExportsOf<V, E>(output: Output<V, E>): Ref<E>
  {
    if output.Structured? then PropertyRef(output.parts.exports) else Null
  }

  /** A first render throws exactly when, outside production, `derived` is present and emits
      nothing synchronously. */
  predicate FailsCheck<V, E>(output: Output<V, E>, production: bool)
  {
    !production && output.Structured? && output.parts.derived == Some(Source([]))
  }

  // Re-entrant state emissions. Every hook handles a value `v` of its state stream as
  // `state$.next(v); setState(v)`. A state stream that itself listens to `state$` can emit
  // again from inside that `next`: `chain[k + 1]` is the value emitted from inside
  // `state$.next(chain[k])`. The hooks' own steps take one emission at a time, where the two
  // orders below coincide.

  /** The values `state$` receives, and the `setState` calls in the order they run, for a
      re-entrant chain handled as the hooks write it: `next` first, `setState` after the nested
      emissions have returned. */
  function NestedAsWritten<V>(chain: seq<V>): (seq<V>, seq<V>)
  {
    if chain == [] then ([], [])
    else
      var inner := NestedAsWritten(chain[1..]);
      ([chain[0]] + inner.0, inner.1 + [chain[0]])
  }

  /** The same chain handled with `setState(v)` before `state$.next(v)`. */
  function NestedSetFirst<V>(chain: seq<V>): (seq<V>, seq<V>)
  {
    if chain == [] then ([], [])
    else
      var inner := NestedSetFirst(chain[1..]);
      ([chain[0]] + inner.0, [chain[0]] + inner.1)
  }

  /** In both orders `state$` receives the chain in order, and one `setState` runs per value. */
  lemma {:induction false} NestedPushesInOrder<V>(chain: seq<V>)
    ensures NestedAsWritten(chain).0 == chain && |NestedAsWritten(chain).1| == |chain|
    ensures NestedSetFirst(chain) == (chain, chain)
  {
    if chain != [] {
      NestedPushesInOrder(chain[1..]);
      assert [chain[0]] + chain[1..] == chain;
    }
  }

  /** As written, the last `setState` is the outermost value while `state$` ends on the
      innermost one: with two different values in the chain, render state is left on an older
      value than `state$` holds. */
  lemma {:induction false} NestedAsWrittenEndsOnOuter<V>(chain: seq<V>)
    requires chain != []
    ensures var r := NestedAsWritten(chain);
            r.0 == chain && r.1 != [] && Last(r.1) == chain[0] && Last(r.0) == Last(chain)
  {
    NestedPushesInOrder(chain);
    var inner := NestedAsWritten(chain[1..]);
    assert NestedAsWritten(chain).1 == inner.1 + [chain[0]];
  }

  /** The concrete case: a state stream that emits 10 from inside `state$.next(11)` leaves
      `state$` at 10 and render state at 11. */
  lemma NestedStaleRender()
    ensures var r := NestedAsWritten([11, 10]);
            Last(r.0) == 10 && Last(r.1) == 11
  {
    NestedAsWrittenEndsOnOuter([11, 10]);
  }

  /** With `setState` first, the last `setState` is the value `state$` ends on, for every
      chain: render state stays the latest value of `state$`. */
  lemma NestedSetFirstAgrees<V>(chain: seq<V>)
    requires chain != []
    ensures var r := NestedSetFirst(chain);
            r.0 == chain && r.1 != [] && Last(r.1) == Last(r.0)
  {
    NestedPushesInOrder(chain);
  }

  /** What an unmount cleanup does, step by step. */
  datatype Cleanup = CompleteState | CallTeardown | UnsubscribeDerived | UnsubscribeState
}
