# rx-hooks in Dafny

A model of the core of `rx-hooks`, a small TypeScript library that binds RxJS streams to
React component state. It covers:

- **Equality helpers**: `shallowEqual` and `deepEqual` of `src/equal-fns.ts`, and the older
  `isEqual` / `deepEqual` still present in `src/index.tsx` (module `LegacyEquality`).
  JavaScript values are a datatype. Arrays, objects, functions and symbols carry a heap
  reference, so `===` is Dafny's `==` on that datatype.
- **Stream operators**: `ofType`, `applyMutatorAsReducer`, `combineLatestFromObject` and
  `distinctMap` (module `Operators`). Each operator is a function from a finite trace of the
  notifications it receives to the notifications it emits. Each is checked against an
  independent reference definition.
- **Subscriptions**: an RxJS `Subscription` as a ledger of the resources added to it (module
  `Subscriptions`). Disposing releases them in the order they were added, and it is
  idempotent. A resource added after disposal is released at once.
- **`SubjectProxy`** of `src/helpers.ts` (and its copy in `src/index.tsx`): a class whose
  `imitate` and `loop` record their subscriptions in that ledger (module `Proxy`). Delivery
  is synchronous and depth-first, and a loop that feeds back forever runs out of stack.
- **The hooks**:
  - `useMemoNovel` (`MemoNovel`);
  - `useEffectNovel` (`EffectNovel`);
  - `useNovel` of `src/novel.ts` (`NovelHook`);
  - `useFiction` and `useMimicBehaviorSubject` of `src/index.tsx` (`Fiction`).

  The host (React) is a sequence of events: a render with a new input, the effects after a
  render, an emission of the state stream, an emission of `derived`, and unmount. Each hook
  has a pure state `Hook` with `Step` / `Run` functions, and the lemmas are stated over these.
  A class with the same fields implements each operation step by step. Its methods are proved
  to move the class's `Model()` exactly as `Step` does.

A novel is called once, at bind time. The model takes it as a function from the first input
and the initial state to its output. A stream in that output is seen as the values it emits
synchronously when subscribed. Later values arrive as host events. Shared shapes (outputs,
host events, the input mirror, the `{...state, ...derived}` overlay) live in module
`Harness`.

Where the library's documentation and its code disagree, the model follows the code:

- `applyMutatorAsReducer` is built on `withLatestFrom`. It therefore **drops** actions that
  arrive before `state$` has emitted; it does not hold them back until a state arrives
  (`Operators.ReducerDropsEarlyActions`).
- `useEffectNovel` binds in its first effect. A render the host performs before that effect
  runs sees the initial state and `null` exports (`EffectNovel.FirstRenderUnbound`).
- The comment at src/effect-novel.ts:31 says the initial values of `derived` and `nextState`
  are discarded. The code keeps them: the values they emit on subscription go into
  `setState` and the derived ref (`EffectNovel.FirstEffectsBind`).

The lemmas `PushStatesLast`, `NotBoundStays`/`UnmountedStays` and `UnmountedIffUnmount`
appear once per hook module with the same wording, because each is stated over that module's
own `Hook` record and `Step` function.

## Model

| member | source | states |
|---|---|---|
| Equality.PrimitivesCompareByIdentity | src/equal-fns.ts:3-18 | when either side is a number, string, bigint, boolean, function or symbol, the two are equal exactly when they are `===`, shallow or deep |
| Equality.NullishCompareLoosely | src/equal-fns.ts:20-23 | when either side is `null` or `undefined`, they are equal exactly when both are nullish (`null` equals `undefined`) |
| Equality.ArraysEqualIff | src/equal-fns.ts:26-42 | an array equals `b` exactly when `b` is an array of the same length whose elements match pairwise (`===` when shallow, recursively when deep) |
| Equality.ElementsEqualFromIff | src/equal-fns.ts:33-41 | the element loop from index i succeeds exactly when every later pair matches |
| Equality.ObjectsEqualIff | src/equal-fns.ts:44-58 | a plain object equals `b` exactly when both have as many own keys and each of its keys reads a matching value in `b` |
| Equality.PropsEqualFromIff | src/equal-fns.ts:50-57 | the key loop from position i succeeds exactly when every later key reads a matching value in `b` |
| Equality.ExtraFieldNeverEqual | src/equal-fns.ts:45-49 | objects with different numbers of keys are unequal, in both argument orders |
| Equality.MissingKeyReadsUndefined | src/equal-fns.ts:50-57 | a key missing from `b` reads `undefined`, so `{a: undefined}` equals `{b: undefined}` |
| Equality.ArrayCheckIsOneSided | src/equal-fns.ts:26-29 | an array never equals an object, but an array-like object can equal an array when the object comes first |
| Equality.LookupOwnKey | src/equal-fns.ts:51 | reading an own key of an object with distinct keys gives that property's value |
| Equality.ShallowEqualCopiedObject | src/equal-fns.ts:61-63 | a copy of an object (new reference, same properties) is shallow-equal to it |
| Equality.ShallowEqualCopiedArray | src/equal-fns.ts:61-63 | an array is shallow-equal to its `slice()` |
| Equality.DeepEqualReflexive | src/equal-fns.ts:65-67 | every well-formed value is deep-equal to itself |
| Equality.ShallowImpliesDeep | src/equal-fns.ts:61-67 | shallow equality implies deep equality |
| Equality.DeepEqualIgnoresKeyOrder | src/equal-fns.ts:44-58 | objects with the same properties in another order are deep-equal |
| Equality.ReorderedNestedObjects | src/__tests__/equal-fns.test.ts:46-51 | the nested objects of the test are deep-equal but not shallow-equal |
| Equality.IndexKeys | src/equal-fns.ts:45 | `Object.keys` of an array has one key per element |
| Equality.IndexOf | src/equal-fns.ts:51 | the index a key names is within range and is named by that key |
| Equality.PropKeys | src/equal-fns.ts:45 | `Object.keys` of an object lists its property keys in order |
| LegacyEquality.LegacyShallowAlwaysAnswers | src/index.tsx:166-202 | the old shallow `isEqual` always terminates |
| LegacyEquality.LegacyElementsShallowAnswer | src/index.tsx:182-190 | its shallow element loop always terminates |
| LegacyEquality.LegacyKeysShallowAnswer | src/index.tsx:193-201 | its shallow key loop always terminates |
| LegacyEquality.LegacyIdentityAndNullish | src/index.tsx:167-173 | `===` values are equal; otherwise a nullish side makes them unequal, so `null` and `undefined` differ, unlike the current helper |
| LegacyEquality.LegacyKeysAllMatch | src/index.tsx:193-201 | the key loop answers true when every key reads the same value on both sides |
| LegacyEquality.LegacyIgnoresExtraKeys | src/index.tsx:193-202 | the old `isEqual` only walks the first object's keys: a `b` with extra keys is still equal, where the current helper says unequal |
| LegacyEquality.LegacyKeylessValuesAlwaysEqual | src/index.tsx:166-202 | a number, boolean, bigint, function or symbol has no own keys, so it equals any non-nullish value (`isEqual(1, 2)` is true) |
| LegacyEquality.LegacyStringPrefixEqual | src/index.tsx:193-202 | a string equals any longer string it is a prefix of (`isEqual('a', 'ab')` is true) |
| LegacyEquality.LegacyDeepEqualDivergesOnStrings | src/index.tsx:193-208 | `deepEqual` of two different one-character strings never returns, since each character is again a one-key string, while the shallow check answers false |
| LegacyEquality.IndexOfIsLeast | src/index.tsx:194 | reading an index key finds its first index |
| LegacyEquality.IndexOfWiderRange | src/index.tsx:194 | a key found in a shorter string is found at the same index in a longer one |
| LegacyEquality.IndexKeysAt | src/index.tsx:193 | the j-th key of a string or array is its index j |
| Operators.OfType | src/operators.ts:17-25 | the output is no longer than the input and only carries actions whose `type` is one of the given tags |
| Operators.OfTypeKeepsExactlyMatching | src/operators.ts:23-24 | each action is kept exactly as often as it occurs when its tag is listed, and never otherwise |
| Operators.OfTypeKeepsOrder | src/operators.ts:24 | filtering a concatenation is the concatenation of the filtered parts, so the order is kept |
| Operators.Tags | src/__tests__/operators.test.ts:15 | `map(ac => ac.type)` gives one tag per action, in order |
| Operators.OfTypeMarbles | src/__tests__/operators.test.ts:11-29 | the two marble tests: `a` keeps `aa`; `a, b` keeps `aba` |
| Operators.LatestAll | src/operators.ts:46 | the latest-value vector has one slot per source |
| Operators.LatestAllSnoc | src/operators.ts:46 | one more emission updates exactly its source's slot |
| Operators.CombineFromTracksSpec | src/operators.ts:41-49 | the incremental operator agrees with the reference (one record per emission once every source has emitted) on every suffix |
| Operators.CombineMatchesSpec | src/operators.ts:41-49 | `combineLatestFromObject` equals the reference definition on every trace |
| Operators.CombineSilentUntilAllSeen | src/operators.ts:46 | nothing is emitted until every source has emitted once |
| Operators.SpecSilentUntilAllSeen | src/operators.ts:46 | the reference also emits nothing until every source has emitted |
| Operators.CombineOneRecordPerEmission | src/operators.ts:46-47 | once every source has emitted, each emission adds exactly one record: the previous record with that source's key set to the new value |
| Operators.CombineFromEmits | src/operators.ts:46-47 | an emission that leaves every slot filled emits exactly the record of the updated slots, then the operator goes on from them |
| Operators.CombineRecordsCarryKeys | src/operators.ts:44-47 | every record has one entry per key, in key order, and each value was emitted by that key's stream |
| Operators.LatestOfWasEmitted | src/operators.ts:46 | a source's latest value was emitted by it |
| Operators.SpecRecordsCarryKeys | src/operators.ts:44-47 | the reference's records carry the keys and emitted values |
| Operators.CombineMarbles | src/__tests__/operators.test.ts:36-55 | the `foo`/`bar` marble test produces its six records |
| Operators.Reduce | src/operators.ts:27-39 | at most one output per input, and only the last output can be the mutator's error |
| Operators.LatestStateShift | src/operators.ts:32 | `withLatestFrom` holds the last state seen, or nothing before the first |
| Operators.ReduceSnoc | src/operators.ts:27-39 | one more input adds exactly the reaction to it: nothing for a state; for an action, the produced state, nothing when no state has arrived yet, and the mutator's error as the last output; nothing after an error |
| Operators.ReducerStep | src/operators.ts:27-39 | the same, for the operator as subscribed (no state held at first) |
| Operators.ReducerDropsEarlyActions | src/operators.ts:32 | actions before the first state are dropped, not held back |
| Operators.FeedbackLoopConsistent | src/__tests__/operators.test.ts:63-89 | with the output fed back into `state$`, the operator emits exactly the states of the loop |
| Operators.Scan | src/__tests__/operators.test.ts:83 | the running fold has one state per action |
| Operators.FeedbackIsRunningFold | src/operators.ts:27-39 | a mutator that never throws makes the fed-back `state$` the running fold of its step |
| Operators.ScanPrefix | src/operators.ts:27-39 | the fold of a prefix is the prefix of the fold |
| Operators.CounterMarbles | src/__tests__/operators.test.ts:63-89 | the counter marble test: `-iii-dd-r-i` gives `0123-21-0-1`; an unknown action ends the stream with its error |
| Operators.DistinctFromTracksFirst | src/index.tsx:149-154 | `distinct()` after a prefix emits what first occurs in the whole trace |
| Operators.DistinctMapIsFirstOccurrences | src/index.tsx:149-154 | `distinctMap` emits the first occurrence of each projected value, in order |
| Operators.FirstOccurrencesExact | src/index.tsx:152 | first occurrences have no duplicates and contain exactly the values of the trace |
| Operators.DistinctMapEmitsEachValueOnce | src/index.tsx:149-154 | `distinctMap` emits each value `project(x, i)` takes exactly once, and nothing else |
| Subscriptions.Added | src/helpers.ts:8-10 | adding to an open subscription keeps the resource live; adding to a closed one releases it at once |
| Subscriptions.Disposed | src/memo-novel.ts:79-83 | after `unsubscribe` the subscription is closed and nothing in it is live |
| Subscriptions.DisposeIdempotent | src/memo-novel.ts:81 | unsubscribing twice is unsubscribing once |
| Subscriptions.AccountsStep | src/memo-novel.ts:30 | one operation keeps the account of released resources: everything added, in order, once closed |
| Subscriptions.ReleasedInAddOrder | src/memo-novel.ts:30 | any sequence of operations keeps that account |
| Subscriptions.LedgerReleasesEverythingOnce | src/memo-novel.ts:30 | from a fresh subscription, everything added is released once and in order if and only if it was disposed |
| Subscriptions.DisposedIffDisposeOp | src/memo-novel.ts:79-83 | a subscription is closed exactly when it was open and disposed, or was already closed |
| Subscriptions.Ledger.constructor | src/memo-novel.ts:30 | a new subscription is open and empty |
| Subscriptions.Ledger.Add | src/helpers.ts:8-10 | `add` moves the state as `Added` says |
| Subscriptions.Ledger.Dispose | src/memo-novel.ts:79-83 | `unsubscribe` releases the entries in order and closes the subscription |
| Proxy.BroadcastWithoutLoops | src/helpers.ts:3-15 | without a live loop, `next(v)` delivers `v` once to each plain subscriber, in order |
| Proxy.EchoOverflows | src/helpers.ts:12-14 | a loop that feeds every value back overflows the stack after as many deliveries as the stack allows |
| Proxy.QuietDelivery | src/helpers.ts:12-14 | a value the loop maps to nothing reaches the subscriber once and goes no further |
| Proxy.FeedQuiet | src/helpers.ts:12-14 | a loop's outputs that the loop maps to nothing are each delivered once, in order, without overflow |
| Proxy.LoopDeliversOutputs | src/helpers.ts:8-14 | for any loop `fn` that produces nothing from its own outputs, `next(v)` is seen as `v` followed by `fn`'s outputs for `v` while the loop is live, and as `v` alone once the subscription is cut |
| Proxy.LoopDelivery | src/__tests__/helpers.test.ts:39-44 | with the test's loop, a positive value is delivered and then its negation while the loop is live; the value alone once disposed |
| Proxy.Values | src/__tests__/helpers.test.ts:14 | the values a subscriber collects, one per delivery |
| Proxy.SubjectProxy.constructor | src/helpers.ts:4-6 | a proxy starts with no observers, no targets and nothing delivered, and keeps the subscription it is given |
| Proxy.SubjectProxy.Subscribe | src/helpers.ts:3 | subscribing appends a plain observer |
| Proxy.SubjectProxy.Imitate | src/helpers.ts:8-10 | `imitate` subscribes the proxy to the target, whose values on subscription reach the proxy's observers at once (even with the ledger already disposed), and then adds that subscription to the ledger |
| Proxy.SyncToSubscriber | src/helpers.ts:9 | values handed over on subscription, from a given position on, reach a lone subscriber once each, in order |
| Proxy.SyncValuesReachSubscriber | src/helpers.ts:9 | every value a target hands over on subscription reaches a lone subscriber, in order, without overflow |
| Proxy.ImitateAfterDispose | src/helpers.ts:8-10 | with the ledger disposed before `imitate`, a subscriber still receives the target's values on subscription, and nothing the target emits later |
| Proxy.SubjectProxy.Loop | src/helpers.ts:12-14 | `loop(fn)` is `imitate(fn(this))` |
| Proxy.SubjectProxy.Next | src/helpers.ts:3 | `next(v)` makes exactly the deliveries of the depth-first broadcast and reports an overflow |
| Proxy.SubjectProxy.UpstreamNext | src/helpers.ts:8-10 | a value of an imitated stream reaches the proxy only while that subscription is live |
| Proxy.SubjectProxy.Deliver | src/helpers.ts:3 | the broadcast, step by step |
| Proxy.SubjectProxy.Visit | src/helpers.ts:12-14 | one observer's share of the broadcast |
| Proxy.SubjectProxy.Feed | src/helpers.ts:12-14 | a loop's values fed back in order |
| Proxy.ImitateScenario | src/__tests__/helpers.test.ts:5-29 | the `imitate` test collects `[1, 2, 3]` and nothing after `unsubscribe` |
| Proxy.LoopScenario | src/__tests__/helpers.test.ts:31-58 | the `loop` test collects `[1, -1, 2, -2, 3, -3, 4, 5]` |
| Proxy.SendUpstream | src/__tests__/helpers.test.ts:17-27 | in the `imitate` test, a value of the imitated stream reaches the subscriber exactly while the imitation is live |
| Proxy.SendLooped | src/__tests__/helpers.test.ts:46-55 | in the `loop` test, `next(v)` of a positive value delivers `v` and then `-v` while the loop is live, and `v` alone once the subscription is disposed |
| Harness.Overlay | src/memo-novel.ts:85 | `{...state, ...derived}` has the keys of both, derived values win, and state values show elsewhere |
| Harness.PropertyRef | src/memo-novel.ts:75 | reading an absent optional property gives `undefined`, never `null` |
| Harness.Cycles | src/memo-novel.ts:17-26 | a sequence of re-renders, each followed by its effects |
| Harness.MirrorPushesEach | src/memo-novel.ts:17-26 | after the first effect, every effect pushes its render's input |
| Harness.MirrorSkipsFirst | src/memo-novel.ts:19-24 | the first effect pushes nothing |
| Harness.NestedPushesInOrder | src/memo-novel.ts:51-54 | for a chain of state emissions each made from inside the previous `state$.next`, `state$` receives the chain in order and one `setState` runs per value, in either order of the two calls |
| Harness.NestedAsWrittenEndsOnOuter | src/memo-novel.ts:51-54 | with `state$.next(v)` before `setState(v)`, the last `setState` is the outermost value while `state$` ends on the innermost |
| Harness.NestedStaleRender | src/novel.ts:60-63 | a state stream emitting 10 from inside `state$.next(11)` leaves `state$` at 10 and render state at 11 |
| Harness.NestedSetFirstAgrees | src/index.tsx:80-83 | with `setState(v)` before `state$.next(v)`, render state ends on the value `state$` ends on, for every chain |
| Harness.LastOr | src/memo-novel.ts:56-66 | a ref written with values holds the last of them, or what it held before |
| MemoNovel.MountBinds | src/memo-novel.ts:33-77 | the first render runs the novel once. It throws exactly when the check fails. Otherwise it registers the output's streams and teardown in the subscription and keeps its exports, with render state the latest value pushed into `state$` |
| MemoNovel.BindFromOpen | src/memo-novel.ts:33-77 | binding into an empty subscription fails exactly when the check does; otherwise it registers exactly the output's streams and teardown, in order, keeps the exports, and render state is the latest value pushed |
| MemoNovel.SubscribeStateRegisters | src/memo-novel.ts:42-55 | subscribing the state stream pushes its synchronous values and registers it |
| MemoNovel.BareIsNextState | src/memo-novel.ts:42-55 | a bare stream binds like `{ nextState }`, apart from the exports being left untouched |
| MemoNovel.NoOutputStaysInitial | src/memo-novel.ts:38-40 | a novel returning nothing leaves the initial state, no derived fields and `null` exports, whatever happens |
| MemoNovel.NoOutputRun | src/memo-novel.ts:38-40 | host events keep that |
| MemoNovel.LifetimeRun | src/memo-novel.ts:33-85 | host events keep the bound hook's invariant |
| MemoNovel.MemoLifetime | src/memo-novel.ts:33-85 | after a successful bind, whatever the host does: the novel never runs again, exports keep their value, render state is the latest state (emissions not nested), and the hook has unmounted exactly when an unmount happened, by which time everything registered was released once, in order |
| MemoNovel.UnmountedIffUnmount | src/memo-novel.ts:79-83 | the hook is unmounted exactly when an unmount happened |
| MemoNovel.UnmountedStays | src/memo-novel.ts:79-83 | an unmounted or failed hook ignores every event |
| MemoNovel.FailedBindLeaks | src/memo-novel.ts:56-73 | when the check throws, the state and derived subscriptions stay registered and live and nothing disposes them |
| MemoNovel.InputMirror | src/memo-novel.ts:17-26 | `input$` receives every re-render's input in order, but not the first render's |
| MemoNovel.CyclesMirror | src/memo-novel.ts:17-26 | the mirror follows the renders |
| MemoNovel.StateEmissions | src/memo-novel.ts:51-54 | emissions of the state stream, in order |
| MemoNovel.StateRouting | src/memo-novel.ts:51-54 | while the state subscription is live, each emission goes into `state$` and becomes render state |
| MemoNovel.StateIgnoredWhenNotLive | src/memo-novel.ts:79-83 | once unsubscribed, emissions of the state stream change nothing |
| MemoNovel.DerivedRouting | src/memo-novel.ts:58-65 | a derived value shows in the next render exactly when its subscription is live |
| MemoNovel.MemoNovelHook.constructor | src/memo-novel.ts:13-77 | the first render binds as `Mount` says |
| MemoNovel.MemoNovelHook.BindOutput | src/memo-novel.ts:33-77 | binding an output, step by step |
| MemoNovel.MemoNovelHook.BindStructured | src/memo-novel.ts:49-76 | binding `{ nextState, derived, exports, teardown }` in the source's order |
| MemoNovel.MemoNovelHook.SubscribeToDerived | src/memo-novel.ts:56-72 | the check's flag is set exactly when the check is on and `derived` emitted synchronously |
| MemoNovel.MemoNovelHook.SubscribeToState | src/memo-novel.ts:50-55 | subscribing the state stream |
| MemoNovel.MemoNovelHook.ReceiveState | src/memo-novel.ts:52-53 | `state$.next(v); setState(v)` |
| MemoNovel.MemoNovelHook.Render | src/memo-novel.ts:85 | a render returns the overlay of state and derived, and the exports |
| MemoNovel.MemoNovelHook.AfterRender | src/memo-novel.ts:19-26 | the input mirror effect |
| MemoNovel.MemoNovelHook.StateEmits | src/memo-novel.ts:51-54 | an emission of the state stream |
| MemoNovel.MemoNovelHook.DerivedEmits | src/memo-novel.ts:59-61 | an emission of `derived` |
| MemoNovel.MemoNovelHook.Unmount | src/memo-novel.ts:79-83 | the cleanup disposes the subscription |
| EffectNovel.FirstRenderUnbound | src/effect-novel.ts:11-28 | the first render shows the initial state and `null` exports, and nothing is registered |
| EffectNovel.FirstEffectsBind | src/effect-novel.ts:32-65 | the first effects bind the output without a check and keep its exports. A `derived` that emits nothing synchronously leaves the derived fields empty |
| EffectNovel.RunAsMemo | src/effect-novel.ts:32-71 | once bound, the hook reacts to every event as `useMemoNovel` does |
| EffectNovel.EffectLifetime | src/effect-novel.ts:32-71 | whatever the host does: the novel runs once, never fails, keeps its exports, and releases everything registered on unmount |
| EffectNovel.InputMirror | src/effect-novel.ts:15-24 | `input$` receives every re-render's input in order |
| EffectNovel.EffectNovelHook.constructor | src/effect-novel.ts:11-28 | the first render creates state and refs and binds nothing |
| EffectNovel.EffectNovelHook.Render | src/effect-novel.ts:73 | a render returns the overlay and the exports |
| EffectNovel.EffectNovelHook.AfterRender | src/effect-novel.ts:15-65 | the mirror effect, then the binding effect on the first run |
| EffectNovel.EffectNovelHook.BindOutput | src/effect-novel.ts:32-65 | binding without the check |
| EffectNovel.EffectNovelHook.BindStructured | src/effect-novel.ts:48-64 | binding `{ nextState, derived, teardown, exports }` in the source's order, without the check |
| EffectNovel.EffectNovelHook.SubscribeToDerived | src/effect-novel.ts:55-61 | subscribing `derived` |
| EffectNovel.EffectNovelHook.SubscribeToState | src/effect-novel.ts:49-54 | subscribing the state stream |
| EffectNovel.EffectNovelHook.ReceiveState | src/effect-novel.ts:50-53 | `state$.next(v); setState(v)` |
| EffectNovel.EffectNovelHook.StateEmits | src/effect-novel.ts:50-53 | an emission of the state stream |
| EffectNovel.EffectNovelHook.DerivedEmits | src/effect-novel.ts:57-59 | an emission of `derived` |
| EffectNovel.EffectNovelHook.Unmount | src/effect-novel.ts:67-71 | the cleanup disposes the subscription |
| NovelHook.PushStatesLast | src/novel.ts:54-62 | pushing values one emission at a time keeps render state equal to the latest value of `state$` |
| NovelHook.MountBinds | src/novel.ts:23-81 | the novel runs once, on the seeds. `state$` starts with the initial state. The render throws exactly when the check fails. Otherwise the hook keeps its bound invariant |
| NovelHook.BindFromFresh | src/novel.ts:47-81 | binding into empty refs leaves the seed and the mirror alone, fails exactly when the check does, and otherwise establishes the bound invariant |
| NovelHook.BindPartsFromFresh | src/novel.ts:58-80 | for `{ nextState, derived, teardown, exports }`: each ref holds what the output provided, or stays unset |
| NovelHook.LifetimeRun | src/novel.ts:47-93 | host events keep the bound hook's invariant |
| NovelHook.NotBoundStays | src/novel.ts:83-91 | an unmounted or failed hook ignores every event |
| NovelHook.UnmountedIffUnmount | src/novel.ts:83-91 | the hook is unmounted exactly when an unmount happened |
| NovelHook.NovelLifetime | src/novel.ts:47-93 | after a successful bind: the novel never runs again, exports are fixed, render state is the latest value of `state$` (emissions not nested). Unmount completes `state$`, then calls `teardown`, then unsubscribes `derived`, then the state stream, each exactly when present |
| NovelHook.NovelFailedBindLeaks | src/novel.ts:64-77 | when the check throws, both subscriptions stay open, teardown and exports are never stored, and no cleanup runs |
| NovelHook.InputMirror | src/novel.ts:24-36 | `input$` holds the first input, then every re-render's input, in order |
| NovelHook.CyclesMirror | src/novel.ts:29-36 | the mirror follows the renders and keeps the seed |
| NovelHook.DispatchRouting | src/novel.ts:60-71 | while both subscriptions are live, every dispatched state goes into `state$`, and the render shows the latest state overlaid by the latest derived record |
| NovelHook.CounterMount | src/__tests__/novel.test.ts:76-87 | the counter novel's first render shows `{count: 0, action: 'init'}` and its exports |
| NovelHook.CounterDispatchStates | src/__tests__/novel.test.ts:19-29 | the counter's reducer turns inc, inc, dec, reset from a count of 0 into 1, 2, 1, 0 |
| NovelHook.CounterDispatched | src/__tests__/novel.test.ts:16-36 | dispatching inc, inc, dec, reset runs the counter reducer and emits the states 1, 2, 1, 0 into `state$`, each followed by its `{count, action}` record (of the two records `combineLatest` emits per dispatch, only the second, which a render can see, is kept) |
| NovelHook.CounterRouting | src/__tests__/novel.test.ts:76-98 | the mounted counter novel, given those states and records, pushes them into `state$` after the seed and renders `{count: 0, action: 'reset'}` last |
| NovelHook.CounterScenario | src/__tests__/novel.test.ts:45-98 | dispatching inc, inc, dec, reset through the counter reducer makes `state$` hold 0, 1, 2, 1, 0, and the render after the reset shows `{count: 0, action: 'reset'}` |
| NovelHook.NovelHook.constructor | src/novel.ts:18-81 | the first render binds as `Mount` says |
| NovelHook.NovelHook.BindOutput | src/novel.ts:47-81 | binding an output, step by step |
| NovelHook.NovelHook.BindStructured | src/novel.ts:58-80 | binding `{ nextState, derived, teardown, exports }` in the source's order |
| NovelHook.NovelHook.BindDerivedParts | src/novel.ts:64-79 | subscribing `derived`, the check, then storing `teardown` and exports |
| NovelHook.NovelHook.SubscribeToDerived | src/novel.ts:64-71 | the check's flag is set exactly when the check is on and `derived` emitted synchronously |
| NovelHook.NovelHook.SubscribeToState | src/novel.ts:53-63 | subscribing the state stream |
| NovelHook.NovelHook.ReceiveState | src/novel.ts:55-56 | `state$.next(v); setState(v)` |
| NovelHook.NovelHook.Render | src/novel.ts:93 | a render returns the overlay and the exports |
| NovelHook.NovelHook.AfterRender | src/novel.ts:29-36 | the input mirror effect |
| NovelHook.NovelHook.StateEmits | src/novel.ts:60-63 | an emission of the state stream |
| NovelHook.NovelHook.DerivedEmits | src/novel.ts:66-71 | an emission of `derived` |
| NovelHook.NovelHook.Unmount | src/novel.ts:83-91 | the cleanup in the source's order |
| Fiction.PushStatesLast | src/index.tsx:80-83 | pushing values one emission at a time keeps render state equal to the latest value of `state$` |
| Fiction.MountBinds | src/index.tsx:55-85 | the first render always binds, with no check: the fiction runs once on the resolved initial state (a lazy one is called), and `state$` starts with it |
| Fiction.LifetimeRun | src/index.tsx:55-104 | host events keep the bound hook's invariant |
| Fiction.NotBoundStays | src/index.tsx:87-102 | an unmounted hook ignores every event |
| Fiction.UnmountedIffUnmount | src/index.tsx:87-102 | the hook is unmounted exactly when an unmount happened |
| Fiction.FictionLifetime | src/index.tsx:55-104 | whatever the host does: the fiction runs once and exports are fixed. Unmount unsubscribes `derived`, then `nextState`, then completes `state$`, then calls `teardown`, each exactly when present |
| Fiction.CleanupsAgreeUpToOrder | src/index.tsx:87-102 | `useFiction` and `useNovel` clean up the same things in different orders: `useFiction` completes `state$` after unsubscribing, `useNovel` before |
| Fiction.FictionHook.constructor | src/index.tsx:59-85 | the first render: state, the seeded `state$`, exports, teardown, `derived`, then `nextState` |
| Fiction.FictionHook.SubscribeToDerived | src/index.tsx:74-78 | subscribing `derived` |
| Fiction.FictionHook.SubscribeToNextState | src/index.tsx:79-84 | subscribing `nextState` |
| Fiction.FictionHook.ReceiveState | src/index.tsx:81-82 | `state$.next(value); setState(value)` |
| Fiction.FictionHook.Render | src/index.tsx:104 | a render returns the overlay of state and derived, and the exports |
| Fiction.FictionHook.StateEmits | src/index.tsx:80-83 | an emission of `nextState` |
| Fiction.FictionHook.DerivedEmits | src/index.tsx:75-77 | an emission of `derived` |
| Fiction.FictionHook.Unmount | src/index.tsx:87-102 | the cleanup in the source's order |
| Fiction.MimicSubject.constructor | src/index.tsx:22-24 | the subject starts with the first value, and the mount flag set |
| Fiction.MimicSubject.Render | src/index.tsx:22 | a render takes the new value |
| Fiction.MimicSubject.AfterRender | src/index.tsx:25-32 | the effect skips once, then pushes the render's value |
| Fiction.MimicRenders | src/index.tsx:22-34 | a component rendered with `first`, then each of `inputs`, makes the subject hold exactly `[first] + inputs` |
| Fiction.MimicEffects | src/index.tsx:25-32 | the same, for the effect alone |

## Left out

- `log` (src/operators.ts:5-8 and src/index.tsx:16-18): it only prints.
- React's scheduling is not modelled. A render is an event, and effects run when the host
  says so. A `setState` during a render, batching, strict-mode double renders and concurrent
  rendering are not represented.
- RxJS error and completion channels of the streams a novel returns are not modelled. The
  exception is `applyMutatorAsReducer`, where the mutator's error ends the output. An error in
  `derived` or the state stream, and what React does with a thrown render error, are outside
  the model.
- The `StateObservable` wrappers of `useMemoNovel` and `useEffectNovel` (src/StateObservable is
  not part of this model): the novel is given the first input and the initial state as
  values.
- Proxy.SubjectProxy.Imitate: `imitate` subscribes the proxy itself as the observer
  (src/helpers.ts:9). A target that completes or errors therefore completes or errors the
  proxy too, and so does a loop pipeline that completes (with `take`, say); later `next` calls
  then deliver nothing. The model has no completion or error channel for the proxy, so
  `Proxy.SubjectProxy.Next` keeps delivering after that.
- Proxy.SubjectProxy.Next: a stack overflow is reported as a flag. The model does not say
  what RxJS does with the error it raises.
- A loop's pipeline is a stateless function from a value to the values it
  emits. Operators with their own state inside `loop(fn)` are not modelled.
- `immer`'s `produce` is a mutator that returns the finished draft or an error. Structural
  sharing and frozen results are not modelled.
- Numbers are integers. `NaN`, `-0` and floating point comparisons are not modelled.
- MemoNovel.MemoLifetime, NovelHook.NovelLifetime, EffectNovel.EffectLifetime,
  Fiction.FictionLifetime and the `PushStatesLast` lemmas: a state emission is one host event,
  so an emission nested inside `state$.next` is not modelled by the hooks' `Step`. With one,
  render state can end on an older value than `state$` (`Harness.NestedAsWrittenEndsOnOuter`);
  "render state is the latest value of `state$`" holds only for emissions that do not nest.
- Cyclic values: a `Value` cannot refer to itself, so a self-referencing object, on which
  `deepEqual` (src/equal-fns.ts:50-57) recurses until the stack overflows, is not represented.
- The counter novel's intermediate `derived` record (the new count with the previous action,
  emitted by `combineLatest` before the action stream delivers the new action) is not among
  the host events; no render sees it.
- Property reads go to own properties only. Anything inherited from a prototype reads as
  `undefined`.
- The test that drives a bare stream with `interval` (src/__tests__/novel.test.ts:114-145) is
  modelled through its host events (state emissions, then unmount). The timer itself is not.
- `useRxNovel` (src/index.tsx:131-147) is `useMimicBehaviorSubject` composed with
  `useFiction`, both modelled. The composition itself is not.
- `useSubject` (src/index.tsx:37-39): a plain `new Subject()`, with nothing to prove.
- The alias `useNovel = useMemoNovel` of src/index.ts is a re-export.
- LegacyEquality.LegacyIsEqual: a `depth` fuel bounds the recursion. `None` stands for "does
  not return within this depth", which is how the non-termination finding is stated.

## Findings

| source | as written | input that shows it | evidently intended | confidence | as-written member | corrected member |
|---|---|---|---|---|---|---|
| src/index.tsx:166-202 | primitives are compared through `Object.keys`, which is empty for numbers and booleans | `isEqual(1, 2)` returns true | different primitives are unequal | not executed | LegacyEquality.LegacyKeylessValuesAlwaysEqual | Equality.PrimitivesCompareByIdentity |
| src/index.tsx:193-202 | strings are compared through the first one's index keys only | `isEqual('a', 'ab')` returns true | different strings are unequal | not executed | LegacyEquality.LegacyStringPrefixEqual | Equality.PrimitivesCompareByIdentity |
| src/index.tsx:193-202 | only the first object's keys are walked | `isEqual({a: 1}, {a: 1, b: 2})` returns true | objects with extra keys are unequal | not executed | LegacyEquality.LegacyIgnoresExtraKeys | Equality.ExtraFieldNeverEqual |
| src/memo-novel.ts:51-54 | each state is handled as `state$.next(v)` then `setState(v)`, with no guard against re-entry (likewise src/novel.ts:60-63, src/effect-novel.ts:50-53, src/index.tsx:80-83) | a state stream that listens to `state$` and emits 10 from inside `state$.next(11)` leaves `state$` at 10 and render state at 11 | render state is always the latest value of `state$` | not executed; needs a state stream that reacts to `state$` synchronously | Harness.NestedStaleRender | Harness.NestedSetFirstAgrees |
| src/index.tsx:193-208 | deep comparison of strings recurses into their characters, and a one-character string is again its own character | `deepEqual('a', 'b')` never returns | different strings compare unequal at once | not executed | LegacyEquality.LegacyDeepEqualDivergesOnStrings | Equality.PrimitivesCompareByIdentity |

The hooks' `Step` functions take one state emission at a time. There the two orders of
`state$.next` and `setState` coincide, so the lifetime lemmas state the intended property
for emissions that do not nest.
