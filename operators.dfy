/**
 * The stream operators of src/operators.ts (`ofType`, `applyMutatorAsReducer`,
 * `combineLatestFromObject`) and `distinctMap` of src/index.tsx, whose copies of
 * the first two are identical. Each operator is a function from a finite trace
 * of input notifications to the trace of notifications it emits.
 */
module Operators {
  import opened Wrappers

  // ---------------------------------------------------------------------------
  // ofType: keep the actions whose `type` is one of the given tags

  datatype Action<P> = Action(tag: string, payload: P)

  function OfType<P>(types: seq<string>, actions: seq<Action<P>>): (r: seq<Action<P>>)
    ensures |r| <= |actions|
    ensures forall i :: 0 <= i < |r| ==> r[i].tag in types
  {
    if actions == [] then []
    else (if actions[0].tag in types then [actions[0]] else []) + OfType(types, actions[1..])
  }

  /** Every action whose tag is in the set is kept, as often as it occurs, and no other. */
  lemma {:induction false} OfTypeKeepsExactlyMatching<P>(types: seq<string>, actions: seq<Action<P>>)
    ensures forall x :: multiset(OfType(types, actions))[x]
                        == if x.tag in types then multiset(actions)[x] else 0
  {
    if actions != [] {
      OfTypeKeepsExactlyMatching(types, actions[1..]);
      assert actions == [actions[0]] + actions[1..];
    }
  }

  /** Filtering commutes with concatenation, so the kept actions stay in input order. */
  lemma {:induction false} OfTypeKeepsOrder<P>(types: seq<string>, xs: seq<Action<P>>, ys: seq<Action<P>>)
    ensures OfType(types, xs + ys) == OfType(types, xs) + OfType(types, ys)
  {
    if xs != [] {
      OfTypeKeepsOrder(types, xs[1..], ys);
      var head := if xs[0].tag in types then [xs[0]] else [];
      assert (xs + ys)[0] == xs[0];
      assert (xs + ys)[1..] == xs[1..] + ys;
      assert OfType(types, xs + ys) == head + OfType(types, xs[1..] + ys);
      assert OfType(types, xs) == head + OfType(types, xs[1..]);
      assert head + (OfType(types, xs[1..]) + OfType(types, ys)) == (head + OfType(types, xs[1..])) + OfType(types, ys);
    } else {
      assert xs + ys == ys;
    }
  }

  function Tags<P>(actions: seq<Action<P>>): (r: seq<string>)
    ensures |r| == |actions| && forall i :: 0 <= i < |r| ==> r[i] == actions[i].tag
  {
    if actions == [] then [] else [actions[0].tag] + Tags(actions[1..])
  }

  /** The marble cases: `a b a c` through `ofType('a')` gives `a a`, through `ofType('a', 'b')` gives `a b a`. */
  lemma OfTypeMarbles()
    ensures var input := [Action("a", ()), Action("b", ()), Action("a", ()), Action("c", ())];
            Tags(OfType(["a"], input)) == ["a", "a"] && Tags(OfType(["a", "b"], input)) == ["a", "b", "a"]
  {
    var a, b, c := Action("a", ()), Action("b", ()), Action("c", ());
    assert [a, b, a, c][1..] == [b, a, c] && [b, a, c][1..] == [a, c] && [a, c][1..] == [c] && [c][1..] == [];
    assert "c" !in ["a"] && "c" !in ["a", "b"] && "b" !in ["a"];
    assert "a" in ["a"] && "a" in ["a", "b"] && "b" in ["a", "b"];
    assert OfType(["a"], [c]) == [] && OfType(["a", "b"], [c]) == [];
    assert OfType(["a"], [a, c]) == [a] && OfType(["a", "b"], [a, c]) == [a];
    assert OfType(["a"], [b, a, c]) == [a] && OfType(["a", "b"], [b, a, c]) == [b, a];
    assert OfType(["a"], [a, b, a, c]) == [a, a];
    assert OfType(["a", "b"], [a, b, a, c]) == [a, b, a];
    assert Tags([a, a]) == ["a", "a"];
    assert Tags([a, b, a]) == ["a", "b", "a"];
  }

  // ---------------------------------------------------------------------------
  // combineLatestFromObject

  /** A value emitted by the input stream at position `source` of the object's keys. */
  datatype Emission<V> = Emission(source: nat, value: V)

  datatype Entry<V> = Entry(key: string, value: V)

  predicate FromStreams<V>(n: nat, events: seq<Emission<V>>)
  {
    forall i :: 0 <= i < |events| ==> events[i].source < n
  }

  predicate AllSeen<V>(latest: seq<Option<V>>)
  {
    forall i :: 0 <= i < |latest| ==> latest[i].Some?
  }

  /** `Object.fromEntries(values.map((v, i) => [keys[i], v]))`. */
  function Record<V>(keys: seq<string>, latest: seq<Option<V>>): seq<Entry<V>>
    requires |latest| == |keys| && AllSeen(latest)
  {
    seq(|keys|, i requires 0 <= i < |keys| => Entry(keys[i], latest[i].value))
  }

  function Unseen<V>(n: nat): seq<Option<V>>
  {
    seq(n, i => None)
  }

  /** The combine-latest state machine: per input a seen flag and latest value (`latest`); an
      emission updates its slot and, once every slot is filled, emits one record. */
  function CombineFrom<V>(keys: seq<string>, latest: seq<Option<V>>, events: seq<Emission<V>>): seq<seq<Entry<V>>>
    requires |latest| == |keys| && FromStreams(|keys|, events)
    decreases |events|
  {
    if events == [] then []
    else
      var latest' := latest[events[0].source := Some(events[0].value)];
      (if AllSeen(latest') then [Record(keys, latest')] else [])
        + CombineFrom(keys, latest', events[1..])
  }

  function CombineLatestFromObject<V>(keys: seq<string>, events: seq<Emission<V>>): seq<seq<Entry<V>>>
    requires FromStreams(|keys|, events)
  {
    CombineFrom(keys, Unseen(|keys|), events)
  }

  // The reference definition: latest values read off the trace itself.

  function LatestOf<V>(events: seq<Emission<V>>, i: nat): Option<V>
  {
    if events == [] then None
    else if events[|events| - 1].source == i then Some(events[|events| - 1].value)
    else LatestOf(events[..|events| - 1], i)
  }

  function LatestAll<V>(n: nat, events: seq<Emission<V>>): (r: seq<Option<V>>)
    ensures |r| == n
  {
    seq(n, i requires 0 <= i < n => LatestOf(events, i))
  }

  /** One record per emission at which every input has emitted, carrying each input's latest value. */
  function CombineSpec<V>(keys: seq<string>, events: seq<Emission<V>>): seq<seq<Entry<V>>>
  {
    if events == [] then []
    else
      var latest := LatestAll(|keys|, events);
      CombineSpec(keys, events[..|events| - 1])
        + (if AllSeen(latest) then [Record(keys, latest)] else [])
  }

  lemma LatestAllSnoc<V>(n: nat, p: seq<Emission<V>>, e: Emission<V>)
    requires e.source < n
    ensures LatestAll(n, p + [e]) == LatestAll(n, p)[e.source := Some(e.value)]
  {
    assert (p + [e])[..|p|] == p;
  }

  lemma {:induction false} CombineFromTracksSpec<V>(keys: seq<string>, p: seq<Emission<V>>, s: seq<Emission<V>>)
    requires FromStreams(|keys|, s)
    ensures CombineSpec(keys, p) + CombineFrom(keys, LatestAll(|keys|, p), s) == CombineSpec(keys, p + s)
    decreases |s|
  {
    if s == [] {
      assert p + s == p;
    } else {
      var e := s[0];
      var latest := LatestAll(|keys|, p);
      var latest' := latest[e.source := Some(e.value)];
      var out := if AllSeen(latest') then [Record(keys, latest')] else [];
      LatestAllSnoc(|keys|, p, e);
      assert (p + [e])[..|p|] == p;
      assert CombineSpec(keys, p + [e]) == CombineSpec(keys, p) + out;
      assert FromStreams(|keys|, s[1..]);
      assert CombineFrom(keys, latest, s) == out + CombineFrom(keys, latest', s[1..]);
      CombineFromTracksSpec(keys, p + [e], s[1..]);
      assert (p + [e]) + s[1..] == p + s;
      assert CombineSpec(keys, p) + (out + CombineFrom(keys, latest', s[1..]))
          == CombineSpec(keys, p + [e]) + CombineFrom(keys, latest', s[1..]);
    }
  }

  /** The state machine emits exactly what the reference definition describes. */
  lemma CombineMatchesSpec<V>(keys: seq<string>, events: seq<Emission<V>>)
    requires FromStreams(|keys|, events)
    ensures CombineLatestFromObject(keys, events) == CombineSpec(keys, events)
  {
    assert LatestAll(|keys|, []) == Unseen<V>(|keys|);
    CombineFromTracksSpec(keys, [], events);
    assert [] + events == events;
  }

  /** Nothing is emitted until every input has emitted at least once. */
  lemma {:induction false} CombineSilentUntilAllSeen<V>(keys: seq<string>, events: seq<Emission<V>>)
    requires FromStreams(|keys|, events)
    requires !AllSeen(LatestAll(|keys|, events))
    ensures CombineLatestFromObject(keys, events) == []
  {
    CombineMatchesSpec(keys, events);
    SpecSilentUntilAllSeen(keys, events);
  }

  lemma {:induction false} SpecSilentUntilAllSeen<V>(keys: seq<string>, events: seq<Emission<V>>)
    requires !AllSeen(LatestAll(|keys|, events))
    ensures CombineSpec(keys, events) == []
    decreases |events|
  {
    if events != [] {
      var init := events[..|events| - 1];
      var i :| 0 <= i < |keys| && LatestOf(events, i).None?;
      assert LatestAll(|keys|, init)[i].None?;
      SpecSilentUntilAllSeen(keys, init);
    }
  }

  /** Once every input has emitted, each further emission yields exactly one record, equal to
      the previous one except at the emitting input's key. */
  lemma CombineOneRecordPerEmission<V>(keys: seq<string>, events: seq<Emission<V>>, e: Emission<V>)
    requires FromStreams(|keys|, events) && e.source < |keys|
    requires AllSeen(LatestAll(|keys|, events))
    ensures FromStreams(|keys|, events + [e])
    ensures var previous := Record(keys, LatestAll(|keys|, events));
            CombineLatestFromObject(keys, events + [e])
              == CombineLatestFromObject(keys, events) + [previous[e.source := Entry(keys[e.source], e.value)]]
  {
    var events' := events + [e];
    assert FromStreams(|keys|, events');
    CombineMatchesSpec(keys, events);
    CombineMatchesSpec(keys, events');
    assert events'[..|events|] == events;
    LatestAllSnoc(|keys|, events, e);
    var latest := LatestAll(|keys|, events);
    var latest' := LatestAll(|keys|, events');
    assert AllSeen(latest');
    assert CombineSpec(keys, events') == CombineSpec(keys, events) + [Record(keys, latest')];
    assert Record(keys, latest') == Record(keys, latest)[e.source := Entry(keys[e.source], e.value)];
  }

  /** Every record has exactly the input keys, in key order, the i-th paired with a value the
      i-th input emitted. */
  lemma {:induction false} CombineRecordsCarryKeys<V>(keys: seq<string>, events: seq<Emission<V>>)
    requires FromStreams(|keys|, events)
    ensures forall r: seq<Entry<V>> :: r in CombineLatestFromObject(keys, events) ==>
              |r| == |keys| &&
              (forall i :: 0 <= i < |keys| ==> r[i].key == keys[i] && Emission(i, r[i].value) in events)
  {
    CombineMatchesSpec(keys, events);
    SpecRecordsCarryKeys(keys, events);
  }

  lemma {:induction false} LatestOfWasEmitted<V>(events: seq<Emission<V>>, i: nat)
    requires LatestOf(events, i).Some?
    ensures Emission(i, LatestOf(events, i).value) in events
    decreases |events|
  {
    var last := events[|events| - 1];
    if last.source != i {
      LatestOfWasEmitted(events[..|events| - 1], i);
    }
  }

  lemma {:induction false} SpecRecordsCarryKeys<V>(keys: seq<string>, events: seq<Emission<V>>)
    ensures forall r: seq<Entry<V>> :: r in CombineSpec(keys, events) ==>
              |r| == |keys| &&
              (forall i :: 0 <= i < |keys| ==> r[i].key == keys[i] && Emission(i, r[i].value) in events)
    decreases |events|
  {
    if events != [] {
      var init := events[..|events| - 1];
      SpecRecordsCarryKeys(keys, init);
      forall i | 0 <= i < |keys| && LatestOf(events, i).Some?
        ensures Emission(i, LatestOf(events, i).value) in events
      {
        LatestOfWasEmitted(events, i);
      }
      forall x | x in init ensures x in events {
        assert x in events[..|events| - 1];
      }
    }
  }

  /** The marble case: foo `-1--2------3--` and bar `--a-b----c--d-` give six records. */
  lemma CombineMarbles()
    ensures var events := [Emission(0, "1"), Emission(1, "a"), Emission(0, "2"), Emission(1, "b"),
                           Emission(1, "c"), Emission(0, "3"), Emission(1, "d")];
            FromStreams(2, events) &&
            CombineLatestFromObject(["foo", "bar"], events) ==
              [ [Entry("foo", "1"), Entry("bar", "a")], [Entry("foo", "2"), Entry("bar", "a")],
                [Entry("foo", "2"), Entry("bar", "b")], [Entry("foo", "2"), Entry("bar", "c")],
                [Entry("foo", "3"), Entry("bar", "c")], [Entry("foo", "3"), Entry("bar", "d")] ]
  {
    CombineMarblesStart();
    CombineMarblesFirstRecord();
    CombineMarblesSecondRecord();
    CombineMarblesSecondPair();
    CombineMarblesLastPair();
    OneOneTwoTwo([Entry("foo", "1"), Entry("bar", "a")], [Entry("foo", "2"), Entry("bar", "a")],
              [Entry("foo", "2"), Entry("bar", "b")], [Entry("foo", "2"), Entry("bar", "c")],
              [Entry("foo", "3"), Entry("bar", "c")], [Entry("foo", "3"), Entry("bar", "d")]);
  }

  lemma OneOneTwoTwo<T>(a: T, b: T, c: T, d: T, e: T, f: T)
    ensures [a] + ([b] + ([c, d] + [e, f])) == [a, b, c, d, e, f]
  {
  }

  /** The first emission of the marble case fills foo's slot and emits nothing. */
  lemma CombineMarblesStart()
    ensures var events := [Emission(0, "1"), Emission(1, "a"), Emission(0, "2"), Emission(1, "b"),
                           Emission(1, "c"), Emission(0, "3"), Emission(1, "d")];
            FromStreams(2, events) &&
            CombineLatestFromObject(["foo", "bar"], events)
              == CombineFrom(["foo", "bar"], [Some("1"), None],
                             [Emission(1, "a"), Emission(0, "2"), Emission(1, "b"),
                              Emission(1, "c"), Emission(0, "3"), Emission(1, "d")])
  {
    var e1, e2, e3, e4, e5, e6, e7 := Emission(0, "1"), Emission(1, "a"), Emission(0, "2"),
      Emission(1, "b"), Emission(1, "c"), Emission(0, "3"), Emission(1, "d");
    var events := [e1, e2, e3, e4, e5, e6, e7];
    assert FromStreams(2, events);
    assert events[1..] == [e2, e3, e4, e5, e6, e7];
    var l1: seq<Option<string>> := [Some("1"), None];
    assert Unseen<string>(2)[0 := Some("1")] == l1;
    assert l1[1].None?;
  }

  /** bar's `a` fills the last slot: the first record. */
  lemma CombineMarblesFirstRecord()
    ensures var events := [Emission(1, "a"), Emission(0, "2"), Emission(1, "b"),
                           Emission(1, "c"), Emission(0, "3"), Emission(1, "d")];
            FromStreams(2, events) &&
            CombineFrom(["foo", "bar"], [Some("1"), None], events)
              == [[Entry("foo", "1"), Entry("bar", "a")]]
                 + CombineFrom(["foo", "bar"], [Some("1"), Some("a")],
                               [Emission(0, "2"), Emission(1, "b"), Emission(1, "c"), Emission(0, "3"), Emission(1, "d")])
  {
    var keys := ["foo", "bar"];
    var e2, e3, e4, e5, e6, e7 := Emission(1, "a"), Emission(0, "2"),
      Emission(1, "b"), Emission(1, "c"), Emission(0, "3"), Emission(1, "d");
    assert FromStreams(2, [e2, e3, e4, e5, e6, e7]);
    var l1: seq<Option<string>> := [Some("1"), None];
    var l2 := [Some("1"), Some("a")];
    assert l1[1 := Some("a")] == l2;
    assert [e2, e3, e4, e5, e6, e7][1..] == [e3, e4, e5, e6, e7];
    CombineFromEmits(keys, l1, [e2, e3, e4, e5, e6, e7], l2);
    assert Record(keys, l2) == [Entry("foo", "1"), Entry("bar", "a")];
  }

  /** foo's `2`: the second record. */
  lemma CombineMarblesSecondRecord()
    ensures var events := [Emission(0, "2"), Emission(1, "b"), Emission(1, "c"), Emission(0, "3"), Emission(1, "d")];
            FromStreams(2, events) &&
            CombineFrom(["foo", "bar"], [Some("1"), Some("a")], events)
              == [[Entry("foo", "2"), Entry("bar", "a")]]
                 + CombineFrom(["foo", "bar"], [Some("2"), Some("a")],
                               [Emission(1, "b"), Emission(1, "c"), Emission(0, "3"), Emission(1, "d")])
  {
    var keys := ["foo", "bar"];
    var e3, e4, e5, e6, e7 := Emission(0, "2"), Emission(1, "b"), Emission(1, "c"), Emission(0, "3"), Emission(1, "d");
    assert FromStreams(2, [e3, e4, e5, e6, e7]);
    var l2: seq<Option<string>> := [Some("1"), Some("a")];
    var l3 := [Some("2"), Some("a")];
    assert l2[0 := Some("2")] == l3;
    assert [e3, e4, e5, e6, e7][1..] == [e4, e5, e6, e7];
    CombineFromEmits(keys, l2, [e3, e4, e5, e6, e7], l3);
    assert Record(keys, l3) == [Entry("foo", "2"), Entry("bar", "a")];
  }

  /** bar's `b`, then bar's `c`: two records with foo still at `2`. */
  lemma CombineMarblesSecondPair()
    ensures var events := [Emission(1, "b"), Emission(1, "c"), Emission(0, "3"), Emission(1, "d")];
            FromStreams(2, events) &&
            CombineFrom(["foo", "bar"], [Some("2"), Some("a")], events)
              == [[Entry("foo", "2"), Entry("bar", "b")], [Entry("foo", "2"), Entry("bar", "c")]]
                 + CombineFrom(["foo", "bar"], [Some("2"), Some("c")], [Emission(0, "3"), Emission(1, "d")])
  {
    var keys := ["foo", "bar"];
    var e4, e5, e6, e7 := Emission(1, "b"), Emission(1, "c"), Emission(0, "3"), Emission(1, "d");
    assert FromStreams(2, [e4, e5, e6, e7]);
    var l3: seq<Option<string>> := [Some("2"), Some("a")];
    var l4, l5 := [Some("2"), Some("b")], [Some("2"), Some("c")];
    assert l3[1 := Some("b")] == l4 && l4[1 := Some("c")] == l5;
    assert [e4, e5, e6, e7][1..] == [e5, e6, e7];
    assert [e5, e6, e7][1..] == [e6, e7];
    CombineFromEmits(keys, l3, [e4, e5, e6, e7], l4);
    CombineFromEmits(keys, l4, [e5, e6, e7], l5);
    assert Record(keys, l4) == [Entry("foo", "2"), Entry("bar", "b")];
    assert Record(keys, l5) == [Entry("foo", "2"), Entry("bar", "c")];
  }

  /** foo's `3`, then bar's `d`: the last two records. */
  lemma CombineMarblesLastPair()
    ensures FromStreams(2, [Emission(0, "3"), Emission(1, "d")])
    ensures CombineFrom(["foo", "bar"], [Some("2"), Some("c")], [Emission(0, "3"), Emission(1, "d")])
            == [[Entry("foo", "3"), Entry("bar", "c")], [Entry("foo", "3"), Entry("bar", "d")]]
  {
    var keys := ["foo", "bar"];
    var e6, e7 := Emission(0, "3"), Emission(1, "d");
    assert FromStreams(2, [e6, e7]);
    var l5: seq<Option<string>> := [Some("2"), Some("c")];
    var l6, l7 := [Some("3"), Some("c")], [Some("3"), Some("d")];
    assert l5[0 := Some("3")] == l6 && l6[1 := Some("d")] == l7;
    assert [e6, e7][1..] == [e7];
    CombineFromEmits(keys, l5, [e6, e7], l6);
    CombineFromEmits(keys, l6, [e7], l7);
    assert Record(keys, l6) == [Entry("foo", "3"), Entry("bar", "c")];
    assert Record(keys, l7) == [Entry("foo", "3"), Entry("bar", "d")];
  }

  /** One emission that leaves every slot filled emits exactly the record of the new slots. */
  lemma CombineFromEmits<V>(keys: seq<string>, latest: seq<Option<V>>, events: seq<Emission<V>>, latest': seq<Option<V>>)
    requires |latest| == |keys| && FromStreams(|keys|, events) && events != []
    requires latest' == latest[events[0].source := Some(events[0].value)] && AllSeen(latest')
    ensures CombineFrom(keys, latest, events) == [Record(keys, latest')] + CombineFrom(keys, latest', events[1..])
  {
  }

  // ---------------------------------------------------------------------------
  // applyMutatorAsReducer: `withLatestFrom(state$)` then `produce(state, draft => mutator(draft, action, state))`

  /** What reaches the operator: a value of `state$` or an action of the source. */
  datatype Event<S, A> = StateEmitted(state: S) | ActionEmitted(action: A)

  /** What the operator emits: a produced state, or the error the mutator threw (which ends the stream). */
  datatype Notification<S, X> = Next(value: S) | Failure(error: X)

  predicate EndsInFailure<S, X>(out: seq<Notification<S, X>>)
  {
    |out| > 0 && out[|out| - 1].Failure?
  }

  function Notify<S, X>(produced: Result<S, X>): Notification<S, X>
  {
    match produced
    case Ok(s) => Next(s)
    case Err(x) => Failure(x)
  }

  /** The operator with `latest` the value `withLatestFrom` holds. The mutator is called with the
      draft (initially the state itself), the action and the state, and yields the finished
      draft or the error it threw. */
  function Reduce<S, A, X>(mutator: (S, A, S) -> Result<S, X>, latest: Option<S>, events: seq<Event<S, A>>)
    : (r: seq<Notification<S, X>>)
    ensures |r| <= |events|
    ensures forall i :: 0 <= i < |r| - 1 ==> r[i].Next?
    decreases |events|
  {
    if events == [] then []
    else match events[0]
      case StateEmitted(s) => Reduce(mutator, Some(s), events[1..])
      case ActionEmitted(a) =>
        if latest.None? then Reduce(mutator, latest, events[1..])
        else match mutator(latest.value, a, latest.value)
          case Ok(next) => [Next(next)] + Reduce(mutator, latest, events[1..])
          case Err(x) => [Failure(x)]
  }

  function ApplyMutatorAsReducer<S, A, X>(mutator: (S, A, S) -> Result<S, X>, events: seq<Event<S, A>>)
    : seq<Notification<S, X>>
  {
    Reduce(mutator, None, events)
  }

  /** The reference reading of the state: the last value `state$` emitted, read off the trace. */
  function LatestState<S, A>(initial: Option<S>, events: seq<Event<S, A>>): Option<S>
  {
    if events == [] then initial
    else match events[|events| - 1]
      case StateEmitted(s) => Some(s)
      case ActionEmitted(_) => LatestState(initial, events[..|events| - 1])
  }

  /** What one more event adds to the output: nothing after an error or for a state; for an
      action, the mutator's outcome on the latest state, or nothing when there is none yet. */
  function Reaction<S, A, X>(mutator: (S, A, S) -> Result<S, X>, out: seq<Notification<S, X>>,
                             latest: Option<S>, event: Event<S, A>): seq<Notification<S, X>>
  {
    if EndsInFailure(out) then []
    else match event
      case StateEmitted(_) => []
      case ActionEmitted(a) =>
        if latest.None? then [] else [Notify(mutator(latest.value, a, latest.value))]
  }

  lemma {:induction false} LatestStateShift<S, A>(initial: Option<S>, e: Event<S, A>, rest: seq<Event<S, A>>)
    ensures LatestState(initial, [e] + rest)
            == LatestState(if e.StateEmitted? then Some(e.state) else initial, rest)
    decreases |rest|
  {
    if rest != [] {
      var init := rest[..|rest| - 1];
      assert ([e] + rest)[..|rest|] == [e] + init;
      LatestStateShift(initial, e, init);
    }
  }

  lemma {:induction false} ReduceSnoc<S, A, X>(mutator: (S, A, S) -> Result<S, X>, latest: Option<S>,
                                               events: seq<Event<S, A>>, event: Event<S, A>)
    ensures var out := Reduce(mutator, latest, events);
            Reduce(mutator, latest, events + [event])
              == out + Reaction(mutator, out, LatestState(latest, events), event)
    decreases |events|
  {
    if events == [] {
      assert [] + [event] == [event];
    } else {
      var e, rest := events[0], events[1..];
      assert events == [e] + rest;
      assert (events + [event])[1..] == rest + [event];
      LatestStateShift(latest, e, rest);
      match e
      case StateEmitted(s) =>
        ReduceSnoc(mutator, Some(s), rest, event);
      case ActionEmitted(a) =>
        ReduceSnoc(mutator, latest, rest, event);
        if latest.Some? && mutator(latest.value, a, latest.value).Ok? {
          var tail := Reduce(mutator, latest, rest);
          assert EndsInFailure([Next(mutator(latest.value, a, latest.value).value)] + tail) == EndsInFailure(tail);
        }
    }
  }

  /** The operator step by step: a state emitted upstream changes nothing in the output; an action
      adds the mutator's outcome on the latest state (draft and state both that value), unless no
      state has arrived yet (the action is dropped) or the output already ended in an error. */
  lemma ReducerStep<S, A, X>(mutator: (S, A, S) -> Result<S, X>, events: seq<Event<S, A>>, event: Event<S, A>)
    ensures var out := ApplyMutatorAsReducer(mutator, events);
            ApplyMutatorAsReducer(mutator, events + [event])
              == out + Reaction(mutator, out, LatestState(None, events), event)
  {
    ReduceSnoc(mutator, None, events, event);
  }

  /** Actions that arrive before `state$` has emitted are dropped, not replayed later. */
  lemma {:induction false} ReducerDropsEarlyActions<S, A, X>(mutator: (S, A, S) -> Result<S, X>,
                                                            early: seq<Event<S, A>>, rest: seq<Event<S, A>>)
    requires forall i :: 0 <= i < |early| ==> early[i].ActionEmitted?
    ensures ApplyMutatorAsReducer(mutator, early + rest) == ApplyMutatorAsReducer(mutator, rest)
    decreases |early|
  {
    if early != [] {
      assert (early + rest)[1..] == early[1..] + rest;
      ReducerDropsEarlyActions(mutator, early[1..], rest);
    } else {
      assert early + rest == rest;
    }
  }

  // The reducer in its intended loop: its output is subscribed back into `state$`, a
  // BehaviorSubject seeded with a state, so every produced state becomes the latest one.

  /** The states `state$` receives after its seed when the actions arrive one by one. */
  function Feedback<S, A, X>(mutator: (S, A, S) -> Result<S, X>, s: S, actions: seq<A>): (r: seq<Notification<S, X>>)
    ensures |r| <= |actions|
    decreases |actions|
  {
    if actions == [] then []
    else match mutator(s, actions[0], s)
      case Ok(next) => [Next(next)] + Feedback(mutator, next, actions[1..])
      case Err(x) => [Failure(x)]
  }

  /** The trace the operator sees in that loop: each action, then the state it produced. */
  function FeedbackEvents<S, A, X>(mutator: (S, A, S) -> Result<S, X>, s: S, actions: seq<A>): seq<Event<S, A>>
    decreases |actions|
  {
    if actions == [] then []
    else match mutator(s, actions[0], s)
      case Ok(next) => [ActionEmitted(actions[0]), StateEmitted(next)] + FeedbackEvents(mutator, next, actions[1..])
      case Err(_) => [ActionEmitted(actions[0])]
  }

  /** The loop is consistent: on the seeded trace the operator emits exactly the states that
      were fed back. */
  lemma {:induction false} FeedbackLoopConsistent<S, A, X>(mutator: (S, A, S) -> Result<S, X>, s: S, actions: seq<A>)
    ensures ApplyMutatorAsReducer(mutator, [StateEmitted(s)] + FeedbackEvents(mutator, s, actions))
            == Feedback(mutator, s, actions)
    decreases |actions|
  {
    var events := FeedbackEvents(mutator, s, actions);
    assert ([StateEmitted(s)] + events)[1..] == events;
    if actions != [] {
      var a := actions[0];
      match mutator(s, a, s)
      case Ok(next) =>
        var rest := FeedbackEvents(mutator, next, actions[1..]);
        var seeded := [StateEmitted(next)] + rest;
        assert events == [ActionEmitted(a)] + seeded;
        assert Reduce(mutator, Some(s), events) == [Next(next)] + Reduce(mutator, Some(s), seeded);
        assert seeded[1..] == rest;
        assert Reduce(mutator, Some(s), seeded) == Reduce(mutator, Some(next), rest) == Reduce(mutator, None, seeded);
        FeedbackLoopConsistent(mutator, next, actions[1..]);
      case Err(x) =>
        assert events == [ActionEmitted(a)];
        assert Reduce(mutator, Some(s), events) == [Failure(x)];
    }
  }

  /** A running fold: the states a total reducer goes through. */
  function Scan<S, A>(step: (S, A) -> S, s: S, actions: seq<A>): (r: seq<S>)
    ensures |r| == |actions|
    decreases |actions|
  {
    if actions == [] then [] else [step(s, actions[0])] + Scan(step, step(s, actions[0]), actions[1..])
  }

  function Nexts<S, X>(states: seq<S>): seq<Notification<S, X>>
  {
    seq(|states|, i requires 0 <= i < |states| => Next(states[i]))
  }

  /** A mutator that never throws makes `state$` run through the running fold of its step. */
  lemma {:induction false} FeedbackIsRunningFold<S, A, X>(step: (S, A) -> S, s: S, actions: seq<A>)
    ensures Feedback((d: S, a: A, st: S) => Ok(step(st, a)), s, actions) == Nexts<S, X>(Scan(step, s, actions))
    decreases |actions|
  {
    if actions != [] {
      FeedbackIsRunningFold<S, A, X>(step, step(s, actions[0]), actions[1..]);
    }
  }

  /** The n-th state depends only on the seed and the first n actions. */
  lemma {:induction false} ScanPrefix<S, A>(step: (S, A) -> S, s: S, actions: seq<A>, n: nat)
    requires n <= |actions|
    ensures Scan(step, s, actions[..n]) == Scan(step, s, actions)[..n]
    decreases n
  {
    if n > 0 {
      assert actions[..n][1..] == actions[1..][..n - 1];
      ScanPrefix(step, step(s, actions[0]), actions[1..], n - 1);
    }
  }

  /** The counter mutator the operator's tests use: `inc`, `dec`, `reset` to `initial`, and any
      other action throws `invalid action`. */
  function Counter(initial: int): (int, string, int) -> Result<int, string>
  {
    (draft: int, action: string, state: int) =>
      if action == "inc" then Ok(draft + 1)
      else if action == "dec" then Ok(draft - 1)
      else if action == "reset" then Ok(initial)
      else Err("invalid action")
  }

  /** The counter marble case: `-iii-dd-r-i` drives `state$` through `0123-21-0-1`; an unknown
      action ends the stream with the error. */
  lemma CounterMarbles()
    ensures Feedback(Counter(0), 0, ["inc", "inc", "inc", "dec", "dec", "reset", "inc"])
            == [Next(1), Next(2), Next(3), Next(2), Next(1), Next(0), Next(1)]
    ensures Feedback(Counter(0), 0, ["inc", "jump", "inc"]) == [Next(1), Failure("invalid action")]
  {
  }

  // ---------------------------------------------------------------------------
  // distinctMap: `map(project)` then `distinct()`

  /** `map(project)`, whose index counts the values seen by this subscription. */
  function Project<T, R(==)>(project: (T, nat) -> R, xs: seq<T>): seq<R>
  {
    seq(|xs|, i requires 0 <= i < |xs| => project(xs[i], i))
  }

  /** `distinct()`: `seen` is the operator's set of values already let through. */
  function DistinctFrom<R(==)>(seen: set<R>, ys: seq<R>): seq<R>
    decreases |ys|
  {
    if ys == [] then []
    else if ys[0] in seen then DistinctFrom(seen, ys[1..])
    else [ys[0]] + DistinctFrom(seen + {ys[0]}, ys[1..])
  }

  function DistinctMap<T, R(==)>(project: (T, nat) -> R, xs: seq<T>): seq<R>
  {
    DistinctFrom({}, Project(project, xs))
  }

  /** The reference: the first occurrence of each value, in order. */
  function FirstOccurrences<R(==)>(ys: seq<R>): seq<R>
  {
    if ys == [] then []
    else
      var init := ys[..|ys| - 1];
      FirstOccurrences(init) + (if ys[|ys| - 1] in init then [] else [ys[|ys| - 1]])
  }

  function Elements<R(==)>(ys: seq<R>): set<R>
  {
    set y | y in ys
  }

  predicate NoDuplicates<R(==)>(ys: seq<R>)
  {
    forall i, j :: 0 <= i < j < |ys| ==> ys[i] != ys[j]
  }

  lemma {:induction false} DistinctFromTracksFirst<R>(p: seq<R>, s: seq<R>)
    ensures FirstOccurrences(p) + DistinctFrom(Elements(p), s) == FirstOccurrences(p + s)
    decreases |s|
  {
    if s == [] {
      assert p + s == p;
    } else {
      var p' := p + [s[0]];
      assert p'[..|p|] == p;
      assert Elements(p') == Elements(p) + {s[0]};
      assert s[0] in Elements(p) <==> s[0] in p;
      assert FirstOccurrences(p') == FirstOccurrences(p) + (if s[0] in p then [] else [s[0]]);
      if s[0] in p {
        assert Elements(p') == Elements(p);
      }
      DistinctFromTracksFirst(p', s[1..]);
      assert p' + s[1..] == p + s;
    }
  }

  /** `distinct()` lets through exactly the first occurrence of each value. */
  lemma DistinctMapIsFirstOccurrences<T, R>(project: (T, nat) -> R, xs: seq<T>)
    ensures DistinctMap(project, xs) == FirstOccurrences(Project(project, xs))
  {
    var ys := Project(project, xs);
    var none: seq<R> := [];
    assert Elements(none) == {};
    DistinctFromTracksFirst(none, ys);
    assert [] + ys == ys;
  }

  lemma {:induction false} FirstOccurrencesExact<R>(ys: seq<R>)
    ensures NoDuplicates(FirstOccurrences(ys))
    ensures forall y :: y in FirstOccurrences(ys) <==> y in ys
    decreases |ys|
  {
    if ys != [] {
      var init := ys[..|ys| - 1];
      FirstOccurrencesExact(init);
      assert ys == init + [ys[|ys| - 1]];
    }
  }

  /** Every projected value is emitted exactly once, and nothing else is. */
  lemma DistinctMapEmitsEachValueOnce<T, R>(project: (T, nat) -> R, xs: seq<T>)
    ensures NoDuplicates(DistinctMap(project, xs))
    ensures forall y :: y in DistinctMap(project, xs) <==> exists i :: 0 <= i < |xs| && project(xs[i], i) == y
  {
    DistinctMapIsFirstOccurrences(project, xs);
    var ys := Project(project, xs);
    FirstOccurrencesExact(ys);
    forall y ensures y in ys <==> exists i :: 0 <= i < |xs| && project(xs[i], i) == y {
      if y in ys {
        var i :| 0 <= i < |ys| && ys[i] == y;
        assert project(xs[i], i) == y;
      }
      if exists i :: 0 <= i < |xs| && project(xs[i], i) == y {
        var i :| 0 <= i < |xs| && project(xs[i], i) == y;
        assert ys[i] == y;
      }
    }
  }
}
