/**
 * The older `isEqual` / `shallowEqual` / `deepEqual` of src/index.tsx.
 *
 * It differs from the current helper: it starts with an identity test, treats
 * null and undefined as unequal, has no primitive short-circuit (a string,
 * number or boolean `obj1` falls through to the `Object.keys` loop) and visits
 * only `obj1`'s keys. Because a one-character string's only key "0" reads the
 * same string again, the deep comparison need not terminate; the model bounds
 * the recursion depth by `depth`, the call stack left, and answers `None` when
 * the stack runs out (the RangeError JavaScript would throw).
 */
module LegacyEquality {
  import opened Wrappers
  import opened Equality

  function LegacyIsEqual(a: Value, b: Value, deep: bool, depth: nat): Option<bool>
    decreases depth, 2, 0
  {
    if a == b then Some(true)
    else if IsNullish(a) || IsNullish(b) then Some(false)
    else if a.Arr? then
      if !b.Arr? then Some(false)
      else if |a.elems| != |b.elems| then Some(false)
      else LegacyElementsFrom(a, b, 0, deep, depth)
    else LegacyKeysFrom(a, b, OwnKeys(a), 0, deep, depth)
  }

  /** One member comparison: a recursive call when deep (one stack frame), identity otherwise. */
  function LegacyCompare(x: Value, y: Value, deep: bool, depth: nat): Option<bool>
    decreases depth, 0, 0
  {
    if !deep then Some(x == y)
    else if depth == 0 then None
    else LegacyIsEqual(x, y, true, depth - 1)
  }

  function LegacyElementsFrom(a: Value, b: Value, i: nat, deep: bool, depth: nat): Option<bool>
    requires a.Arr? && b.Arr? && |a.elems| == |b.elems| && i <= |a.elems|
    decreases depth, 1, |a.elems| - i
  {
    if i == |a.elems| then Some(true)
    else match LegacyCompare(a.elems[i], b.elems[i], deep, depth)
      case None => None
      case Some(same) => if !same then Some(false) else LegacyElementsFrom(a, b, i + 1, deep, depth)
  }

  /** The loop over `Object.keys(obj1)`, reading `obj1[key]` and `obj2[key]`. */
  function LegacyKeysFrom(a: Value, b: Value, keys: seq<string>, i: nat, deep: bool, depth: nat): Option<bool>
    requires i <= |keys|
    decreases depth, 1, |keys| - i
  {
    if i == |keys| then Some(true)
    else match LegacyCompare(Member(a, keys[i]), Member(b, keys[i]), deep, depth)
      case None => None
      case Some(same) => if !same then Some(false) else LegacyKeysFrom(a, b, keys, i + 1, deep, depth)
  }

  // ---------------------------------------------------------------------------
  // Properties

  lemma {:induction false} LegacyElementsShallowAnswer(a: Value, b: Value, i: nat, depth: nat)
    requires a.Arr? && b.Arr? && |a.elems| == |b.elems| && i <= |a.elems|
    ensures LegacyElementsFrom(a, b, i, false, depth).Some?
    decreases |a.elems| - i
  {
    if i < |a.elems| {
      LegacyElementsShallowAnswer(a, b, i + 1, depth);
    }
  }

  lemma {:induction false} LegacyKeysShallowAnswer(a: Value, b: Value, keys: seq<string>, i: nat, depth: nat)
    requires i <= |keys|
    ensures LegacyKeysFrom(a, b, keys, i, false, depth).Some?
    decreases |keys| - i
  {
    if i < |keys| {
      LegacyKeysShallowAnswer(a, b, keys, i + 1, depth);
    }
  }

  /** The shallow comparison never recurses, so it always answers, whatever stack is left. */
  lemma LegacyShallowAlwaysAnswers(a: Value, b: Value, depth: nat)
    ensures LegacyIsEqual(a, b, false, depth).Some?
  {
    if a.Arr? && b.Arr? && |a.elems| == |b.elems| {
      LegacyElementsShallowAnswer(a, b, 0, depth);
    }
    LegacyKeysShallowAnswer(a, b, OwnKeys(a), 0, depth);
  }

  /** Identical values are equal; when exactly one side is null or undefined the answer is
      false, so null against undefined is false here (the current helper says true). */
  lemma LegacyIdentityAndNullish(a: Value, b: Value, deep: bool, depth: nat)
    ensures a == b ==> LegacyIsEqual(a, b, deep, depth) == Some(true)
    ensures a != b && (IsNullish(a) || IsNullish(b)) ==> LegacyIsEqual(a, b, deep, depth) == Some(false)
    ensures LegacyIsEqual(Null, Undefined, deep, depth) == Some(false) && IsEqual(Null, Undefined, deep)
  {
  }

  lemma {:induction false} LegacyKeysAllMatch(a: Value, b: Value, keys: seq<string>, i: nat, depth: nat)
    requires i <= |keys|
    requires forall j :: i <= j < |keys| ==> Member(a, keys[j]) == Member(b, keys[j])
    ensures LegacyKeysFrom(a, b, keys, i, false, depth) == Some(true)
    decreases |keys| - i
  {
    if i < |keys| {
      LegacyKeysAllMatch(a, b, keys, i + 1, depth);
    }
  }

  /** Only `obj1`'s keys are visited: an `obj2` holding every property of `obj1` and more
      still compares (shallow-)equal, where the current helper answers false. */
  lemma LegacyIgnoresExtraKeys(a: Value, b: Value, depth: nat)
    requires a.Obj? && b.Obj? && DistinctKeys(a.props)
    requires forall i :: 0 <= i < |a.props| ==> Lookup(b.props, a.props[i].key) == a.props[i].val
    ensures LegacyIsEqual(a, b, false, depth) == Some(true)
    ensures |b.props| > |a.props| ==> !IsEqual(a, b, false)
  {
    var keys := OwnKeys(a);
    forall j | 0 <= j < |keys| ensures Member(a, keys[j]) == Member(b, keys[j]) {
      LookupOwnKey(a.props, j);
    }
    if a != b {
      LegacyKeysAllMatch(a, b, keys, 0, depth);
    }
  }

  /** A number, boolean, bigint, function or symbol has no enumerable keys, so against any
      other non-null value the loop visits nothing and answers true: `isEqual(1, 2)` is true. */
  lemma LegacyKeylessValuesAlwaysEqual(a: Value, b: Value, deep: bool)
    requires a.Num? || a.Bool? || a.BigInt? || a.Func? || a.Sym?
    requires !IsNullish(b)
    ensures forall depth :: LegacyIsEqual(a, b, deep, depth) == Some(true)
    ensures LegacyIsEqual(Num(1), Num(2), deep, 0) == Some(true) && !IsEqual(Num(1), Num(2), deep)
  {
  }

  lemma {:induction false} IndexOfIsLeast(key: string, from: nat, n: nat, i: nat)
    requires from <= i < n && IndexKey(i) == key
    ensures IndexOf(key, from, n) <= i
    decreases n - from
  {
    if from < i && IndexKey(from) != key {
      IndexOfIsLeast(key, from + 1, n, i);
    }
  }

  lemma {:induction false} IndexOfWiderRange(key: string, from: nat, n: nat, m: nat)
    requires from <= n <= m && IndexOf(key, from, n) < n
    ensures IndexOf(key, from, m) == IndexOf(key, from, n)
    decreases n - from
  {
    if IndexKey(from) != key {
      IndexOfWiderRange(key, from + 1, n, m);
    }
  }

  /** Strings fall into the key loop too; when `obj1` is a prefix of `obj2` every index of
      `obj1` reads the same character in both, so `isEqual('a', 'ab')` is true. */
  lemma LegacyStringPrefixEqual(s: string, t: string, depth: nat)
    requires |s| < |t| && s == t[..|s|]
    ensures LegacyIsEqual(Str(s), Str(t), false, depth) == Some(true)
    ensures !IsEqual(Str(s), Str(t), false)
  {
    var keys := OwnKeys(Str(s));
    forall j | 0 <= j < |keys| ensures Member(Str(s), keys[j]) == Member(Str(t), keys[j]) {
      IndexKeysAt(|s|, j);
      IndexOfIsLeast(keys[j], 0, |s|, j);
      IndexOfWiderRange(keys[j], 0, |s|, |t|);
    }
    LegacyKeysAllMatch(Str(s), Str(t), keys, 0, depth);
  }

  lemma {:induction false} IndexKeysAt(n: nat, j: nat)
    requires j < n
    ensures IndexKeys(n)[j] == IndexKey(j)
  {
    if j < n - 1 {
      IndexKeysAt(n - 1, j);
    }
  }

  /** Two different one-character strings: the only key "0" reads each string back, and the
      deep comparison calls itself on the same pair until the stack is exhausted. */
  lemma {:induction false} LegacyDeepEqualDivergesOnStrings(c: char, d: char, depth: nat)
    requires c != d
    ensures LegacyIsEqual(Str([c]), Str([d]), true, depth) == None
    ensures LegacyIsEqual(Str([c]), Str([d]), false, depth) == Some(false)
    ensures !IsEqual(Str([c]), Str([d]), true)
  {
    var a, b := Str([c]), Str([d]);
    assert IndexKey(0) == "0";
    assert OwnKeys(a) == ["0"];
    assert Member(a, "0") == a && Member(b, "0") == b;
    assert LegacyIsEqual(a, b, false, depth) == LegacyKeysFrom(a, b, ["0"], 0, false, depth);
    assert LegacyCompare(a, b, false, depth) == Some(false);
    assert LegacyIsEqual(a, b, true, depth) == LegacyKeysFrom(a, b, ["0"], 0, true, depth);
    if depth > 0 {
      LegacyDeepEqualDivergesOnStrings(c, d, depth - 1);
      assert LegacyCompare(a, b, true, depth) == None;
    }
  }
}
