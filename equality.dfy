/**
 * The structural equality helpers `isEqual`, `shallowEqual` and `deepEqual`
 * of src/equal-fns.ts.
 *
 * A JavaScript value is modelled as a `Value`. Numbers are integers (no NaN,
 * no -0). Functions, symbols, arrays and plain objects carry the identity
 * `ref` of the heap cell they live in, so JavaScript's strict equality `===`
 * is Dafny's `==` on `Value`: two primitives are `===` when they are the same
 * primitive, two references when they are the same cell (a well-formed heap
 * never holds two different cells under one `ref`). An object lists its own
 * enumerable string keys in the model's own listing order, which stands for
 * the order of `Object.keys` (integer-like keys first, ascending, then the
 * rest by insertion); `DeepEqualIgnoresKeyOrder` shows the comparison does
 * not depend on it. `Object.keys` never repeats a key, which `WellFormed`
 * states.
 */
module Equality {

  datatype Value =
    | Undefined
    | Null
    | Num(n: int)
    | Str(s: string)
    | BigInt(big: int)
    | Bool(flag: bool)
    | Func(ref: nat)
    | Sym(ref: nat)
    | Arr(ref: nat, elems: seq<Value>)
    | Obj(ref: nat, props: seq<Prop>)

  datatype Prop = Prop(key: string, val: Value)

  /** `typeof v` is one of number, string, bigint, boolean, function, symbol. */
  predicate IsPrimitive(v: Value) {
    v.Num? || v.Str? || v.BigInt? || v.Bool? || v.Func? || v.Sym?
  }

  /** `v == null` (loose equality): null or undefined. */
  predicate IsNullish(v: Value) {
    v.Undefined? || v.Null?
  }

  /** Every object reachable from `v` has pairwise distinct keys. */
  predicate WellFormed(v: Value) {
    match v
    case Arr(_, elems) => forall i :: 0 <= i < |elems| ==> WellFormed(elems[i])
    case Obj(_, props) =>
      DistinctKeys(props) && forall i :: 0 <= i < |props| ==> WellFormed(props[i].val)
    case _ => true
  }

  predicate DistinctKeys(props: seq<Prop>) {
    forall i, j :: 0 <= i < j < |props| ==> props[i].key != props[j].key
  }

  function Digit(d: nat): char
    requires d < 10
  {
    "0123456789"[d]
  }

  /** The canonical decimal string of an array index, as `Object.keys` spells it. */
  function IndexKey(i: nat): string
  {
    if i < 10 then [Digit(i)] else IndexKey(i / 10) + [Digit(i % 10)]
  }

  /** The index keys "0", "1", ..., of an array or string of length `n`. */
  function IndexKeys(n: nat): (r: seq<string>)
    ensures |r| == n
  {
    if n == 0 then [] else IndexKeys(n - 1) + [IndexKey(n - 1)]
  }

  /** The least index `i` in `from..n` whose key is `key`, or `n` if there is none. */
  function IndexOf(key: string, from: nat, n: nat): (i: nat)
    requires from <= n
    ensures from <= i <= n
    ensures i < n ==> IndexKey(i) == key
    decreases n - from
  {
    if from == n then n
    else if IndexKey(from) == key then from
    else IndexOf(key, from + 1, n)
  }

  function PropKeys(props: seq<Prop>): (r: seq<string>)
    ensures |r| == |props|
    ensures forall i :: 0 <= i < |props| ==> r[i] == props[i].key
  {
    if props == [] then [] else [props[0].key] + PropKeys(props[1..])
  }

  /** `Object.keys(v)`: own enumerable keys (inherited prototype members are not modelled). */
  function OwnKeys(v: Value): seq<string>
  {
    match v
    case Obj(_, props) => PropKeys(props)
    case Arr(_, elems) => IndexKeys(|elems|)
    case Str(s) => IndexKeys(|s|)
    case _ => []
  }

  /** The first property named `key`, or undefined when there is none. */
  function Lookup(props: seq<Prop>, key: string): Value
  {
    if props == [] then Undefined
    else if props[0].key == key then props[0].val
    else Lookup(props[1..], key)
  }

  /** `v[key]` for a non-nullish `v`: own properties, array and string indices and `length`;
      every other key reads as undefined. */
  function Member(v: Value, key: string): Value
  {
    match v
    case Obj(_, props) => Lookup(props, key)
    case Arr(_, elems) =>
      var i := IndexOf(key, 0, |elems|);
      if i < |elems| then elems[i]
      else if key == "length" then Num(|elems|)
      else Undefined
    case Str(s) =>
      var i := IndexOf(key, 0, |s|);
      if i < |s| then Str([s[i]])
      else if key == "length" then Num(|s|)
      else Undefined
    case _ => Undefined
  }

  /** How one pair of members is compared: recursively when deep, by identity when shallow. */
  predicate Matches(x: Value, y: Value, deep: bool)
  {
    if deep then IsEqual(x, y, true) else x == y
  }

  /** `isEqual(obj1, obj2, deep)` of src/equal-fns.ts. */
  function IsEqual(a: Value, b: Value, deep: bool): bool
    decreases a, 1, 0
  {
    if IsPrimitive(a) || IsPrimitive(b) then a == b
    else if IsNullish(a) || IsNullish(b) then IsNullish(a) && IsNullish(b)
    else if a.Arr? then
      b.Arr? && |a.elems| == |b.elems| && ElementsEqualFrom(a, b, 0, deep)
    else
      |a.props| == |OwnKeys(b)| && PropsEqualFrom(a, b, 0, deep)
  }

  /** The array loop: elements `i..` match pairwise, stopping at the first mismatch. */
  function ElementsEqualFrom(a: Value, b: Value, i: nat, deep: bool): bool
    requires a.Arr? && b.Arr? && |a.elems| == |b.elems| && i <= |a.elems|
    decreases a, 0, |a.elems| - i
  {
    if i == |a.elems| then true
    else if deep && !IsEqual(a.elems[i], b.elems[i], deep) then false
    else if !deep && a.elems[i] != b.elems[i] then false
    else ElementsEqualFrom(a, b, i + 1, deep)
  }

  /** The object loop over `obj1`'s keys from `i` on, reading each key of `b` with `Member`. */
  function PropsEqualFrom(a: Value, b: Value, i: nat, deep: bool): bool
    requires a.Obj? && i <= |a.props|
    decreases a, 0, |a.props| - i
  {
    if i == |a.props| then true
    else if deep && !IsEqual(a.props[i].val, Member(b, a.props[i].key), deep) then false
    else if !deep && a.props[i].val != Member(b, a.props[i].key) then false
    else PropsEqualFrom(a, b, i + 1, deep)
  }

  function ShallowEqual(a: Value, b: Value): bool { IsEqual(a, b, false) }

  function DeepEqual(a: Value, b: Value): bool { IsEqual(a, b, true) }

  // ---------------------------------------------------------------------------
  // Properties

  /** A number, string, bigint, boolean, function or symbol on either side: equality is identity. */
  lemma PrimitivesCompareByIdentity(a: Value, b: Value, deep: bool)
    requires IsPrimitive(a) || IsPrimitive(b)
    ensures IsEqual(a, b, deep) <==> a == b
  {
  }

  /** null and undefined are equal to each other and to nothing else. */
  lemma NullishCompareLoosely(a: Value, b: Value, deep: bool)
    requires IsNullish(a) || IsNullish(b)
    ensures IsEqual(a, b, deep) <==> IsNullish(a) && IsNullish(b)
  {
  }

  lemma {:induction false} ElementsEqualFromIff(a: Value, b: Value, i: nat, deep: bool)
    requires a.Arr? && b.Arr? && |a.elems| == |b.elems| && i <= |a.elems|
    ensures ElementsEqualFrom(a, b, i, deep)
        <==> forall j :: i <= j < |a.elems| ==> Matches(a.elems[j], b.elems[j], deep)
    decreases |a.elems| - i
  {
    if i < |a.elems| {
      ElementsEqualFromIff(a, b, i + 1, deep);
    }
  }

  /** An array equals `b` iff `b` is an array of the same length whose elements match pairwise. */
  lemma ArraysEqualIff(a: Value, b: Value, deep: bool)
    requires a.Arr?
    ensures IsEqual(a, b, deep)
        <==> b.Arr? && |a.elems| == |b.elems|
             && forall j :: 0 <= j < |a.elems| ==> Matches(a.elems[j], b.elems[j], deep)
  {
    if b.Arr? && |a.elems| == |b.elems| {
      ElementsEqualFromIff(a, b, 0, deep);
    }
  }

  lemma {:induction false} PropsEqualFromIff(a: Value, b: Value, i: nat, deep: bool)
    requires a.Obj? && i <= |a.props|
    ensures PropsEqualFrom(a, b, i, deep)
        <==> forall j :: i <= j < |a.props| ==> Matches(a.props[j].val, Member(b, a.props[j].key), deep)
    decreases |a.props| - i
  {
    if i < |a.props| {
      PropsEqualFromIff(a, b, i + 1, deep);
    }
  }

  /** A plain object equals an object or array `b` iff both have as many keys and every key
      of the first reads, in `b`, a matching member (undefined when `b` lacks it). */
  lemma ObjectsEqualIff(a: Value, b: Value, deep: bool)
    requires a.Obj? && (b.Obj? || b.Arr?)
    ensures IsEqual(a, b, deep)
        <==> |a.props| == |OwnKeys(b)|
             && forall j :: 0 <= j < |a.props| ==> Matches(a.props[j].val, Member(b, a.props[j].key), deep)
  {
    PropsEqualFromIff(a, b, 0, deep);
  }

  /** Objects with different numbers of keys are never equal: an extra field gives false. */
  lemma ExtraFieldNeverEqual(a: Value, b: Value, deep: bool)
    requires a.Obj? && b.Obj? && |a.props| != |b.props|
    ensures !IsEqual(a, b, deep) && !IsEqual(b, a, deep)
  {
  }

  /** A key `obj2` lacks reads as undefined: `{a: undefined}` equals `{b: undefined}`. */
  lemma MissingKeyReadsUndefined(r1: nat, r2: nat, k1: string, k2: string, deep: bool)
    ensures IsEqual(Obj(r1, [Prop(k1, Undefined)]), Obj(r2, [Prop(k2, Undefined)]), deep)
  {
    var a, b := Obj(r1, [Prop(k1, Undefined)]), Obj(r2, [Prop(k2, Undefined)]);
    assert b.props[1..] == [];
    assert Lookup(b.props, k1) == Undefined by {
      if k2 != k1 {
        assert Lookup(b.props, k1) == Lookup(b.props[1..], k1);
      }
    }
    assert Member(b, k1) == Undefined;
    assert Matches(Undefined, Undefined, deep);
    ObjectsEqualIff(a, b, deep);
  }

  /** The array test is made on `obj1` only: an array never equals a plain object, while a
      plain object may equal an array, e.g. `{"0": 1}` against `[1]`. */
  lemma ArrayCheckIsOneSided(a: Value, b: Value, deep: bool, r1: nat, r2: nat)
    requires a.Arr? && b.Obj?
    ensures !IsEqual(a, b, deep)
    ensures IsEqual(Obj(r1, [Prop("0", Num(1))]), Arr(r2, [Num(1)]), deep)
    ensures !IsEqual(Arr(r2, [Num(1)]), Obj(r1, [Prop("0", Num(1))]), deep)
  {
    var o, x := Obj(r1, [Prop("0", Num(1))]), Arr(r2, [Num(1)]);
    assert IndexKey(0) == "0";
    assert Member(x, "0") == Num(1);
    ObjectsEqualIff(o, x, deep);
  }

  /** With distinct keys, reading a property's own key finds that property. */
  lemma {:induction false} LookupOwnKey(props: seq<Prop>, i: nat)
    requires DistinctKeys(props) && i < |props|
    ensures Lookup(props, props[i].key) == props[i].val
  {
    if i > 0 {
      assert DistinctKeys(props[1..]);
      LookupOwnKey(props[1..], i - 1);
    }
  }

  /** A copy of an object (same keys and members, new identity) is shallow-equal to it. */
  lemma ShallowEqualCopiedObject(r1: nat, r2: nat, props: seq<Prop>)
    requires DistinctKeys(props)
    ensures ShallowEqual(Obj(r1, props), Obj(r2, props))
  {
    forall j | 0 <= j < |props|
      ensures Matches(props[j].val, Member(Obj(r2, props), props[j].key), false)
    {
      LookupOwnKey(props, j);
    }
    ObjectsEqualIff(Obj(r1, props), Obj(r2, props), false);
  }

  /** A copy of an array (`arr.slice()`) is shallow-equal to it. */
  lemma ShallowEqualCopiedArray(r1: nat, r2: nat, elems: seq<Value>)
    ensures ShallowEqual(Arr(r1, elems), Arr(r2, elems))
  {
    ArraysEqualIff(Arr(r1, elems), Arr(r2, elems), false);
  }

  /** On acyclic well-formed values deep equality is reflexive. */
  lemma {:induction false} DeepEqualReflexive(v: Value)
    requires WellFormed(v)
    ensures DeepEqual(v, v)
  {
    match v
    case Arr(_, elems) =>
      forall j | 0 <= j < |elems| ensures Matches(elems[j], elems[j], true) {
        DeepEqualReflexive(elems[j]);
      }
      ArraysEqualIff(v, v, true);
    case Obj(_, props) =>
      forall j | 0 <= j < |props| ensures Matches(props[j].val, Member(v, props[j].key), true) {
        LookupOwnKey(props, j);
        DeepEqualReflexive(props[j].val);
      }
      ObjectsEqualIff(v, v, true);
    case _ =>
  }

  /** Shallow equality implies deep equality. */
  lemma ShallowImpliesDeep(a: Value, b: Value)
    requires WellFormed(a) && ShallowEqual(a, b)
    ensures DeepEqual(a, b)
  {
    if a.Arr? {
      ArraysEqualIff(a, b, false);
      forall j | 0 <= j < |a.elems| ensures Matches(a.elems[j], b.elems[j], true) {
        DeepEqualReflexive(a.elems[j]);
      }
      ArraysEqualIff(a, b, true);
    } else if a.Obj? && (b.Obj? || b.Arr?) {
      ObjectsEqualIff(a, b, false);
      forall j | 0 <= j < |a.props| ensures Matches(a.props[j].val, Member(b, a.props[j].key), true) {
        DeepEqualReflexive(a.props[j].val);
      }
      ObjectsEqualIff(a, b, true);
    }
  }

  /** Key order is irrelevant to deep equality: an object whose properties are those of `a`
      in another order is deep-equal to it. */
  lemma DeepEqualIgnoresKeyOrder(a: Value, b: Value)
    requires a.Obj? && b.Obj? && WellFormed(a) && DistinctKeys(b.props)
    requires |a.props| == |b.props|
    requires forall i :: 0 <= i < |a.props| ==> a.props[i] in b.props
    ensures DeepEqual(a, b)
  {
    forall i | 0 <= i < |a.props| ensures Matches(a.props[i].val, Member(b, a.props[i].key), true) {
      var j :| 0 <= j < |b.props| && b.props[j] == a.props[i];
      LookupOwnKey(b.props, j);
      DeepEqualReflexive(a.props[i].val);
    }
    ObjectsEqualIff(a, b, true);
  }

  /** The nested-object case: `{foo: 1, bar: {typescript: 1, jest: 2}}` against
      `{bar: {jest: 2, typescript: 1}, foo: 1}`, four distinct objects. */
  const NestedLeftInner := Obj(2, [Prop("typescript", Num(1)), Prop("jest", Num(2))])
  const NestedRightInner := Obj(4, [Prop("jest", Num(2)), Prop("typescript", Num(1))])
  const NestedLeft := Obj(1, [Prop("foo", Num(1)), Prop("bar", NestedLeftInner)])
  const NestedRight := Obj(3, [Prop("bar", NestedRightInner), Prop("foo", Num(1))])

  /** The nested-object case is deep-equal but not shallow-equal. */
  lemma ReorderedNestedObjects()
    ensures DeepEqual(NestedLeft, NestedRight) && !ShallowEqual(NestedLeft, NestedRight)
  {
    ReorderedNestedDeep();
    ReorderedNestedShallow();
  }

  lemma ReorderedNestedDeep()
    ensures DeepEqual(NestedLeft, NestedRight)
  {
    ReorderedInnerDeep();
    LookupOwnKey(NestedRight.props, 0);
    LookupOwnKey(NestedRight.props, 1);
    assert Member(NestedRight, "bar") == NestedRightInner && Member(NestedRight, "foo") == Num(1);
    assert Matches(NestedLeft.props[0].val, Member(NestedRight, NestedLeft.props[0].key), true);
    assert Matches(NestedLeft.props[1].val, Member(NestedRight, NestedLeft.props[1].key), true);
    ObjectsEqualIff(NestedLeft, NestedRight, true);
  }

  lemma ReorderedInnerDeep()
    ensures DeepEqual(NestedLeftInner, NestedRightInner)
  {
    var a, b := NestedLeftInner, NestedRightInner;
    assert WellFormed(a) by {
      assert DistinctKeys(a.props);
      assert WellFormed(a.props[0].val) && WellFormed(a.props[1].val);
    }
    assert a.props[0] == b.props[1] && a.props[1] == b.props[0];
    DeepEqualIgnoresKeyOrder(a, b);
  }

  lemma ReorderedNestedShallow()
    ensures !ShallowEqual(NestedLeft, NestedRight)
  {
    LookupOwnKey(NestedRight.props, 0);
    assert Member(NestedRight, "bar") == NestedRightInner;
    assert !Matches(NestedLeft.props[1].val, Member(NestedRight, NestedLeft.props[1].key), false);
    ObjectsEqualIff(NestedLeft, NestedRight, false);
  }
}
