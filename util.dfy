/**
 * Generic helpers of the TypeScript code: the `filter(unique)` idiom that
 * keeps the first occurrence of every value, and the two functions that
 * compare and merge plain option objects.
 */
module Util {

  // ---------------------------------------------------------------------
  // filter(unique)
  // ---------------------------------------------------------------------

  /** `Array.prototype.indexOf`: the first index holding `x`, or -1. */
  function IndexOfValue<T(==)>(s: seq<T>, x: T): (r: int)
    ensures -1 <= r < |s|
    ensures r == -1 <==> x !in s
    ensures r >= 0 ==> s[r] == x && x !in s[..r]
  {
    if |s| == 0 then -1
    else if s[0] == x then 0
    else var k := IndexOfValue(s[1..], x); if k == -1 then -1 else k + 1
  }

  /** The `unique` filter callback: an element survives when its index is the first index of its value. */
  predicate Unique<T(==)>(value: T, index: int, arr: seq<T>) {
    IndexOfValue(arr, value) == index
  }

  /** `array.filter(unique)` restricted to the first `n` positions. */
  function FilterUniqueUpTo<T(==)>(s: seq<T>, n: nat): seq<T>
    requires n <= |s|
  {
    if n == 0 then []
    else FilterUniqueUpTo(s, n - 1) + (if Unique(s[n - 1], n - 1, s) then [s[n - 1]] else [])
  }

  /** `array.filter(unique)`. */
  function FilterUnique<T(==)>(s: seq<T>): seq<T> {
    FilterUniqueUpTo(s, |s|)
  }

  /** No value occurs twice. */
  predicate Distinct<T(==)>(s: seq<T>) {
    forall i, j :: 0 <= i < j < |s| ==> s[i] != s[j]
  }

  lemma UniqueIsFirstOccurrence<T>(s: seq<T>, i: nat)
    requires i < |s|
    ensures Unique(s[i], i, s) <==> s[i] !in s[..i]
  {
    var k := IndexOfValue(s, s[i]);
    assert forall j | 0 <= j < k :: s[j] != s[i] by {
      forall j | 0 <= j < k ensures s[j] != s[i] {
        assert s[..k][j] == s[j];
      }
    }
    if k < i {
      assert s[..i][k] == s[i];
    }
  }

  /** Whether a position survives depends only on the positions before it. */
  lemma {:induction false} FilterUniqueUpToPrefix<T>(s: seq<T>, t: seq<T>, n: nat)
    requires n <= |s| && n <= |t| && s[..n] == t[..n]
    ensures FilterUniqueUpTo(s, n) == FilterUniqueUpTo(t, n)
  {
    if n > 0 {
      assert s[..n - 1] == t[..n - 1] by {
        assert s[..n - 1] == s[..n][..n - 1];
        assert t[..n - 1] == t[..n][..n - 1];
      }
      FilterUniqueUpToPrefix(s, t, n - 1);
      UniqueIsFirstOccurrence(s, n - 1);
      UniqueIsFirstOccurrence(t, n - 1);
      assert s[n - 1] == s[..n][n - 1];
      assert t[n - 1] == t[..n][n - 1];
    }
  }

  /** Appending a value appends it to the result exactly when it is new. */
  lemma FilterUniqueSnoc<T>(s: seq<T>, x: T)
    ensures FilterUnique(s + [x]) == FilterUnique(s) + (if x in s then [] else [x])
  {
    var t := s + [x];
    assert t[..|s|] == s[..|s|];
    FilterUniqueUpToPrefix(t, s, |s|);
    UniqueIsFirstOccurrence(t, |s|);
    assert t[..|s|] == s;
  }

  /**
   * `filter(unique)` keeps exactly the values of its input, each once, in the
   * order of their first occurrences.
   */
  lemma {:induction false} FilterUniqueSpec<T>(s: seq<T>)
    ensures forall x :: x in FilterUnique(s) <==> x in s
    ensures Distinct(FilterUnique(s))
    ensures |FilterUnique(s)| <= |s|
    ensures forall i, j :: 0 <= i < j < |FilterUnique(s)| ==>
              IndexOfValue(s, FilterUnique(s)[i]) < IndexOfValue(s, FilterUnique(s)[j])
  {
    if |s| > 0 {
      var p := s[..|s| - 1];
      var x := s[|s| - 1];
      assert s == p + [x];
      FilterUniqueSpec(p);
      FilterUniqueSnoc(p, x);
      var r := FilterUnique(s);
      forall i, j | 0 <= i < j < |r|
        ensures IndexOfValue(s, r[i]) < IndexOfValue(s, r[j])
      {
        IndexOfValueAppend(p, x, r[i]);
        IndexOfValueAppend(p, x, r[j]);
      }
    }
  }

  lemma {:induction false} IndexOfValueAppend<T>(p: seq<T>, x: T, y: T)
    ensures IndexOfValue(p + [x], y) ==
              if y in p then IndexOfValue(p, y) else if y == x then |p| else -1
  {
    var t := p + [x];
    var r := IndexOfValue(t, y);
    if y in p {
      var k := IndexOfValue(p, y);
      assert t[k] == y && t[..k] == p[..k];
      FirstIndexUnique(t, y, k, r);
    } else if y == x {
      assert t[|p|] == y && t[..|p|] == p;
      FirstIndexUnique(t, y, |p|, r);
    } else {
      assert y !in t;
    }
  }

  /** A value has only one first occurrence. */
  lemma FirstIndexUnique<T>(s: seq<T>, y: T, a: nat, b: nat)
    requires a < |s| && b < |s| && s[a] == y && s[b] == y
    requires y !in s[..a] && y !in s[..b]
    ensures a == b
  {
    assert forall j :: 0 <= j < b ==> s[..b][j] == s[j];
    assert forall j :: 0 <= j < a ==> s[..a][j] == s[j];
  }

  /** On a sequence without duplicates `filter(unique)` changes nothing. */
  lemma {:induction false} FilterUniqueOfDistinct<T>(s: seq<T>)
    requires Distinct(s)
    ensures FilterUnique(s) == s
  {
    if |s| > 0 {
      var p := s[..|s| - 1];
      assert s == p + [s[|s| - 1]];
      assert Distinct(p);
      FilterUniqueOfDistinct(p);
      FilterUniqueSnoc(p, s[|s| - 1]);
    }
  }

  /** `filter(unique)` applied twice is applied once. */
  lemma FilterUniqueIdempotent<T>(s: seq<T>)
    ensures FilterUnique(FilterUnique(s)) == FilterUnique(s)
  {
    FilterUniqueSpec(s);
    FilterUniqueOfDistinct(FilterUnique(s));
  }

  // ---------------------------------------------------------------------
  // Plain objects
  // ---------------------------------------------------------------------

  /** The JavaScript values that appear in generator option objects. */
  datatype JsValue =
    | JsUndefined
    | JsNull
    | JsBool(b: bool)
    | JsNumber(n: int)
    | JsString(s: string)
    | JsObject(fields: map<string, JsValue>)

  /** JavaScript truthiness (`!!v`). */
  predicate Truthy(v: JsValue) {
    match v
    case JsUndefined => false
    case JsNull => false
    case JsBool(b) => b
    case JsNumber(n) => n != 0
    case JsString(s) => s != ""
    case JsObject(_) => true
  }

  /** Property access: a missing key reads as `undefined`. */
  function Get(o: map<string, JsValue>, k: string): JsValue {
    if k in o then o[k] else JsUndefined
  }

  /**
   * `mergeObjects`: one entry per key of the defaults, holding the caller's
   * value when it is truthy and the default otherwise.
   */
  function MergeObjects(obj: map<string, JsValue>, defaultObj: map<string, JsValue>): (r: map<string, JsValue>)
    ensures r.Keys == defaultObj.Keys
    ensures forall k :: k in obj && k !in defaultObj ==> k !in r
    ensures forall k :: k in r && Truthy(Get(obj, k)) ==> r[k] == obj[k]
    ensures forall k :: k in r && !Truthy(Get(obj, k)) ==> r[k] == defaultObj[k]
  {
    map k | k in defaultObj :: if Truthy(Get(obj, k)) then obj[k] else defaultObj[k]
  }

  /** Merging a merged object into the same defaults again changes nothing; so does merging the defaults. */
  lemma MergeObjectsIdempotent(obj: map<string, JsValue>, defaultObj: map<string, JsValue>)
    ensures MergeObjects(MergeObjects(obj, defaultObj), defaultObj) == MergeObjects(obj, defaultObj)
    ensures MergeObjects(defaultObj, defaultObj) == defaultObj
  {
  }

  /** An empty suffix is falsy, so merging `{syncSuffix: ''}` keeps the default suffix `'Sync'`. */
  lemma MergeObjectsEmptySuffix()
    ensures MergeObjects(map["syncSuffix" := JsString("")],
                         map["syncSuffix" := JsString("Sync"), "asyncSuffix" := JsString("")])
            == map["syncSuffix" := JsString("Sync"), "asyncSuffix" := JsString("")]
  {
  }

  /**
   * `deepEquals`: every key of `a` holds an equal value in `b`, comparing two
   * non-null objects key by key and anything else with `===`. Keys that only
   * `b` has are never looked at.
   */
  predicate DeepEquals(a: JsValue, b: JsValue)
    requires a.JsObject? && b.JsObject?
    decreases a
  {
    forall k | k in a.fields ::
      var av := a.fields[k];
      var bv := Get(b.fields, k);
      if av.JsObject? && bv.JsObject? then DeepEquals(av, bv) else av == bv
  }

  /** Every object deep-equals itself. */
  lemma {:induction false} DeepEqualsReflexive(a: JsValue)
    requires a.JsObject?
    ensures DeepEquals(a, a)
    decreases a
  {
    forall k | k in a.fields && a.fields[k].JsObject?
      ensures DeepEquals(a.fields[k], a.fields[k])
    {
      DeepEqualsReflexive(a.fields[k]);
    }
  }

  /** Adding keys that `a` lacks to `b` never changes the answer. */
  lemma DeepEqualsIgnoresExtraKeys(a: JsValue, b: JsValue, extra: map<string, JsValue>)
    requires a.JsObject? && b.JsObject?
    requires forall k :: k in extra ==> k !in a.fields
    ensures DeepEquals(a, b) == DeepEquals(a, JsObject(b.fields + extra))
  {
    var b' := JsObject(b.fields + extra);
    forall k | k in a.fields
      ensures Get(b.fields, k) == Get(b'.fields, k)
    {
    }
  }

  /** The comparison is not symmetric: the empty object deep-equals everything, not conversely. */
  lemma DeepEqualsAsymmetric()
    ensures DeepEquals(JsObject(map[]), JsObject(map["x" := JsNull]))
    ensures !DeepEquals(JsObject(map["x" := JsNull]), JsObject(map[]))
  {
    var a := JsObject(map["x" := JsNull]);
    assert Get(map[], "x") == JsUndefined;
  }
}
