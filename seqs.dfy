/**
 * Sequence helpers shared by the readers and the converters: mapping, and the
 * filter-and-map that every "skip what is not public" loop computes.
 */
module Seqs {

  /** Concatenation regroups freely; stated once so that loops appending to a list need not re-derive it. */
  lemma AppendAssoc<T>(a: seq<T>, b: seq<T>, c: seq<T>)
    ensures a + b + c == a + (b + c)
  {
  }

  /** A prefix grows by the next element; stated once so that loops keeping a ghost copy of the prefix need not re-derive it. */
  lemma TakeSnoc<T>(s: seq<T>, i: nat)
    requires i < |s|
    ensures s[..i + 1] == s[..i] + [s[i]]
  {
  }

  /** `f` applied to every element, in order. */
  function Map<T, U>(f: T -> U, s: seq<T>): (r: seq<U>)
    ensures |r| == |s|
    ensures forall i :: 0 <= i < |s| ==> r[i] == f(s[i])
  {
    if |s| == 0 then [] else [f(s[0])] + Map(f, s[1..])
  }

  lemma MapSnoc<T, U>(f: T -> U, s: seq<T>, x: T)
    ensures Map(f, s + [x]) == Map(f, s) + [f(x)]
  {
    assert |Map(f, s + [x])| == |Map(f, s) + [f(x)]|;
  }

  /** `f(i, s[i])` for every position `i`, in order: a loop that numbers what it converts. */
  function MapIndexed<T, U>(f: (nat, T) -> U, s: seq<T>): (r: seq<U>)
    ensures |r| == |s|
  {
    if |s| == 0 then [] else MapIndexed(f, s[..|s| - 1]) + [f(|s| - 1, s[|s| - 1])]
  }

  lemma MapIndexedSnoc<T, U>(f: (nat, T) -> U, s: seq<T>, i: nat)
    requires i < |s|
    ensures MapIndexed(f, s[..i + 1]) == MapIndexed(f, s[..i]) + [f(i, s[i])]
  {
    assert s[..i + 1][..i] == s[..i];
  }

  lemma {:induction false} MapIndexedSpec<T, U>(f: (nat, T) -> U, s: seq<T>)
    ensures forall i :: 0 <= i < |s| ==> MapIndexed(f, s)[i] == f(i, s[i])
    decreases |s|
  {
    if |s| > 0 {
      var k := |s| - 1;
      MapIndexedSpec(f, s[..k]);
      forall i | 0 <= i < k
        ensures MapIndexed(f, s)[i] == f(i, s[i])
      {
        assert s[..k][i] == s[i];
      }
    }
  }

  /** Two entries per position, `f(i, s[i], false)` then `f(i, s[i], true)`, in order. */
  function Pairs<T, U>(f: (nat, T, bool) -> U, s: seq<T>): (r: seq<U>)
    ensures |r| == 2 * |s|
  {
    if |s| == 0 then [] else Pairs(f, s[..|s| - 1]) + [f(|s| - 1, s[|s| - 1], false), f(|s| - 1, s[|s| - 1], true)]
  }

  lemma PairsSnoc<T, U>(f: (nat, T, bool) -> U, s: seq<T>, i: nat)
    requires i < |s|
    ensures Pairs(f, s[..i + 1]) == Pairs(f, s[..i]) + [f(i, s[i], false), f(i, s[i], true)]
  {
    assert s[..i + 1][..i] == s[..i];
  }

  lemma {:induction false} PairsSpec<T, U>(f: (nat, T, bool) -> U, s: seq<T>)
    ensures forall i :: 0 <= i < |s| ==> Pairs(f, s)[2 * i] == f(i, s[i], false) && Pairs(f, s)[2 * i + 1] == f(i, s[i], true)
    decreases |s|
  {
    if |s| > 0 {
      var k := |s| - 1;
      PairsSpec(f, s[..k]);
      forall i | 0 <= i < |s|
        ensures Pairs(f, s)[2 * i] == f(i, s[i], false) && Pairs(f, s)[2 * i + 1] == f(i, s[i], true)
      {
        if i < k {
          assert s[..k][i] == s[i];
        }
      }
    }
  }

  /**
   * A loop that walks `s` and appends `f(x)` for every element `x` that
   * `keep` accepts: the result after the whole sequence.
   */
  function Filtered<T, U>(keep: T -> bool, f: T -> U, s: seq<T>): (r: seq<U>)
    ensures |r| <= |s|
    decreases |s|
  {
    if |s| == 0 then []
    else Filtered(keep, f, s[..|s| - 1]) + (if keep(s[|s| - 1]) then [f(s[|s| - 1])] else [])
  }

  /** One more element read extends the result by its image exactly when it is kept. */
  lemma FilteredSnoc<T, U>(keep: T -> bool, f: T -> U, s: seq<T>, x: T)
    ensures Filtered(keep, f, s + [x]) == Filtered(keep, f, s) + (if keep(x) then [f(x)] else [])
  {
    assert (s + [x])[..|s|] == s;
  }

  /** Everything in the result is the image of a kept element. */
  lemma {:induction false} FilteredSound<T, U>(keep: T -> bool, f: T -> U, s: seq<T>, y: U)
    requires y in Filtered(keep, f, s)
    ensures exists x :: x in s && keep(x) && y == f(x)
    decreases |s|
  {
    var p := s[..|s| - 1];
    var x := s[|s| - 1];
    assert s == p + [x];
    if y in Filtered(keep, f, p) {
      FilteredSound(keep, f, p, y);
      var z :| z in p && keep(z) && y == f(z);
      assert z in s;
    } else {
      assert x in s;
    }
  }

  /** The image of every kept element is in the result. */
  lemma {:induction false} FilteredComplete<T, U>(keep: T -> bool, f: T -> U, s: seq<T>, x: T)
    requires x in s && keep(x)
    ensures f(x) in Filtered(keep, f, s)
    decreases |s|
  {
    var p := s[..|s| - 1];
    assert s == p + [s[|s| - 1]];
    if x != s[|s| - 1] {
      assert x in p;
      FilteredComplete(keep, f, p, x);
    }
  }

  /** When every element is kept the result is the image of the whole sequence, in order. */
  lemma {:induction false} FilteredAll<T, U>(keep: T -> bool, f: T -> U, s: seq<T>)
    requires forall x :: x in s ==> keep(x)
    ensures Filtered(keep, f, s) == Map(f, s)
    decreases |s|
  {
    if |s| > 0 {
      var p := s[..|s| - 1];
      var x := s[|s| - 1];
      assert s == p + [x];
      FilteredAll(keep, f, p);
      MapSnoc(f, p, x);
    }
  }

  /** The result holds the images of exactly the kept elements. */
  lemma FilteredSpec<T, U>(keep: T -> bool, f: T -> U, s: seq<T>)
    ensures forall y :: y in Filtered(keep, f, s) <==> exists x :: x in s && keep(x) && y == f(x)
  {
    forall y | y in Filtered(keep, f, s) ensures exists x :: x in s && keep(x) && y == f(x) {
      FilteredSound(keep, f, s, y);
    }
    forall y | exists x :: x in s && keep(x) && y == f(x) ensures y in Filtered(keep, f, s) {
      var x :| x in s && keep(x) && y == f(x);
      FilteredComplete(keep, f, s, x);
    }
  }

  /** Filtering the image of a sequence keeps the images of the elements whose image is kept. */
  lemma FilteredMapSpec<T, U, V>(keep: U -> bool, f: U -> V, g: T -> U, s: seq<T>)
    ensures forall y :: y in Filtered(keep, f, Map(g, s)) <==> exists x :: x in s && keep(g(x)) && y == f(g(x))
  {
    var m := Map(g, s);
    forall y | y in Filtered(keep, f, m) ensures exists x :: x in s && keep(g(x)) && y == f(g(x)) {
      FilteredSound(keep, f, m, y);
      var u :| u in m && keep(u) && y == f(u);
      var x := MapSource(g, s, u);
    }
    forall y | exists x :: x in s && keep(g(x)) && y == f(g(x)) ensures y in Filtered(keep, f, m) {
      var x :| x in s && keep(g(x)) && y == f(g(x));
      MapComplete(g, s, x);
      FilteredComplete(keep, f, m, g(x));
    }
  }

  /** An element of an image: the element it is the image of. */
  lemma MapSource<T, U>(g: T -> U, s: seq<T>, u: U) returns (x: T)
    requires u in Map(g, s)
    ensures x in s && u == g(x)
  {
    var m := Map(g, s);
    var k :| 0 <= k < |m| && m[k] == u;
    x := s[k];
  }

  /** The image of every element is in the image of the sequence. */
  lemma MapComplete<T, U>(g: T -> U, s: seq<T>, x: T)
    requires x in s
    ensures g(x) in Map(g, s)
  {
    var k :| 0 <= k < |s| && s[k] == x;
    assert Map(g, s)[k] == g(x);
  }

  /** Filtering a concatenation filters each part, keeping their order. */
  lemma {:induction false} FilteredAppend<T, U>(keep: T -> bool, f: T -> U, a: seq<T>, b: seq<T>)
    ensures Filtered(keep, f, a + b) == Filtered(keep, f, a) + Filtered(keep, f, b)
    decreases |b|
  {
    if |b| == 0 {
      assert a + b == a;
    } else {
      var p := b[..|b| - 1];
      var x := b[|b| - 1];
      assert b == p + [x];
      assert a + b == (a + p) + [x];
      FilteredAppend(keep, f, a, p);
      FilteredSnoc(keep, f, a + p, x);
      FilteredSnoc(keep, f, p, x);
    }
  }
}
