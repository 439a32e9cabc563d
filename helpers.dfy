/**
 * String helpers of the converter: primitive names and their wrappers,
 * simple names, splitting and joining on separators, and the relative
 * module path written into every generated import statement.
 */
module Helpers {
  import opened Wrappers

  /** The eight Java primitive type names. */
  const PRIMITIVES: seq<string> :=
    ["boolean", "byte", "char", "short", "int", "long", "float", "double"]

  predicate IsPrimitive(t: string) {
    t in PRIMITIVES
  }

  /** The `java.lang` wrapper classes of the primitives. */
  const BOXED: seq<string> :=
    ["java.lang.Boolean", "java.lang.Byte", "java.lang.Character", "java.lang.Short",
     "java.lang.Integer", "java.lang.Long", "java.lang.Float", "java.lang.Double"]

  /** The `java.lang` wrapper class of a primitive; every other name is returned as is. */
  function PrimitiveToClassType(t: string): (r: string)
    ensures !IsPrimitive(t) ==> r == t
    ensures IsPrimitive(t) ==> r != t && !IsPrimitive(r) && |r| > 10 && r[..10] == "java.lang."
    ensures IsPrimitive(t) ==> r in BOXED
  {
    match t
    case "boolean" => "java.lang.Boolean"
    case "byte" => "java.lang.Byte"
    case "char" => "java.lang.Character"
    case "short" => "java.lang.Short"
    case "int" => "java.lang.Integer"
    case "long" => "java.lang.Long"
    case "float" => "java.lang.Float"
    case "double" => "java.lang.Double"
    case _ => t
  }

  /** Boxing twice is boxing once, and boxing changes a name exactly when it is primitive. */
  lemma PrimitiveToClassTypeIdempotent(t: string)
    ensures PrimitiveToClassType(PrimitiveToClassType(t)) == PrimitiveToClassType(t)
    ensures PrimitiveToClassType(t) != t <==> IsPrimitive(t)
  {
  }

  /** The Java helper's negated primitive test: false exactly for the eight primitive names. */
  predicate NonPrimitive(t: string) {
    !(t == "boolean" || t == "byte" || t == "char" || t == "short" ||
      t == "int" || t == "long" || t == "float" || t == "double")
  }

  lemma NonPrimitiveIsNotPrimitive(t: string)
    ensures NonPrimitive(t) <==> !IsPrimitive(t)
  {
  }

  /** The Java helper that drops `java.lang.Object`, `void` and `java.lang.Void`. */
  predicate NotObjectOrVoid(t: string) {
    t != "java.lang.Object" && t != "void" && t != "java.lang.Void"
  }

  // ---------------------------------------------------------------------
  // Characters and separators
  // ---------------------------------------------------------------------

  /** JavaScript's `lastIndexOf` for one character: -1 when absent. */
  function LastIndexOf(s: string, c: char): (r: int)
    ensures -1 <= r < |s|
    ensures r == -1 <==> c !in s
    ensures r >= 0 ==> s[r] == c && c !in s[r + 1..]
  {
    if |s| == 0 then -1
    else if s[|s| - 1] == c then |s| - 1
    else LastIndexOf(s[..|s| - 1], c)
  }

  /** JavaScript's `indexOf` for one character: -1 when absent. */
  function IndexOf(s: string, c: char): (r: int)
    ensures -1 <= r < |s|
    ensures r == -1 <==> c !in s
    ensures r >= 0 ==> s[r] == c && c !in s[..r]
  {
    if |s| == 0 then -1
    else if s[0] == c then 0
    else var k := IndexOf(s[1..], c); if k == -1 then -1 else k + 1
  }

  /** The text after the last `.`, or the whole name when it has none. */
  function GetSimpleName(name: string): (r: string)
    ensures '.' !in r
    ensures |r| <= |name| && name[|name| - |r|..] == r
    ensures '.' in name ==> name[|name| - |r| - 1] == '.'
    ensures '.' !in name ==> r == name
  {
    name[LastIndexOf(name, '.') + 1..]
  }

  /** `String.replaceAll(from, to)` for single characters. */
  function ReplaceAll(s: string, from: char, to: char): (r: string)
    ensures |r| == |s|
    ensures forall i :: 0 <= i < |s| ==> r[i] == (if s[i] == from then to else s[i])
  {
    if |s| == 0 then "" else [if s[0] == from then to else s[0]] + ReplaceAll(s[1..], from, to)
  }

  /** Remove every occurrence of a character (`replaceAll('[', '')`). */
  function RemoveAll(s: string, c: char): (r: string)
    ensures c !in r
    ensures |r| <= |s|
    ensures forall x :: x in r ==> x in s
    ensures c !in s ==> r == s
  {
    if |s| == 0 then "" else (if s[0] == c then "" else [s[0]]) + RemoveAll(s[1..], c)
  }

  /** JavaScript's `split` on one separator character: always at least one part. */
  function Split(s: string, sep: char): (r: seq<string>)
    ensures |r| >= 1
    ensures forall i :: 0 <= i < |r| ==> sep !in r[i]
    decreases |s|
  {
    var i := IndexOf(s, sep);
    if i == -1 then [s] else [s[..i]] + Split(s[i + 1..], sep)
  }

  /** JavaScript's `join`: the parts with the separator between neighbours. */
  function Join(parts: seq<string>, sep: string): string
  {
    if |parts| == 0 then ""
    else if |parts| == 1 then parts[0]
    else parts[0] + sep + Join(parts[1..], sep)
  }

  /** Splitting on a character and joining with the same character gives the text back. */
  lemma {:induction false} JoinSplit(s: string, c: char)
    ensures Join(Split(s, c), [c]) == s
    decreases |s|
  {
    var i := IndexOf(s, c);
    if i == -1 {
      assert Split(s, c) == [s];
    } else {
      var rest := s[i + 1..];
      var parts := Split(rest, c);
      assert Split(s, c) == [s[..i]] + parts;
      JoinSplit(rest, c);
      JoinCons(s[..i], parts, [c]);
      SplitAround(s, i);
    }
  }

  /** A text is what comes before position `i`, the character there, and what follows. */
  lemma SplitAround(s: string, i: nat)
    requires i < |s|
    ensures s == s[..i] + [s[i]] + s[i + 1..]
  {
  }

  lemma JoinCons(x: string, r: seq<string>, sep: string)
    requires |r| >= 1
    ensures Join([x] + r, sep) == x + sep + Join(r, sep)
  {
    assert ([x] + r)[1..] == r;
  }

  /** `n` copies of a text; a non-positive count gives the empty text. */
  function Repeat(s: string, n: int): (r: string)
    ensures n > 0 ==> |r| == n * |s|
    decreases if n > 0 then n else 0
  {
    if n <= 0 then "" else s + Repeat(s, n - 1)
  }

  /** Joining `k` empty strings puts `k - 1` separators next to each other. */
  lemma {:induction false} JoinBlanks(k: nat, sep: string)
    ensures Join(seq(k, _ => ""), sep) == Repeat(sep, k - 1)
  {
    if k > 1 {
      JoinBlanks(k - 1, sep);
      assert seq(k, _ => "")[1..] == seq(k - 1, _ => "");
    }
  }

  // ---------------------------------------------------------------------
  // Relative import paths
  // ---------------------------------------------------------------------

  /** The length of the common leading run of segments, counted from `j`. */
  function CommonPrefixFrom(a: seq<string>, b: seq<string>, j: nat): (p: nat)
    requires j <= |a|
    ensures j <= p <= |a| && p <= (if |b| < j then j else |b|)
    ensures forall k :: j <= k < p ==> k < |b| && a[k] == b[k]
    ensures p < |a| ==> p >= |b| || a[p] != b[p]
    decreases |a| - j
  {
    if j < |a| && j < |b| && a[j] == b[j] then CommonPrefixFrom(a, b, j + 1) else j
  }

  /** The segments JavaScript considers truthy: the non-empty ones. */
  function NonEmpty(s: seq<string>): (r: seq<string>)
    ensures |r| <= |s|
    ensures forall x :: x in r ==> x in s && x != ""
  {
    if |s| == 0 then [] else (if s[0] != "" then [s[0]] else []) + NonEmpty(s[1..])
  }

  /**
   * The relative module path from the generated file of class `classname` to that
   * of `importStmt`: drop the common leading segments, walk up once for every
   * leftover segment of the importing class but its file name, then down the
   * target's leftover segments.
   */
  function ImportPath(classname: string, importStmt: string): string
  {
    var a := Split(classname, '.');
    var b := Split(importStmt, '.');
    var p := CommonPrefixFrom(a, b, 0);
    "./" + Repeat("../", |NonEmpty(a[p..])| - 1) + Join(NonEmpty(b[p..]), "/")
  }

  /** The slots of a split name, each still present or already nulled. */
  function Present(s: seq<Option<string>>): (r: seq<string>)
  {
    if |s| == 0 then []
    else (if s[0].Some? && s[0].value != "" then [s[0].value] else []) + Present(s[1..])
  }

  /** Nulling slot `j` of a split name whose first `j` slots are null. */
  lemma NullPrefixStep(a: seq<string>, j: nat)
    requires j < |a|
    ensures NullPrefix(a, j)[j := None] == NullPrefix(a, j + 1)
  {
  }

  /** A split name whose first `j` slots have been set to `null`. */
  function NullPrefix(a: seq<string>, j: nat): (r: seq<Option<string>>)
    ensures |r| == |a|
  {
    seq(|a|, i requires 0 <= i < |a| => if i < j then None else Some(a[i]))
  }

  lemma {:induction false} PresentAppend(x: seq<Option<string>>, y: seq<Option<string>>)
    ensures Present(x + y) == Present(x) + Present(y)
  {
    if |x| > 0 {
      assert (x + y)[1..] == x[1..] + y;
      PresentAppend(x[1..], y);
    } else {
      assert x + y == y;
    }
  }

  lemma {:induction false} PresentLifted(a: seq<string>)
    ensures Present(seq(|a|, i requires 0 <= i < |a| => Some(a[i]))) == NonEmpty(a)
  {
    if |a| > 0 {
      var l := seq(|a|, i requires 0 <= i < |a| => Some(a[i]));
      assert l[1..] == seq(|a[1..]|, i requires 0 <= i < |a[1..]| => Some(a[1..][i]));
      PresentLifted(a[1..]);
    }
  }

  function Nothing(): Option<string> { None }

  lemma {:induction false} PresentNones(n: nat)
    ensures Present(seq(n, _ => Nothing())) == []
  {
    if n > 0 {
      assert seq(n, _ => Nothing())[1..] == seq(n - 1, _ => Nothing());
      PresentNones(n - 1);
    }
  }

  /** What survives the `filter` of a partly nulled split: the non-empty leftover segments. */
  lemma PresentNullPrefix(a: seq<string>, j: nat)
    requires j <= |a|
    ensures Present(NullPrefix(a, j)) == NonEmpty(a[j..])
  {
    var rest := a[j..];
    var lifted := seq(|rest|, i requires 0 <= i < |rest| => Some(rest[i]));
    assert NullPrefix(a, j) == seq(j, _ => Nothing()) + lifted;
    PresentAppend(seq(j, _ => Nothing()), lifted);
    PresentNones(j);
    PresentLifted(rest);
  }

  /**
   * Computes the import path the way the converter does: split both names, null
   * the slots of the common prefix in place, then filter and join what is left.
   */
  method GetImportPath(classname: string, importStmt: string) returns (path: string)
    ensures path == ImportPath(classname, importStmt)
  {
    var a := Split(classname, '.');
    var b := Split(importStmt, '.');
    var thisSplit := new Option<string>[|a|](i requires 0 <= i < |a| => Some(a[i]));
    var importSplit := new Option<string>[|b|](i requires 0 <= i < |b| => Some(b[i]));
    assert thisSplit[..] == NullPrefix(a, 0) by {
      assert forall i :: 0 <= i < |a| ==> thisSplit[i] == Some(a[i]);
    }
    assert importSplit[..] == NullPrefix(b, 0) by {
      assert forall i :: 0 <= i < |b| ==> importSplit[i] == Some(b[i]);
    }
    var j := NullCommonPrefix(thisSplit, importSplit, a, b);
    var thisLeft := thisSplit[..];
    var importLeft := importSplit[..];
    ImportPathOfNulled(classname, importStmt, a, b, j);
    path := "./" + Join(seq(|Present(thisLeft)|, _ => ""), "../") + Join(Present(importLeft), "/");
  }

  /** The `for` loop of `getImportPath`: null both splits slot by slot while they agree. */
  method NullCommonPrefix(thisSplit: array<Option<string>>, importSplit: array<Option<string>>,
                          ghost a: seq<string>, ghost b: seq<string>) returns (j: nat)
    requires thisSplit != importSplit
    requires thisSplit[..] == NullPrefix(a, 0) && importSplit[..] == NullPrefix(b, 0)
    modifies thisSplit, importSplit
    ensures j == CommonPrefixFrom(a, b, 0)
    ensures thisSplit[..] == NullPrefix(a, j) && importSplit[..] == NullPrefix(b, j)
  {
    ghost var p := CommonPrefixFrom(a, b, 0);
    j := 0;
    while j < thisSplit.Length
      invariant 0 <= j <= p
      invariant CommonPrefixFrom(a, b, j) == p
      invariant thisSplit[..] == NullPrefix(a, j)
      invariant importSplit[..] == NullPrefix(b, j)
    {
      if j < importSplit.Length && importSplit[j] == thisSplit[j] {
        NullPrefixStep(a, j);
        NullPrefixStep(b, j);
        thisSplit[j] := None;
        importSplit[j] := None;
      } else {
        break;
      }
      j := j + 1;
    }
  }

  /** The import path read off the two splits once their common prefix has been nulled. */
  lemma ImportPathOfNulled(classname: string, importStmt: string, a: seq<string>, b: seq<string>, p: nat)
    requires Split(classname, '.') == a && Split(importStmt, '.') == b
    requires p <= |a| && CommonPrefixFrom(a, b, 0) == p
    ensures ImportPath(classname, importStmt)
         == "./" + Join(seq(|Present(NullPrefix(a, p))|, _ => ""), "../") + Join(Present(NullPrefix(b, p)), "/")
  {
    PresentNullPrefix(a, p);
    PresentNullPrefix(b, p);
    JoinBlanks(|NonEmpty(a[p..])|, "../");
    ImportPathFrom(classname, importStmt, a, b, p);
  }

  /** Every import path is relative to the importing file's directory. */
  lemma ImportPathIsRelative(classname: string, importStmt: string)
    ensures ImportPath(classname, importStmt)[..2] == "./"
  {
    var a := Split(classname, '.');
    var b := Split(importStmt, '.');
    var p := CommonPrefixFrom(a, b, 0);
    var up := "./" + Repeat("../", |NonEmpty(a[p..])| - 1);
    assert ImportPath(classname, importStmt) == up + Join(NonEmpty(b[p..]), "/");
    assert up[..2] == "./";
  }

  /** A class imported from itself has no leftover segment on either side. */
  lemma ImportPathOfSelf(name: string)
    ensures ImportPath(name, name) == "./"
  {
    var a := Split(name, '.');
    var p := CommonPrefixFrom(a, a, 0);
    assert p == |a|;
    assert a[p..] == [];
  }

  /** Splitting at a first separator peels off the segment before it. */
  lemma {:induction false} SplitCons(x: string, c: char, y: string)
    requires c !in x
    ensures Split(x + [c] + y, c) == [x] + Split(y, c)
  {
    var s := x + [c] + y;
    IndexOfPrefix(x, c, y);
    assert s[..|x|] == x;
    assert s[|x| + 1..] == y;
  }

  lemma {:induction false} IndexOfPrefix(x: string, c: char, y: string)
    requires c !in x
    ensures IndexOf(x + [c] + y, c) == |x|
  {
    var s := x + [c] + y;
    assert s[|x|] == c;
    assert s[..|x|] == x;
  }

  /** A segment: non-empty and free of dots. */
  predicate Segment(x: string) {
    x != "" && '.' !in x
  }

  /** The name made of three segments. */
  function Dotted3(x: string, y: string, z: string): string {
    x + ['.'] + y + ['.'] + z
  }

  lemma Split3(x: string, y: string, z: string)
    requires Segment(x) && Segment(y) && Segment(z)
    ensures Split(Dotted3(x, y, z), '.') == [x, y, z]
  {
    assert Dotted3(x, y, z) == x + ['.'] + (y + ['.'] + z);
    SplitCons(x, '.', y + ['.'] + z);
    SplitCons(y, '.', z);
  }

  lemma Split4(w: string, x: string, y: string, z: string)
    requires Segment(w) && Segment(x) && Segment(y) && Segment(z)
    ensures Split(w + ['.'] + Dotted3(x, y, z), '.') == [w, x, y, z]
  {
    SplitCons(w, '.', Dotted3(x, y, z));
    Split3(x, y, z);
  }

  lemma RepeatOnce(s: string)
    ensures Repeat(s, 1) == s
  {
    assert Repeat(s, 0) == "";
  }

  lemma JoinPair(x: string, y: string, sep: string)
    ensures Join([x, y], sep) == x + sep + y
  {
    assert [x, y][1..] == [y];
  }

  lemma NonEmptyPair(x: string, y: string)
    requires x != "" && y != ""
    ensures NonEmpty([x, y]) == [x, y]
  {
    assert [x, y][1..] == [y];
    assert [y][1..] == [];
  }

  /** The import path once both names are split and their common prefix is known. */
  lemma ImportPathFrom(classname: string, importStmt: string, a: seq<string>, b: seq<string>, p: nat)
    requires Split(classname, '.') == a && Split(importStmt, '.') == b
    requires p <= |a| && p <= |b| && CommonPrefixFrom(a, b, 0) == p
    ensures ImportPath(classname, importStmt) == "./" + Repeat("../", |NonEmpty(a[p..])| - 1) + Join(NonEmpty(b[p..]), "/")
  {
  }

  /**
   * Importing from a sub-package of the importer's package walks down only:
   * `java.util.Iterator` importing `java.util.function.Consumer` gets
   * `./function/Consumer`.
   */
  lemma ImportPathIntoSubpackage(r1: string, r2: string, cls: string, sub: string, target: string)
    requires Segment(r1) && Segment(r2) && Segment(cls) && Segment(sub) && Segment(target)
    requires cls != sub
    ensures ImportPath(Dotted3(r1, r2, cls), r1 + ['.'] + Dotted3(r2, sub, target)) == "./" + (sub + "/" + target)
  {
    var a := [r1, r2, cls];
    var b := [r1, r2, sub, target];
    SubpackageParts(r1, r2, cls, sub, target);
    ImportPathFrom(Dotted3(r1, r2, cls), r1 + ['.'] + Dotted3(r2, sub, target), a, b, 2);
    assert "./" + "" == "./";
  }

  /** The pieces of the path from `r1.r2.cls` into `r1.r2.sub.target`: two shared segments, no step up, two steps down. */
  lemma SubpackageParts(r1: string, r2: string, cls: string, sub: string, target: string)
    requires Segment(r1) && Segment(r2) && Segment(cls) && Segment(sub) && Segment(target)
    requires cls != sub
    ensures var a := [r1, r2, cls];
      var b := [r1, r2, sub, target];
      && Split(Dotted3(r1, r2, cls), '.') == a && Split(r1 + ['.'] + Dotted3(r2, sub, target), '.') == b
      && CommonPrefixFrom(a, b, 0) == 2
      && a[2..] == [cls] && b[2..] == [sub, target]
      && Repeat("../", |NonEmpty([cls])| - 1) == ""
      && Join(NonEmpty([sub, target]), "/") == sub + "/" + target
  {
    Split3(r1, r2, cls);
    Split4(r1, r2, sub, target);
    SharedTwo([r1, r2, cls], [r1, r2, sub, target]);
    NoStepUp(cls);
    TwoStepsDown(sub, target);
  }

  lemma SharedTwo(a: seq<string>, b: seq<string>)
    requires |a| == 3 && |b| == 4 && a[0] == b[0] && a[1] == b[1] && a[2] != b[2]
    ensures CommonPrefixFrom(a, b, 0) == 2
  {
    assert CommonPrefixFrom(a, b, 2) == 2;
  }

  lemma NoStepUp(cls: string)
    requires cls != ""
    ensures Repeat("../", |NonEmpty([cls])| - 1) == ""
  {
    assert NonEmpty([cls]) == [cls];
  }

  lemma TwoStepsDown(sub: string, target: string)
    requires sub != "" && target != ""
    ensures Join(NonEmpty([sub, target]), "/") == sub + "/" + target
  {
    NonEmptyPair(sub, target);
    JoinPair(sub, target, "/");
  }

  /**
   * Importing from a sibling package walks up once, then down:
   * `java.util.Iterator` importing `java.lang.Object` gets `./../lang/Object`.
   */
  lemma ImportPathIntoSibling(r: string, pkg: string, cls: string, other: string, target: string)
    requires Segment(r) && Segment(pkg) && Segment(cls) && Segment(other) && Segment(target)
    requires pkg != other
    ensures ImportPath(Dotted3(r, pkg, cls), Dotted3(r, other, target)) == "./" + "../" + (other + "/" + target)
  {
    var a := [r, pkg, cls];
    var b := [r, other, target];
    Split3(r, pkg, cls);
    Split3(r, other, target);
    assert CommonPrefixFrom(a, b, 0) == 1 by {
      assert CommonPrefixFrom(a, b, 1) == 1;
    }
    assert a[1..] == [pkg, cls];
    NonEmptyPair(pkg, cls);
    assert b[1..] == [other, target];
    NonEmptyPair(other, target);
    JoinPair(other, target, "/");
    RepeatOnce("../");
    ImportPathFrom(Dotted3(r, pkg, cls), Dotted3(r, other, target), a, b, 1);
  }

  // ---------------------------------------------------------------------
  // Java's `convertMap`
  // ---------------------------------------------------------------------

  /**
   * `convertMap`: copy every entry of a map of lists into a new map of
   * arrays; lists and arrays are both sequences here.
   */
  method ConvertMap<T>(m: map<string, seq<T>>) returns (res: map<string, seq<T>>)
    ensures res.Keys == m.Keys
    ensures forall k :: k in res ==> res[k] == m[k]
  {
    res := map[];
    var todo := m.Keys;
    while todo != {}
      invariant todo <= m.Keys
      invariant res.Keys == m.Keys - todo
      invariant forall k :: k in res ==> res[k] == m[k]
      decreases |todo|
    {
      var key :| key in todo;
      res := res[key := m[key]];
      todo := todo - {key};
    }
  }
}
