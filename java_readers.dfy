/**
 * The Java side of the member readers: methods grouped into a hash map by
 * name, fields into a hash map where the last public field of a name wins,
 * and the constructors, which both sides read alike.
 */
module JavaReaders {
  import opened Types
  import opened Seqs
  import opened Readers

  // ---------------------------------------------------------------------
  // Methods
  // ---------------------------------------------------------------------

  /** The Java reader's modifier list: `static`, then `final`, then `default`, each only when set. */
  function ClassMethodModifiers(isStatic: bool, isFinal: bool, isDefault: bool): seq<Modifier> {
    (if isStatic then [Static] else []) + (if isFinal then [Final] else []) + (if isDefault then [Default] else [])
  }

  /** Each modifier is listed exactly when set, once, and in the order `static`, `final`, `default`. */
  lemma ClassMethodModifiersSpec(isStatic: bool, isFinal: bool, isDefault: bool)
    ensures var r := ClassMethodModifiers(isStatic, isFinal, isDefault);
      && (Static in r <==> isStatic)
      && (Final in r <==> isFinal)
      && (Default in r <==> isDefault)
      && |r| == (if isStatic then 1 else 0) + (if isFinal then 1 else 0) + (if isDefault then 1 else 0)
      && (isStatic ==> r[0] == Static)
      && (isFinal ==> r[if isStatic then 1 else 0] == Final)
      && (isDefault ==> r[|r| - 1] == Default)
  {
  }

  /** The descriptor the Java reader builds for one method. */
  function ClassMethodOf(m: ReflectedMethod): JavaMethod {
    JavaMethod(m.name, ClassMethodModifiers(m.isStatic, m.isFinal, m.isDefault), m.parameterTypes, m.returnType)
  }

  /** The public methods as the Java reader describes them, in reflection order. */
  function PublicClassMethods(ms: seq<ReflectedMethod>): seq<JavaMethod> {
    Filtered(IsPublicMethod, ClassMethodOf, ms)
  }

  /** A hash map from method name to overloads, built by adding the methods one after another. */
  function GroupsByName(xs: seq<JavaMethod>): map<string, seq<JavaMethod>>
    decreases |xs|
  {
    if |xs| == 0 then map[]
    else
      var m := GroupsByName(xs[..|xs| - 1]);
      var v := xs[|xs| - 1];
      m[v.name := (if v.name in m then m[v.name] else []) + [v]]
  }

  /**
   * The map has a key for every method name and no other, and the list under
   * a name holds the methods of that name, in the order they were added.
   */
  lemma GroupsByNameSpec(xs: seq<JavaMethod>)
    ensures GroupsByName(xs).Keys == set x | x in xs :: x.name
    ensures forall k :: k in GroupsByName(xs) ==> GroupsByName(xs)[k] == WithName(xs, k)
  {
    GroupsByNameKeys(xs);
    GroupsByNameValues(xs);
  }

  lemma {:induction false} GroupsByNameKeys(xs: seq<JavaMethod>)
    ensures GroupsByName(xs).Keys == set x | x in xs :: x.name
    decreases |xs|
  {
    if |xs| > 0 {
      var p := xs[..|xs| - 1];
      var v := xs[|xs| - 1];
      assert xs == p + [v];
      GroupsByNameKeys(p);
      assert (set x | x in xs :: x.name) == (set x | x in p :: x.name) + {v.name};
    }
  }

  lemma {:induction false} GroupsByNameValues(xs: seq<JavaMethod>)
    ensures forall k :: k in GroupsByName(xs) ==> GroupsByName(xs)[k] == WithName(xs, k)
    decreases |xs|
  {
    if |xs| > 0 {
      var p := xs[..|xs| - 1];
      var v := xs[|xs| - 1];
      assert xs == p + [v];
      GroupsByNameValues(p);
      var m := GroupsByName(p);
      forall k | k in GroupsByName(xs) ensures GroupsByName(xs)[k] == WithName(xs, k) {
        WithNameSnoc(p, v, k);
        if k == v.name && v.name !in m {
          GroupsByNameKeys(p);
          NoNameNoMethods(p, v.name);
        }
      }
    }
  }

  lemma {:induction false} NoNameNoMethods(xs: seq<JavaMethod>, name: string)
    requires name !in set x | x in xs :: x.name
    ensures WithName(xs, name) == []
    decreases |xs|
  {
    if |xs| > 0 {
      assert xs[0] in xs;
      assert (set x | x in xs[1..] :: x.name) <= (set x | x in xs :: x.name);
      NoNameNoMethods(xs[1..], name);
    }
  }

  /** `ClassMethod.readMethods`: skip the non-public methods and add the rest to the list under their name. */
  method ReadClassMethods(ms: seq<ReflectedMethod>) returns (methods: map<string, seq<JavaMethod>>)
    ensures methods == GroupsByName(PublicClassMethods(ms))
  {
    methods := map[];
    var i := 0;
    while i < |ms|
      invariant 0 <= i <= |ms|
      invariant methods == GroupsByName(PublicClassMethods(ms[..i]))
    {
      var method_ := ms[i];
      if !method_.isPublic {
        ReadClassMethodStep(ms, i, methods, methods);
        i := i + 1;
        continue;
      }
      var mods := ReadClassMethodModifiers(method_);
      var m := JavaMethod(method_.name, mods, method_.parameterTypes, method_.returnType);
      assert m == ClassMethodOf(method_);
      ghost var before := methods;
      if method_.name in methods {
        methods := methods[method_.name := methods[method_.name] + [m]];
      } else {
        methods := methods[method_.name := [m]];
      }
      ReadClassMethodStep(ms, i, before, methods);
      i := i + 1;
    }
    assert ms[..i] == ms;
  }

  /** The modifier list `readMethods` collects for one method: `static`, `final`, then `default`. */
  method ReadClassMethodModifiers(method_: ReflectedMethod) returns (mods: seq<Modifier>)
    ensures mods == ClassMethodModifiers(method_.isStatic, method_.isFinal, method_.isDefault)
  {
    mods := [];
    if method_.isStatic {
      mods := mods + [Static];
    }
    if method_.isFinal {
      mods := mods + [Final];
    }
    if method_.isDefault {
      mods := mods + [Default];
    }
  }

  /** Reading one more method adds it to the list under its name exactly when it is public. */
  lemma ReadClassMethodStep(ms: seq<ReflectedMethod>, i: nat, before: map<string, seq<JavaMethod>>,
                            after: map<string, seq<JavaMethod>>)
    requires i < |ms| && before == GroupsByName(PublicClassMethods(ms[..i]))
    requires !ms[i].isPublic ==> after == before
    requires ms[i].isPublic && ms[i].name in before ==>
      after == before[ms[i].name := before[ms[i].name] + [ClassMethodOf(ms[i])]]
    requires ms[i].isPublic && ms[i].name !in before ==> after == before[ms[i].name := [ClassMethodOf(ms[i])]]
    ensures after == GroupsByName(PublicClassMethods(ms[..i + 1]))
  {
    var prev := PublicClassMethods(ms[..i]);
    var m := ClassMethodOf(ms[i]);
    TakeSnoc(ms, i);
    FilteredSnoc(IsPublicMethod, ClassMethodOf, ms[..i], ms[i]);
    if ms[i].isPublic {
      assert PublicClassMethods(ms[..i + 1]) == prev + [m];
      assert (prev + [m])[..|prev + [m]| - 1] == prev;
      assert (prev + [m])[|prev + [m]| - 1] == m;
      if m.name !in before {
        assert [] + [m] == [m];
      }
    } else {
      assert PublicClassMethods(ms[..i + 1]) == prev;
    }
  }

  // ---------------------------------------------------------------------
  // The two method readers agree up to modifiers
  // ---------------------------------------------------------------------

  /** A method descriptor with its modifier list cleared. */
  function WithoutModifiers(m: JavaMethod): JavaMethod {
    m.(modifiers := [])
  }

  lemma {:induction false} WithNameWithoutModifiers(xs: seq<JavaMethod>, k: string)
    ensures Map(WithoutModifiers, WithName(xs, k)) == WithName(Map(WithoutModifiers, xs), k)
    decreases |xs|
  {
    if |xs| > 0 {
      WithNameWithoutModifiers(xs[1..], k);
      assert Map(WithoutModifiers, xs)[1..] == Map(WithoutModifiers, xs[1..]);
      var head := if xs[0].name == k then [xs[0]] else [];
      assert WithName(xs, k) == head + WithName(xs[1..], k);
      MapAppend(WithoutModifiers, head, WithName(xs[1..], k));
    }
  }

  lemma {:induction false} MapAppend<T, U>(f: T -> U, a: seq<T>, b: seq<T>)
    ensures Map(f, a + b) == Map(f, a) + Map(f, b)
  {
    assert |Map(f, a + b)| == |Map(f, a) + Map(f, b)|;
  }

  lemma {:induction false} ErasedReadersAgree(ms: seq<ReflectedMethod>)
    ensures Map(WithoutModifiers, PublicClassMethods(ms)) == Map(WithoutModifiers, MethodsRead(ms))
    decreases |ms|
  {
    if |ms| > 0 {
      var p := ms[..|ms| - 1];
      var x := ms[|ms| - 1];
      ErasedReadersAgree(p);
      if x.isPublic {
        MapSnoc(WithoutModifiers, PublicClassMethods(p), ClassMethodOf(x));
        MapSnoc(WithoutModifiers, MethodsRead(p), MethodOf(x));
      } else {
        assert PublicClassMethods(ms) == PublicClassMethods(p);
        assert MethodsRead(ms) == MethodsRead(p);
      }
    }
  }

  /** The names of a list of methods. */
  function NameSet(xs: seq<JavaMethod>): set<string> {
    set x | x in xs :: x.name
  }

  /** Sequences equal once the modifiers are cleared hold the same names. */
  lemma ErasedSameNames(a: seq<JavaMethod>, b: seq<JavaMethod>)
    requires Map(WithoutModifiers, a) == Map(WithoutModifiers, b)
    ensures NameSet(a) == NameSet(b)
  {
    forall x | x in a ensures x.name in NameSet(b) {
      var i :| 0 <= i < |a| && a[i] == x;
      assert Map(WithoutModifiers, b)[i].name == x.name;
      assert b[i] in b;
    }
    forall y | y in b ensures y.name in NameSet(a) {
      var i :| 0 <= i < |b| && b[i] == y;
      assert Map(WithoutModifiers, a)[i].name == y.name;
      assert a[i] in a;
    }
  }

  /** The keys of the grouped record are the names of the methods. */
  lemma GroupedNameSet(ts: seq<JavaMethod>)
    ensures (set g | g in Grouped(ts) :: g.name) == NameSet(ts)
  {
    GroupedSpec(ts);
    forall g | g in Grouped(ts) ensures g.name in NameSet(ts) {
      var m := g.overloads[0];
      assert m in ts && m.name == g.name;
    }
    forall x | x in ts ensures x.name in set g | g in Grouped(ts) :: g.name {
      GroupOfMember(ts, x);
    }
  }

  /**
   * The Java reader's map and the TypeScript reader's record have the same
   * keys, and under every key the same overloads in the same order, with the
   * same names, parameter types and return types; they differ only in the
   * modifier lists.
   */
  lemma ReadersAgree(ms: seq<ReflectedMethod>)
    ensures GroupsByName(PublicClassMethods(ms)).Keys == set g | g in Grouped(MethodsRead(ms)) :: g.name
    ensures forall g :: g in Grouped(MethodsRead(ms)) ==>
              Map(WithoutModifiers, GroupsByName(PublicClassMethods(ms))[g.name]) == Map(WithoutModifiers, g.overloads)
  {
    var java := PublicClassMethods(ms);
    var ts := MethodsRead(ms);
    GroupsByNameSpec(java);
    ErasedReadersAgree(ms);
    ErasedSameNames(java, ts);
    GroupedNameSet(ts);
    forall g | g in Grouped(ts)
      ensures Map(WithoutModifiers, GroupsByName(java)[g.name]) == Map(WithoutModifiers, g.overloads)
    {
      var i :| 0 <= i < |Grouped(ts)| && Grouped(ts)[i] == g;
      assert g == GroupOf(ts, g.name);
      WithNameWithoutModifiers(java, g.name);
      WithNameWithoutModifiers(ts, g.name);
    }
  }

  // ---------------------------------------------------------------------
  // Fields
  // ---------------------------------------------------------------------

  /** A hash map from name to field, built by putting every public field in turn. */
  function LastFields(fs: seq<ReflectedField>): map<string, JavaField>
    decreases |fs|
  {
    if |fs| == 0 then map[]
    else
      var m := LastFields(fs[..|fs| - 1]);
      var f := fs[|fs| - 1];
      if f.isPublic then m[f.name := FieldOf(f)] else m
  }

  /** The names of the public fields. */
  function PublicNames(fs: seq<ReflectedField>): set<string> {
    set f | f in fs && f.isPublic :: f.name
  }

  /** Every public field's name is a key of the map, and nothing else is. */
  lemma {:induction false} LastFieldsKeys(fs: seq<ReflectedField>)
    ensures LastFields(fs).Keys == PublicNames(fs)
    decreases |fs|
  {
    if |fs| > 0 {
      var p := fs[..|fs| - 1];
      var f := fs[|fs| - 1];
      assert fs == p + [f];
      LastFieldsKeys(p);
      if f.isPublic {
        assert PublicNames(fs) == PublicNames(p) + {f.name};
      } else {
        assert PublicNames(fs) == PublicNames(p);
      }
    }
  }

  /** Field `j` is public, named `k`, and no later public field is named `k`. */
  predicate IsLastOfName(fs: seq<ReflectedField>, j: nat, k: string)
    requires j < |fs|
  {
    fs[j].isPublic && fs[j].name == k && forall j' :: j < j' < |fs| && fs[j'].isPublic ==> fs[j'].name != k
  }

  /** The value under a name is the last public field of that name: a later field replaces an earlier one. */
  lemma {:induction false} LastFieldsValues(fs: seq<ReflectedField>)
    ensures forall k :: k in LastFields(fs) ==>
              exists j :: 0 <= j < |fs| && IsLastOfName(fs, j, k) && LastFields(fs)[k] == FieldOf(fs[j])
    decreases |fs|
  {
    if |fs| > 0 {
      var p := fs[..|fs| - 1];
      var f := fs[|fs| - 1];
      LastFieldsValues(p);
      forall k | k in LastFields(fs)
        ensures exists j :: 0 <= j < |fs| && IsLastOfName(fs, j, k) && LastFields(fs)[k] == FieldOf(fs[j])
      {
        if f.isPublic && k == f.name {
          assert IsLastOfName(fs, |fs| - 1, k);
        } else {
          assert k in LastFields(p);
          var j :| 0 <= j < |p| && IsLastOfName(p, j, k) && LastFields(p)[k] == FieldOf(p[j]);
          assert IsLastOfName(fs, j, k);
        }
      }
    }
  }

  /** `ClassField.readFields`: put every public field under its name. */
  method ReadClassFields(fs: seq<ReflectedField>) returns (res: map<string, JavaField>)
    ensures res == LastFields(fs)
  {
    res := map[];
    var i := 0;
    while i < |fs|
      invariant 0 <= i <= |fs|
      invariant res == LastFields(fs[..i])
    {
      var field := fs[i];
      assert fs[..i + 1][..i] == fs[..i];
      if !field.isPublic {
        i := i + 1;
        continue;
      }
      var mods := ReadFieldModifiers(field);
      res := res[field.name := JavaField(field.typeName, field.name, mods)];
      i := i + 1;
    }
    assert fs[..i] == fs;
  }
}
