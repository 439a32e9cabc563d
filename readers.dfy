/**
 * Reading the members of a reflected class into descriptors: public fields
 * (first one of each name), public methods and public constructors, and the
 * grouping of methods into a record keyed by name.
 */
module Readers {
  import opened Types
  import opened Seqs
  import Util

  // ---------------------------------------------------------------------
  // Modifier lists
  // ---------------------------------------------------------------------

  /** A field's modifiers: `static` before `final`, each only when set. */
  function FieldModifiers(isStatic: bool, isFinal: bool): seq<Modifier> {
    (if isStatic then [Static] else []) + (if isFinal then [Final] else [])
  }

  lemma FieldModifiersSpec(isStatic: bool, isFinal: bool)
    ensures var r := FieldModifiers(isStatic, isFinal);
      && (Static in r <==> isStatic)
      && (Final in r <==> isFinal)
      && Default !in r
      && |r| == (if isStatic then 1 else 0) + (if isFinal then 1 else 0)
      && (|r| == 2 ==> r == [Static, Final])
  {
  }

  /** A method's modifiers: `default` before `static`; `final` is never recorded. */
  function MethodModifiers(isDefault: bool, isStatic: bool): seq<Modifier> {
    (if isDefault then [Default] else []) + (if isStatic then [Static] else [])
  }

  lemma MethodModifiersSpec(isDefault: bool, isStatic: bool)
    ensures var r := MethodModifiers(isDefault, isStatic);
      && (Default in r <==> isDefault)
      && (Static in r <==> isStatic)
      && Final !in r
      && |r| == (if isDefault then 1 else 0) + (if isStatic then 1 else 0)
      && (|r| == 2 ==> r == [Default, Static])
  {
  }

  // ---------------------------------------------------------------------
  // Fields
  // ---------------------------------------------------------------------

  /** The `onlyUnique` callback: no earlier field has the same name. */
  predicate FirstOfName(fs: seq<ReflectedField>, k: nat)
    requires k < |fs|
  {
    forall j :: 0 <= j < k ==> fs[j].name != fs[k].name
  }

  /** The first `n` fields filtered by `onlyUnique`, in order. */
  function FirstsOfName(fs: seq<ReflectedField>, n: nat): seq<ReflectedField>
    requires n <= |fs|
  {
    if n == 0 then []
    else FirstsOfName(fs, n - 1) + (if FirstOfName(fs, n - 1) then [fs[n - 1]] else [])
  }

  /** `fields.filter(onlyUnique)`: the first field of every name, in order. */
  function OnlyUnique(fs: seq<ReflectedField>): seq<ReflectedField> {
    FirstsOfName(fs, |fs|)
  }

  /** The filter keeps exactly the fields that come first among those of their name. */
  lemma {:induction false} FirstsOfNameMembers(fs: seq<ReflectedField>, n: nat)
    requires n <= |fs|
    ensures |FirstsOfName(fs, n)| <= n
    ensures forall f :: f in FirstsOfName(fs, n) <==> exists k :: 0 <= k < n && FirstOfName(fs, k) && fs[k] == f
  {
    if n > 0 {
      FirstsOfNameMembers(fs, n - 1);
    }
  }

  /** No two fields of the list share a name. */
  predicate NamesDistinct(s: seq<ReflectedField>) {
    forall i, j :: 0 <= i < j < |s| ==> s[i].name != s[j].name
  }

  /** Appending a field whose name is new keeps the names distinct. */
  lemma NamesDistinctSnoc(s: seq<ReflectedField>, x: ReflectedField)
    requires NamesDistinct(s) && forall f :: f in s ==> f.name != x.name
    ensures NamesDistinct(s + [x])
  {
    var r := s + [x];
    forall i, j | 0 <= i < j < |r| ensures r[i].name != r[j].name {
      assert r[i] == s[i] && s[i] in s;
    }
  }

  /** A name that none of the first `m` fields carries is carried by none of the fields kept from them. */
  lemma {:induction false} KeptAvoidName(fs: seq<ReflectedField>, m: nat, name: string)
    requires m <= |fs| && forall j :: 0 <= j < m ==> fs[j].name != name
    ensures forall f :: f in FirstsOfName(fs, m) ==> f.name != name
  {
    if m > 0 {
      KeptAvoidName(fs, m - 1, name);
    }
  }

  /** No two kept fields share a name. */
  lemma {:induction false} FirstsOfNameDistinct(fs: seq<ReflectedField>, n: nat)
    requires n <= |fs|
    ensures NamesDistinct(FirstsOfName(fs, n))
  {
    if n > 0 {
      FirstsOfNameDistinct(fs, n - 1);
      if FirstOfName(fs, n - 1) {
        KeptAvoidName(fs, n - 1, fs[n - 1].name);
        NamesDistinctSnoc(FirstsOfName(fs, n - 1), fs[n - 1]);
      } else {
        assert FirstsOfName(fs, n) == FirstsOfName(fs, n - 1);
      }
    }
  }

  /**
   * The de-duplication keeps exactly one field per name, the first one, and
   * keeps the input order.
   */
  lemma OnlyUniqueSpec(fs: seq<ReflectedField>)
    ensures |OnlyUnique(fs)| <= |fs|
    ensures forall i, j :: 0 <= i < j < |OnlyUnique(fs)| ==> OnlyUnique(fs)[i].name != OnlyUnique(fs)[j].name
    ensures forall f :: f in OnlyUnique(fs) ==> f in fs
    ensures forall k :: 0 <= k < |fs| ==> exists f :: f in OnlyUnique(fs) && f.name == fs[k].name
    ensures forall k :: 0 <= k < |fs| && FirstOfName(fs, k) ==> fs[k] in OnlyUnique(fs)
  {
    FirstsOfNameMembers(fs, |fs|);
    FirstsOfNameDistinct(fs, |fs|);
    forall k | 0 <= k < |fs| ensures exists f :: f in OnlyUnique(fs) && f.name == fs[k].name {
      var m := FirstNameIndex(fs, k);
      assert fs[m] in OnlyUnique(fs);
    }
  }

  /** The index of the first field that has the same name as field `k`. */
  function FirstNameIndex(fs: seq<ReflectedField>, k: nat): (m: nat)
    requires k < |fs|
    ensures m <= k && fs[m].name == fs[k].name && FirstOfName(fs, m)
  {
    if FirstOfName(fs, k) then k
    else
      var j :| 0 <= j < k && fs[j].name == fs[k].name;
      FirstNameIndex(fs, j)
  }

  /** The descriptor of one reflected field. */
  function FieldOf(f: ReflectedField): JavaField {
    JavaField(f.typeName, f.name, FieldModifiers(f.isStatic, f.isFinal))
  }

  predicate IsPublicField(f: ReflectedField) {
    f.isPublic
  }

  /** What `readFields` returns: the kept fields that are public, as descriptors, in order. */
  function FieldsRead(fs: seq<ReflectedField>): seq<JavaField> {
    Filtered(IsPublicField, FieldOf, OnlyUnique(fs))
  }

  /** Filtering by visibility keeps names pairwise distinct. */
  lemma {:induction false} PublicFieldsDistinct(u: seq<ReflectedField>)
    requires forall i, j :: 0 <= i < j < |u| ==> u[i].name != u[j].name
    ensures var r := Filtered(IsPublicField, FieldOf, u);
      forall i, j :: 0 <= i < j < |r| ==> r[i].name != r[j].name
    decreases |u|
  {
    if |u| > 0 {
      var p := u[..|u| - 1];
      var x := u[|u| - 1];
      assert u == p + [x];
      PublicFieldsDistinct(p);
      FilteredSnoc(IsPublicField, FieldOf, p, x);
      var prev := Filtered(IsPublicField, FieldOf, p);
      var r := Filtered(IsPublicField, FieldOf, u);
      if x.isPublic {
        assert r == prev + [FieldOf(x)];
        forall i, j | 0 <= i < j < |r| ensures r[i].name != r[j].name {
          if j == |r| - 1 {
            assert r[i] in prev;
            FilteredSound(IsPublicField, FieldOf, p, r[i]);
            var z :| z in p && IsPublicField(z) && r[i] == FieldOf(z);
            var k :| 0 <= k < |p| && p[k] == z;
            assert u[k] == z;
          } else {
            assert r[i] == prev[i] && r[j] == prev[j];
          }
        }
      }
    }
  }

  /**
   * `readFields` returns the public ones among the first fields of every
   * name: no name twice, nothing that is not public, nothing public and first
   * of its name left out.
   */
  lemma FieldsReadSpec(fs: seq<ReflectedField>)
    ensures |FieldsRead(fs)| <= |fs|
    ensures forall i, j :: 0 <= i < j < |FieldsRead(fs)| ==> FieldsRead(fs)[i].name != FieldsRead(fs)[j].name
    ensures forall x :: x in FieldsRead(fs) ==> exists f :: f in fs && f.isPublic && x == FieldOf(f)
    ensures forall k :: 0 <= k < |fs| && fs[k].isPublic && FirstOfName(fs, k) ==> FieldOf(fs[k]) in FieldsRead(fs)
  {
    OnlyUniqueSpec(fs);
    var u := OnlyUnique(fs);
    PublicFieldsDistinct(u);
    assert FieldsRead(fs) == Filtered(IsPublicField, FieldOf, u);
    forall x | x in FieldsRead(fs) ensures exists f :: f in fs && f.isPublic && x == FieldOf(f) {
      FilteredSound(IsPublicField, FieldOf, u, x);
      var f :| f in u && IsPublicField(f) && x == FieldOf(f);
      assert f in fs;
    }
    forall k | 0 <= k < |fs| && fs[k].isPublic && FirstOfName(fs, k) ensures FieldOf(fs[k]) in FieldsRead(fs) {
      FilteredComplete(IsPublicField, FieldOf, u, fs[k]);
    }
  }

  /** The modifier list collected for one field: `static`, then `final`. */
  method ReadFieldModifiers(field: ReflectedField) returns (mods: seq<Modifier>)
    ensures mods == FieldModifiers(field.isStatic, field.isFinal)
  {
    mods := [];
    if field.isStatic {
      mods := mods + [Static];
    }
    if field.isFinal {
      mods := mods + [Final];
    }
  }

  /** `readFields`: the loop over the de-duplicated fields. */
  method ReadFields(fs: seq<ReflectedField>) returns (res: seq<JavaField>)
    ensures res == FieldsRead(fs)
  {
    var fields := OnlyUnique(fs);
    res := [];
    var i := 0;
    while i < |fields|
      invariant 0 <= i <= |fields|
      invariant res == Filtered(IsPublicField, FieldOf, fields[..i])
    {
      var field := fields[i];
      TakeSnoc(fields, i);
      FilteredSnoc(IsPublicField, FieldOf, fields[..i], field);
      if !field.isPublic {
        i := i + 1;
        continue;
      }
      var modifiers := ReadFieldModifiers(field);
      res := res + [JavaField(field.typeName, field.name, modifiers)];
      i := i + 1;
    }
    assert fields[..i] == fields;
  }

  // ---------------------------------------------------------------------
  // Methods
  // ---------------------------------------------------------------------

  /** The descriptor of one reflected method. */
  function MethodOf(m: ReflectedMethod): JavaMethod {
    JavaMethod(m.name, MethodModifiers(m.isDefault, m.isStatic), m.parameterTypes, m.returnType)
  }

  predicate IsPublicMethod(m: ReflectedMethod) {
    m.isPublic
  }

  /** What `readMethods` returns: the public methods as descriptors, in order. */
  function MethodsRead(ms: seq<ReflectedMethod>): seq<JavaMethod> {
    Filtered(IsPublicMethod, MethodOf, ms)
  }

  /**
   * `readMethods` keeps one descriptor per public method, overloads
   * included, and drops the rest; when every method is public it keeps all
   * of them in input order.
   */
  lemma MethodsReadSpec(ms: seq<ReflectedMethod>)
    ensures |MethodsRead(ms)| <= |ms|
    ensures forall x :: x in MethodsRead(ms) <==> exists m :: m in ms && m.isPublic && x == MethodOf(m)
    ensures (forall k :: 0 <= k < |ms| ==> ms[k].isPublic) ==> MethodsRead(ms) == Map(MethodOf, ms)
  {
    FilteredSpec(IsPublicMethod, MethodOf, ms);
    if forall k :: 0 <= k < |ms| ==> ms[k].isPublic {
      FilteredAll(IsPublicMethod, MethodOf, ms);
    }
  }

  /** The modifier list collected for one method: `default`, then `static`. */
  method ReadMethodModifiers(method_: ReflectedMethod) returns (mods: seq<Modifier>)
    ensures mods == MethodModifiers(method_.isDefault, method_.isStatic)
  {
    mods := [];
    if method_.isDefault {
      mods := mods + [Default];
    }
    if method_.isStatic {
      mods := mods + [Static];
    }
  }

  /** `readMethods`: the loop that skips non-public methods. */
  method ReadMethods(ms: seq<ReflectedMethod>) returns (result: seq<JavaMethod>)
    ensures result == MethodsRead(ms)
  {
    result := [];
    var i := 0;
    while i < |ms|
      invariant 0 <= i <= |ms|
      invariant result == Filtered(IsPublicMethod, MethodOf, ms[..i])
    {
      var method_ := ms[i];
      TakeSnoc(ms, i);
      FilteredSnoc(IsPublicMethod, MethodOf, ms[..i], method_);
      if !method_.isPublic {
        i := i + 1;
        continue;
      }
      var mods := ReadMethodModifiers(method_);
      result := result + [JavaMethod(method_.name, mods, method_.parameterTypes, method_.returnType)];
      i := i + 1;
    }
    assert ms[..i] == ms;
  }

  // ---------------------------------------------------------------------
  // Constructors
  // ---------------------------------------------------------------------

  function ConstructorOf(c: ReflectedConstructor): JavaConstructor {
    JavaConstructor(c.parameterTypes)
  }

  predicate IsPublicConstructor(c: ReflectedConstructor) {
    c.isPublic
  }

  /** The public constructors' parameter type lists, in order (`readConstructors` in both languages). */
  function ConstructorsRead(cs: seq<ReflectedConstructor>): seq<JavaConstructor> {
    Filtered(IsPublicConstructor, ConstructorOf, cs)
  }

  /**
   * One record per public constructor, holding its parameter type names in
   * declared order, and nothing else; no public constructor means no record.
   */
  lemma ConstructorsReadSpec(cs: seq<ReflectedConstructor>)
    ensures |ConstructorsRead(cs)| <= |cs|
    ensures forall x :: x in ConstructorsRead(cs) <==> exists c :: c in cs && c.isPublic && x.parameters == c.parameterTypes
    ensures (forall k :: 0 <= k < |cs| ==> !cs[k].isPublic) ==> ConstructorsRead(cs) == []
  {
    FilteredSpec(IsPublicConstructor, ConstructorOf, cs);
    if |ConstructorsRead(cs)| > 0 {
      assert ConstructorsRead(cs)[0] in ConstructorsRead(cs);
    }
  }

  /** `readConstructors`: the loop that skips non-public constructors. */
  method ReadConstructors(cs: seq<ReflectedConstructor>) returns (res: seq<JavaConstructor>)
    ensures res == ConstructorsRead(cs)
  {
    res := [];
    var i := 0;
    while i < |cs|
      invariant 0 <= i <= |cs|
      invariant res == Filtered(IsPublicConstructor, ConstructorOf, cs[..i])
    {
      var constructor_ := cs[i];
      assert cs[..i + 1] == cs[..i] + [constructor_];
      FilteredSnoc(IsPublicConstructor, ConstructorOf, cs[..i], constructor_);
      if !constructor_.isPublic {
        i := i + 1;
        continue;
      }
      var params := constructor_.parameterTypes;
      res := res + [JavaConstructor(params)];
      i := i + 1;
    }
    assert cs[..i] == cs;
  }

  // ---------------------------------------------------------------------
  // Grouping methods by name
  // ---------------------------------------------------------------------

  /** The methods of `ms` named `name`, in order. */
  function WithName(ms: seq<JavaMethod>, name: string): (r: seq<JavaMethod>)
    ensures forall m :: m in r <==> m in ms && m.name == name
    ensures |r| <= |ms|
  {
    if |ms| == 0 then []
    else (if ms[0].name == name then [ms[0]] else []) + WithName(ms[1..], name)
  }

  lemma {:induction false} WithNameSnoc(ms: seq<JavaMethod>, x: JavaMethod, name: string)
    ensures WithName(ms + [x], name) == WithName(ms, name) + (if x.name == name then [x] else [])
  {
    if |ms| > 0 {
      assert (ms + [x])[1..] == ms[1..] + [x];
      WithNameSnoc(ms[1..], x, name);
    } else {
      assert WithName([x], name) == (if x.name == name then [x] else []) + WithName([], name);
    }
  }

  /** The name of one method. */
  function MethodName(m: JavaMethod): string {
    m.name
  }

  /** The names of the methods, in order. */
  function MethodNames(ms: seq<JavaMethod>): (r: seq<string>)
    ensures |r| == |ms|
    ensures forall i :: 0 <= i < |ms| ==> r[i] == ms[i].name
  {
    Map(MethodName, ms)
  }

  lemma MethodNamesSnoc(ms: seq<JavaMethod>, x: JavaMethod)
    ensures MethodNames(ms + [x]) == MethodNames(ms) + [x.name]
  {
    MapSnoc(MethodName, ms, x);
  }

  /** The group a record holds under `name`. */
  function GroupOf(ms: seq<JavaMethod>, name: string): MethodGroup {
    MethodGroup(name, WithName(ms, name))
  }

  /**
   * The record `toObject` builds: one key per distinct method name, in order
   * of first occurrence, holding every method of that name in input order.
   */
  function Grouped(ms: seq<JavaMethod>): seq<MethodGroup> {
    GroupsFor(ms, Util.FilterUnique(MethodNames(ms)))
  }

  function GroupsFor(ms: seq<JavaMethod>, names: seq<string>): (r: seq<MethodGroup>)
    ensures |r| == |names|
    ensures forall i :: 0 <= i < |names| ==> r[i] == GroupOf(ms, names[i])
  {
    if |names| == 0 then [] else [GroupOf(ms, names[0])] + GroupsFor(ms, names[1..])
  }

  /** The record has one key per distinct method name: no key twice. */
  lemma GroupedKeys(ms: seq<JavaMethod>)
    ensures GroupNames(Grouped(ms)) == Util.FilterUnique(MethodNames(ms))
    ensures Util.Distinct(GroupNames(Grouped(ms)))
    ensures forall name :: name in GroupNames(Grouped(ms)) <==> name in MethodNames(ms)
  {
    Util.FilterUniqueSpec(MethodNames(ms));
    assert GroupNames(Grouped(ms)) == Util.FilterUnique(MethodNames(ms));
  }

  /**
   * Every method lands in the group keyed by its name, every group holds
   * exactly the methods of its name, and no group is empty.
   */
  lemma GroupedSpec(ms: seq<JavaMethod>)
    ensures forall g :: g in Grouped(ms) ==> |g.overloads| > 0 && forall m :: m in g.overloads <==> m in ms && m.name == g.name
    ensures forall m :: m in ms ==> exists g :: g in Grouped(ms) && g.name == m.name && m in g.overloads
  {
    var names := Util.FilterUnique(MethodNames(ms));
    GroupedKeys(ms);
    forall g | g in Grouped(ms) ensures |g.overloads| > 0 {
      var i :| 0 <= i < |Grouped(ms)| && Grouped(ms)[i] == g;
      GroupNonEmpty(ms, names[i]);
    }
    forall m | m in ms ensures exists g :: g in Grouped(ms) && g.name == m.name && m in g.overloads {
      GroupOfMember(ms, m);
    }
  }

  lemma GroupNonEmpty(ms: seq<JavaMethod>, name: string)
    requires name in MethodNames(ms)
    ensures |WithName(ms, name)| > 0
  {
    var k :| 0 <= k < |ms| && MethodNames(ms)[k] == name;
    assert ms[k] in WithName(ms, name);
  }

  lemma GroupOfMember(ms: seq<JavaMethod>, m: JavaMethod)
    requires m in ms
    ensures GroupOf(ms, m.name) in Grouped(ms)
  {
    var k :| 0 <= k < |ms| && ms[k] == m;
    assert MethodNames(ms)[k] == m.name;
    GroupedKeys(ms);
    var names := GroupNames(Grouped(ms));
    assert m.name in names;
    var i :| 0 <= i < |names| && names[i] == m.name;
    assert Grouped(ms)[i] == GroupOf(ms, m.name);
  }

  /** One more method adds its name as a key exactly when the name is new. */
  lemma NamesSnoc(p: seq<JavaMethod>, v: JavaMethod)
    ensures v.name in Util.FilterUnique(MethodNames(p)) <==> v.name in MethodNames(p)
    ensures Util.FilterUnique(MethodNames(p + [v]))
         == Util.FilterUnique(MethodNames(p)) + (if v.name in MethodNames(p) then [] else [v.name])
  {
    Util.FilterUniqueSpec(MethodNames(p));
    MethodNamesSnoc(p, v);
    Util.FilterUniqueSnoc(MethodNames(p), v.name);
  }

  /**
   * Arrays of the `forEach` record: the array under the method's name grows
   * by the method, and every other array stays what it was.
   */
  lemma WithNameStep(p: seq<JavaMethod>, v: JavaMethod)
    ensures WithName(p + [v], v.name) == WithName(p, v.name) + [v]
    ensures forall k :: k != v.name ==> WithName(p + [v], k) == WithName(p, k)
  {
    WithNameSnoc(p, v, v.name);
    forall k | k != v.name ensures WithName(p + [v], k) == WithName(p, k) {
      WithNameSnoc(p, v, k);
    }
  }

  /** The record built from `done` holds the keys and arrays of `done`. */
  ghost predicate IsRecordOf(done: seq<JavaMethod>, keys: seq<string>, res: map<string, seq<JavaMethod>>)
  {
    && keys == Util.FilterUnique(MethodNames(done))
    && (forall k :: k in res <==> k in keys)
    && (forall k :: k in res ==> res[k] == WithName(done, k))
  }

  /** One `forEach` step: pushing onto a known name's array, or opening a new key, keeps the record exact. */
  lemma RecordStep(done: seq<JavaMethod>, v: JavaMethod, keys: seq<string>, res: map<string, seq<JavaMethod>>,
                   keys': seq<string>, res': map<string, seq<JavaMethod>>)
    requires IsRecordOf(done, keys, res)
    requires v.name in res ==> keys' == keys && res' == res[v.name := res[v.name] + [v]]
    requires v.name !in res ==> keys' == keys + [v.name] && res' == res[v.name := [v]]
    ensures IsRecordOf(done + [v], keys', res')
  {
    if v.name in res {
      KnownNameStep(done, v, keys, res, res');
    } else {
      NewNameStep(done, v, keys, res, res');
    }
  }

  /** A name already in the record keeps the keys and grows its own array by `v`. */
  lemma KnownNameStep(done: seq<JavaMethod>, v: JavaMethod, keys: seq<string>, res: map<string, seq<JavaMethod>>,
                      res': map<string, seq<JavaMethod>>)
    requires IsRecordOf(done, keys, res) && v.name in res
    requires res' == res[v.name := res[v.name] + [v]]
    ensures IsRecordOf(done + [v], keys, res')
  {
    KeysStep(done, v, keys);
    ArraysStep(done, v, res, res');
  }

  /** A name not yet in the record becomes the last key, with `[v]` as its array. */
  lemma NewNameStep(done: seq<JavaMethod>, v: JavaMethod, keys: seq<string>, res: map<string, seq<JavaMethod>>,
                    res': map<string, seq<JavaMethod>>)
    requires IsRecordOf(done, keys, res) && v.name !in res
    requires res' == res[v.name := [v]]
    ensures IsRecordOf(done + [v], keys + [v.name], res')
  {
    KeysStep(done, v, keys);
    ArraysStep(done, v, res, res');
  }

  /** The keys after one more method: its name is appended exactly when it is new. */
  lemma KeysStep(done: seq<JavaMethod>, v: JavaMethod, keys: seq<string>)
    requires keys == Util.FilterUnique(MethodNames(done))
    ensures v.name in keys <==> v.name in MethodNames(done)
    ensures Util.FilterUnique(MethodNames(done + [v])) == keys + (if v.name in keys then [] else [v.name])
  {
    NamesSnoc(done, v);
  }

  /** The arrays after one more method: `v` is pushed onto its name's array, a new name starting at `[v]`. */
  lemma ArraysStep(done: seq<JavaMethod>, v: JavaMethod, res: map<string, seq<JavaMethod>>,
                   res': map<string, seq<JavaMethod>>)
    requires forall k :: k in res ==> res[k] == WithName(done, k)
    requires v.name in res ==> res' == res[v.name := res[v.name] + [v]]
    requires v.name !in res ==> v.name !in MethodNames(done) && res' == res[v.name := [v]]
    ensures forall k :: k in res' ==> res'[k] == WithName(done + [v], k)
  {
    WithNameStep(done, v);
    if v.name !in res {
      WithNameAbsent(done, v.name);
    }
  }

  /** No method carries a name that is not among the method names. */
  lemma {:induction false} WithNameAbsent(ms: seq<JavaMethod>, name: string)
    requires name !in MethodNames(ms)
    ensures WithName(ms, name) == []
  {
    if |ms| > 0 {
      assert MethodNames(ms)[0] == ms[0].name;
      assert MethodNames(ms[1..]) == MethodNames(ms)[1..];
      WithNameAbsent(ms[1..], name);
    }
  }

  /** A record built by `toObject` read back key by key is `Grouped`. */
  lemma RecordIsGrouped(ms: seq<JavaMethod>, keys: seq<string>, res: map<string, seq<JavaMethod>>)
    requires keys == Util.FilterUnique(MethodNames(ms))
    requires forall k :: k in res <==> k in keys
    requires forall k :: k in res ==> res[k] == WithName(ms, k)
    ensures |keys| == |Grouped(ms)|
    ensures forall i :: 0 <= i < |keys| ==> Grouped(ms)[i] == MethodGroup(keys[i], res[keys[i]])
  {
    forall i | 0 <= i < |keys| ensures Grouped(ms)[i] == MethodGroup(keys[i], res[keys[i]]) {
      assert keys[i] in res;
    }
  }

  /**
   * `toObject`: the `forEach` that appends each method to the array stored
   * under its name, creating the array on first use. A record is its keys in
   * insertion order plus the map from key to array.
   */
  method ToObject(ms: seq<JavaMethod>) returns (keys: seq<string>, res: map<string, seq<JavaMethod>>)
    ensures keys == Util.FilterUnique(MethodNames(ms))
    ensures forall k :: k in res <==> k in keys
    ensures forall k :: k in res ==> res[k] == WithName(ms, k)
    ensures |keys| == |Grouped(ms)|
    ensures forall i :: 0 <= i < |keys| ==> Grouped(ms)[i] == MethodGroup(keys[i], res[keys[i]])
  {
    keys := [];
    res := map[];
    ghost var done: seq<JavaMethod> := [];
    var i := 0;
    while i < |ms|
      invariant 0 <= i <= |ms| && done == ms[..i]
      invariant IsRecordOf(done, keys, res)
    {
      var v := ms[i];
      ghost var keys0, res0 := keys, res;
      if v.name in res {
        res := res[v.name := res[v.name] + [v]];
      } else {
        res := res[v.name := [v]];
        keys := keys + [v.name];
      }
      RecordStep(done, v, keys0, res0, keys, res);
      TakeSnoc(ms, i);
      done := done + [v];
      i := i + 1;
    }
    assert done == ms;
    RecordIsGrouped(ms, keys, res);
  }
}
