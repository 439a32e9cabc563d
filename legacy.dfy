/**
 * The first generator of the package, `TypescriptDefinitionGenerator`: one
 * generator per class, which converts its class while recording the classes
 * the converted types refer to, then generates each of those that was not
 * yet resolved with a new generator sharing the list of resolved names and
 * the progress callback, and finally lists its own declaration after theirs.
 */
module Legacy {
  import opened Wrappers
  import opened Types
  import opened Helpers
  import opened TsAst
  import opened TypeMap
  import Converter
  import Readers
  import Resolver
  import Generation
  import Util
  import Seqs

  // ---------------------------------------------------------------------
  // The reflection layer
  // ---------------------------------------------------------------------

  /**
   * What the Java bridge answers: the reflected class behind each name it
   * can load, and whether a name denotes an interface.
   */
  datatype Jvm = Jvm(classes: map<string, ReflectedClass>, isInterface: string -> bool)

  function EnvFor(jvm: Jvm, classname: string): Env {
    Env(classname, jvm.isInterface)
  }

  // ---------------------------------------------------------------------
  // Names that still need a generator
  // ---------------------------------------------------------------------

  /** The names of `names` that are not in `resolved`, in order, repeats kept. */
  function Outside(names: seq<string>, resolved: seq<string>): seq<string> {
    if |names| == 0 then []
    else Outside(names[..|names| - 1], resolved) + (if names[|names| - 1] in resolved then [] else [names[|names| - 1]])
  }

  /** A name is kept exactly when it is listed and not resolved. */
  lemma {:induction false} OutsideSpec(names: seq<string>, resolved: seq<string>)
    ensures forall x :: x in Outside(names, resolved) <==> x in names && x !in resolved
  {
    if |names| > 0 {
      var p := names[..|names| - 1];
      OutsideSpec(p, resolved);
      assert names == p + [names[|names| - 1]];
    }
  }

  /** One more recorded name is kept exactly when it is not resolved. */
  lemma OutsideSnoc(names: seq<string>, resolved: seq<string>, x: string)
    ensures Outside(names + [x], resolved) == Outside(names, resolved) + (if x in resolved then [] else [x])
  {
    assert (names + [x])[..|names|] == names;
  }

  // ---------------------------------------------------------------------
  // Methods
  // ---------------------------------------------------------------------

  /**
   * `createMethod`: public, static when the method is, named with `Sync`
   * appended in the sync variant and nothing in the async one, returning the
   * mapped return type, wrapped in `Promise` in the async variant.
   */
  function MethodDeclOf(env: Env, m: JavaMethod, name: string, i: nat, isSync: bool, nonNull: bool): ClassElement {
    var rt := MapType(env, m.returnType, false, !nonNull).node;
    MethodDecl(Converter.TsMethodModifiers(m), name + (if isSync then "Sync" else ""), Converter.ParametersOf(env, m.parameters),
               if isSync then rt else Promise(rt), Converter.MethodComments(name, i, CreateMethodComment(m, "")))
  }

  /**
   * The legacy declaration of a method is the one the class converter builds
   * with the default suffixes, except for the sync variant of a method named
   * `newInstanceAsync`, which only the legacy generator suffixes.
   */
  lemma MethodDeclAgrees(env: Env, m: JavaMethod, i: nat, isSync: bool, nonNull: bool)
    ensures m.name != "newInstanceAsync" || !isSync ==>
      MethodDeclOf(env, m, m.name, i, isSync, nonNull) == Converter.MethodDeclOf(env, DefaultOptions, m, i, isSync, nonNull)
    ensures m.name == "newInstanceAsync" && isSync ==>
      MethodDeclOf(env, m, m.name, i, isSync, nonNull).name == "newInstanceAsyncSync" &&
      Converter.MethodDeclOf(env, DefaultOptions, m, i, isSync, nonNull).name == "newInstanceAsync"
  {
  }

  function MethodVariant(env: Env, name: string): (nat, JavaMethod, bool) -> ClassElement {
    (i: nat, m: JavaMethod, isSync: bool) => MethodDeclOf(env, m, name, i, isSync, name in Converter.NON_NULL_RETURN_METHODS)
  }

  /** `convertMethod`: the async and the sync declaration of each overload, in order. */
  function ConvertedMethod(env: Env, methods: seq<JavaMethod>, name: string): seq<ClassElement> {
    Seqs.Pairs(MethodVariant(env, name), methods)
  }

  /** Each declaration maps the return type, then the parameters; every overload is declared twice. */
  function ConvertedMethodEffects(env: Env, methods: seq<JavaMethod>, name: string): (r: seq<Effect>)
    ensures forall i :: 0 <= i < |r| ==> WellFormed(r[i])
  {
    if |methods| == 0 then []
    else
      var k := |methods| - 1;
      var e := Converter.MethodEffects(env, methods[k], name in Converter.NON_NULL_RETURN_METHODS);
      ConvertedMethodEffects(env, methods[..k], name) + e + e
  }

  lemma ConvertedMethodStep(env: Env, st: MapState, methods: seq<JavaMethod>, name: string, i: nat)
    requires i < |methods|
    ensures var nonNull := name in Converter.NON_NULL_RETURN_METHODS;
      ConvertedMethod(env, methods[..i + 1], name)
        == ConvertedMethod(env, methods[..i], name) + [MethodDeclOf(env, methods[i], name, i, false, nonNull), MethodDeclOf(env, methods[i], name, i, true, nonNull)]
    ensures var e := Converter.MethodEffects(env, methods[i], name in Converter.NON_NULL_RETURN_METHODS);
      ApplyAll(st, ConvertedMethodEffects(env, methods[..i + 1], name))
        == ApplyAll(ApplyAll(ApplyAll(st, ConvertedMethodEffects(env, methods[..i], name)), e), e)
  {
    Seqs.PairsSnoc(MethodVariant(env, name), methods, i);
    assert methods[..i + 1][..i] == methods[..i];
    var prev := ConvertedMethodEffects(env, methods[..i], name);
    var e := Converter.MethodEffects(env, methods[i], name in Converter.NON_NULL_RETURN_METHODS);
    assert prev + e + e == prev + (e + e);
    ApplyAllAppend(st, prev, e + e);
    ApplyAllAppend(ApplyAll(st, prev), e, e);
  }

  /**
   * `convertMethod` emits two declarations per overload, whatever the name
   * (`toString` included): the async one, then the sync one, non-null when
   * the name is in the non-null list.
   */
  lemma ConvertedMethodSpec(env: Env, methods: seq<JavaMethod>, name: string)
    ensures var r := ConvertedMethod(env, methods, name);
      var nonNull := name in Converter.NON_NULL_RETURN_METHODS;
      |r| == 2 * |methods| &&
      forall i :: 0 <= i < |methods| ==>
        r[2 * i] == MethodDeclOf(env, methods[i], name, i, false, nonNull) &&
        r[2 * i + 1] == MethodDeclOf(env, methods[i], name, i, true, nonNull)
  {
    Seqs.PairsSpec(MethodVariant(env, name), methods);
  }

  /** The declarations of every group, group after group. */
  function MethodsSection(env: Env, groups: seq<MethodGroup>): seq<ClassElement> {
    if |groups| == 0 then []
    else MethodsSection(env, groups[..|groups| - 1]) + ConvertedMethod(env, groups[|groups| - 1].overloads, groups[|groups| - 1].name)
  }

  function MethodsSectionEffects(env: Env, groups: seq<MethodGroup>): (r: seq<Effect>)
    ensures forall i :: 0 <= i < |r| ==> WellFormed(r[i])
  {
    if |groups| == 0 then []
    else MethodsSectionEffects(env, groups[..|groups| - 1]) + ConvertedMethodEffects(env, groups[|groups| - 1].overloads, groups[|groups| - 1].name)
  }

  lemma MethodsSectionStep(env: Env, st: MapState, groups: seq<MethodGroup>, i: nat)
    requires i < |groups|
    ensures MethodsSection(env, groups[..i + 1]) == MethodsSection(env, groups[..i]) + ConvertedMethod(env, groups[i].overloads, groups[i].name)
    ensures ApplyAll(st, MethodsSectionEffects(env, groups[..i + 1]))
         == ApplyAll(ApplyAll(st, MethodsSectionEffects(env, groups[..i])), ConvertedMethodEffects(env, groups[i].overloads, groups[i].name))
  {
    assert groups[..i + 1][..i] == groups[..i];
    ApplyAllAppend(st, MethodsSectionEffects(env, groups[..i]), ConvertedMethodEffects(env, groups[i].overloads, groups[i].name));
  }

  // ---------------------------------------------------------------------
  // Constructors
  // ---------------------------------------------------------------------

  function ConstructorDeclFn(env: Env): (nat, JavaConstructor) -> ClassElement {
    (i: nat, c: JavaConstructor) => CreateConstructorDecl(Converter.ParametersOf(env, c.parameters), c.parameters, i)
  }

  /** `tsConstructors`: one public constructor declaration per constructor. */
  function ConstructorDecls(env: Env, types: seq<JavaConstructor>): (r: seq<ClassElement>)
    ensures |r| == |types|
  {
    Seqs.MapIndexed(ConstructorDeclFn(env), types)
  }

  function ConstructorDeclEffects(env: Env, types: seq<JavaConstructor>): (r: seq<Effect>)
    ensures forall i :: 0 <= i < |r| ==> WellFormed(r[i])
  {
    if |types| == 0 then [] else ConstructorDeclEffects(env, types[..|types| - 1]) + Converter.ParamEffects(env, types[|types| - 1].parameters)
  }

  function NewInstanceFn(env: Env): (nat, JavaConstructor) -> ClassElement {
    (i: nat, c: JavaConstructor) => MethodDeclOf(env, Converter.NewInstance(env.classname, c.parameters), "newInstanceAsync", i, false, true)
  }

  /** `newInstanceMethods`: one static async factory per constructor. */
  function NewInstanceMethods(env: Env, types: seq<JavaConstructor>): (r: seq<ClassElement>)
    ensures |r| == |types|
  {
    Seqs.MapIndexed(NewInstanceFn(env), types)
  }

  function NewInstanceEffects(env: Env, types: seq<JavaConstructor>): (r: seq<Effect>)
    ensures forall i :: 0 <= i < |r| ==> WellFormed(r[i])
  {
    if |types| == 0 then []
    else NewInstanceEffects(env, types[..|types| - 1]) + Converter.MethodEffects(env, Converter.NewInstance(env.classname, types[|types| - 1].parameters), true)
  }

  /** `convertConstructors`: every factory, then every constructor. */
  function ConstructorsSection(env: Env, types: seq<JavaConstructor>): seq<ClassElement> {
    NewInstanceMethods(env, types) + ConstructorDecls(env, types)
  }

  /** The constructors map their parameters first, then the factories map their return type and parameters. */
  function ConstructorsEffects(env: Env, types: seq<JavaConstructor>): (r: seq<Effect>)
    ensures forall i :: 0 <= i < |r| ==> WellFormed(r[i])
  {
    ConstructorDeclEffects(env, types) + NewInstanceEffects(env, types)
  }

  /** The factory of one constructor: public static `newInstanceAsync`, returning a promise of the class's own type. */
  lemma FactorySpec(env: Env, parameters: seq<string>, i: nat)
    ensures var d := MethodDeclOf(env, Converter.NewInstance(env.classname, parameters), "newInstanceAsync", i, false, true);
      && d.MethodDecl? && d.name == "newInstanceAsync"
      && d.modifiers == [PublicModifier, StaticModifier]
      && d.parameters == Converter.ParametersOf(env, parameters)
      && d.returnType == Promise(MapType(env, env.classname, false, false).node)
  {
    assert Converter.TsMethodModifiers(Converter.NewInstance(env.classname, parameters)) == [PublicModifier, StaticModifier];
  }

  /**
   * With `n` constructors, the first `n` members are the factories, each a
   * public static `newInstanceAsync` without suffix taking the constructor's
   * parameters and returning a promise of the class's own type, and the next
   * `n` are the constructor declarations, in the same order.
   */
  lemma ConstructorsSectionSpec(env: Env, types: seq<JavaConstructor>)
    ensures var r := ConstructorsSection(env, types);
      var n := |types|;
      |r| == 2 * n &&
      forall i :: 0 <= i < n ==>
        && r[i].MethodDecl? && r[i].name == "newInstanceAsync"
        && r[i].modifiers == [PublicModifier, StaticModifier]
        && r[i].parameters == Converter.ParametersOf(env, types[i].parameters)
        && r[i].returnType == Promise(MapType(env, env.classname, false, false).node)
        && r[n + i] == CreateConstructorDecl(Converter.ParametersOf(env, types[i].parameters), types[i].parameters, i)
  {
    var factories := NewInstanceMethods(env, types);
    var decls := ConstructorDecls(env, types);
    Seqs.MapIndexedSpec(NewInstanceFn(env), types);
    Seqs.MapIndexedSpec(ConstructorDeclFn(env), types);
    forall i | 0 <= i < |types|
      ensures factories[i] == MethodDeclOf(env, Converter.NewInstance(env.classname, types[i].parameters), "newInstanceAsync", i, false, true)
      ensures decls[i] == CreateConstructorDecl(Converter.ParametersOf(env, types[i].parameters), types[i].parameters, i)
    {
      FactorySpec(env, types[i].parameters, i);
    }
  }
  // ---------------------------------------------------------------------
  // One class
  // ---------------------------------------------------------------------

  /** The method record `convertMethods` builds from the reflected methods. */
  function Groups(cls: ReflectedClass): seq<MethodGroup> {
    Readers.Grouped(Readers.MethodsRead(cls.methods))
  }

  /** `isAbstractOrInterface`. */
  function IsAbstractOrInterface(cls: ReflectedClass): bool {
    cls.isInterface || cls.isAbstract
  }

  /**
   * The bookkeeping after converting one class: the fields are mapped, then
   * the methods, then the constructors unless the class is abstract or an
   * interface, then, for an interface, the signatures, and the proxy factory
   * raises both proxy flags.
   */
  function ClassState(env: Env, cls: ReflectedClass): MapState {
    var members := MembersState(env, cls);
    if cls.isInterface then ApplyAll(members, Converter.InterfaceSignatureEffects(env, Groups(cls))).(usesNewProxy := true, usesInterfaceProxy := true)
    else members
  }

  /** The bookkeeping after the class members alone. */
  function MembersState(env: Env, cls: ReflectedClass): MapState {
    var fields := ApplyAll(InitialState, Converter.FieldEffects(env, Readers.FieldsRead(cls.fields)));
    var methods := ApplyAll(fields, MethodsSectionEffects(env, Groups(cls)));
    var types := Readers.ConstructorsRead(cls.constructors);
    if IsAbstractOrInterface(cls) then methods
    else ApplyAll(ApplyAll(methods, ConstructorDeclEffects(env, types)), NewInstanceEffects(env, types))
  }

  /** The classes the converted types of one class refer to, in mapping order (`importsToResolve`). */
  function ClassRefs(env: Env, cls: ReflectedClass): seq<string> {
    ClassState(env, cls).importsToResolve
  }

  /** The class members: the public fields, the method declarations, and the constructors of a concrete class. */
  function ClassMembersOf(env: Env, cls: ReflectedClass): seq<ClassElement> {
    Converter.PropertiesOf(env, Readers.FieldsRead(cls.fields)) + MethodsSection(env, Groups(cls))
      + (if IsAbstractOrInterface(cls) then [] else ConstructorsSection(env, Readers.ConstructorsRead(cls.constructors)))
  }

  /** For an interface: a separator, the interface of its non-static methods, a separator, the proxy factory. */
  function InterfaceSection(env: Env, cls: ReflectedClass): seq<Option<Statement>> {
    var simpleName := GetSimpleName(env.classname);
    if cls.isInterface then
      [None, Some(InterfaceDecl(simpleName + "Interface", Converter.InterfaceSignatures(env, Groups(cls)))), None,
       Some(Converter.ProxyFunctionOf(simpleName, env.classname))]
    else []
  }

  /**
   * The statements `generate` prints for one class: the runtime import, the
   * class imports, a separator, the type-only class, the interface section,
   * a separator, and the export statements without options.
   */
  function ClassSource(env: Env, cls: ReflectedClass): seq<Option<Statement>> {
    var st := ClassState(env, cls);
    var simpleName := GetSimpleName(env.classname);
    Converter.SourceStatements(Converter.RuntimeImports(st), Converter.AdditionalImports(env.classname, st),
                               CreateClassDecl(simpleName, ClassMembersOf(env, cls)), InterfaceSection(env, cls),
                               CreateExportStatement(simpleName, IsAbstractOrInterface(cls), env.classname, DefaultOptions))
  }

  /**
   * Every class the generator will hand to a new generator is also imported
   * by the class's own declaration, once: it is a referenced class other
   * than the class itself.
   */
  lemma DependenciesImported(classname: string, refs: seq<string>, resolved: seq<string>)
    requires classname in resolved
    ensures forall x :: x in Outside(refs, resolved) ==> x in Converter.ImportedNames(classname, refs)
    ensures Util.Distinct(Converter.ImportedNames(classname, refs))
  {
    OutsideSpec(refs, resolved);
    Util.FilterUniqueSpec(Converter.WithoutSelf(classname, refs));
  }

  // ---------------------------------------------------------------------
  // The recursion of `generate`
  // ---------------------------------------------------------------------

  /** For each class the bridge can load, the classes its declaration refers to. */
  function RefsOf(jvm: Jvm): (refs: map<string, seq<string>>)
    ensures RefsAgree(jvm, refs)
  {
    map n | n in jvm.classes :: ClassRefs(EnvFor(jvm, n), jvm.classes[n])
  }

  function Elements(s: seq<string>): set<string> {
    set x | x in s
  }

  /** `refs` records, for each class the bridge can load and for no other name, the classes it refers to. */
  ghost predicate RefsAgree(jvm: Jvm, refs: map<string, seq<string>>) {
    && (forall n :: n in refs ==> n in jvm.classes)
    && (forall n {:trigger ClassState(EnvFor(jvm, n), jvm.classes[n])} :: n in jvm.classes ==> n in refs && refs[n] == ClassState(EnvFor(jvm, n), jvm.classes[n]).importsToResolve)
  }

  /** A set of names that holds every class the recursion can meet: each loadable class in it refers only to names in it. */
  ghost predicate Closed(refs: map<string, seq<string>>, u: set<string>) {
    forall n, x :: n in u && n in refs && x in refs[n] ==> x in u
  }

  /**
   * The class and every class a loadable class refers to: a finite set
   * closed under references, so every call of `generate` has one.
   */
  function Universe(classname: string, refs: map<string, seq<string>>): (u: set<string>)
    ensures Closed(refs, u) && classname in u
  {
    {classname} + set n, x | n in refs && x in refs[n] :: x
  }

  /** `after` is `before` followed by names that differ from every name before them. */
  predicate Extends(before: seq<string>, after: seq<string>) {
    |before| <= |after| && after[..|before|] == before
    && forall i, j :: 0 <= i < j < |after| && |before| <= j ==> after[i] != after[j]
  }

  lemma ExtendsSelf(resolved: seq<string>)
    ensures Extends(resolved, resolved)
  {
  }

  lemma ExtendsMark(resolved: seq<string>, name: string)
    requires name !in resolved
    ensures Extends(resolved, resolved + [name])
  {
  }

  lemma ExtendsTrans(a: seq<string>, b: seq<string>, c: seq<string>)
    requires Extends(a, b) && Extends(b, c)
    ensures Extends(a, c)
  {
    assert c[..|a|] == c[..|b|][..|a|];
  }

  /** Marking one more name that is in the universe but not yet resolved leaves fewer names to resolve. */
  lemma Shrinks(u: set<string>, resolved: seq<string>, x: string)
    requires x in u && x !in resolved
    ensures |u - Elements(resolved + [x])| < |u - Elements(resolved)|
  {
    assert u - Elements(resolved + [x]) == (u - Elements(resolved)) - {x};
  }

  /** Extending the resolved names never leaves more names to resolve. */
  lemma Monotone(u: set<string>, a: seq<string>, b: seq<string>)
    requires |a| <= |b| && b[..|a|] == a
    ensures |u - Elements(b)| <= |u - Elements(a)|
  {
    assert forall x :: x in a ==> x in b[..|a|];
    SubsetSize(u - Elements(b), u - Elements(a));
  }

  lemma SubsetSize(a: set<string>, b: set<string>)
    requires a <= b
    ensures |a| <= |b|
    decreases |b|
  {
    if a != {} {
      var x :| x in a;
      SubsetSize(a - {x}, b - {x});
    }
  }

  /**
   * What a call of `generate` produces: the classes declared, in the order
   * of the returned declarations, the shared list of resolved names
   * afterwards, and the class that could not be loaded, if any.
   */
  datatype Generated = Generated(order: seq<string>, resolved: seq<string>, failed: Option<string>)

  /**
   * `generate` for the class `name` with the shared list `resolved`: nothing
   * for a name already resolved; otherwise the name is marked, its class is
   * loaded (a class the bridge cannot load rejects the call), the classes it
   * refers to that were not resolved at conversion time are generated in
   * order, and its own declaration comes last.
   */
  function Gen(refs: map<string, seq<string>>, name: string, resolved: seq<string>, u: set<string>): (r: Generated)
    requires Closed(refs, u) && name in u
    ensures Extends(resolved, r.resolved)
    decreases |u - Elements(resolved)|, 0, 0
  {
    if name in resolved then ExtendsSelf(resolved); Generated([], resolved, None)
    else
      var marked := resolved + [name];
      ExtendsMark(resolved, name);
      Shrinks(u, resolved, name);
      if name !in refs then Generated([], marked, Some(name))
      else
        var sub := Imports(refs, name, marked, u);
        ExtendsTrans(resolved, marked, sub.resolved);
        if sub.failed.Some? then sub
        else Generated(sub.order + [name], sub.resolved, None)
  }

  /** `generate` for a name not yet resolved that the bridge can load: the imports of the marked list, then the name. */
  lemma GenMarked(refs: map<string, seq<string>>, name: string, resolved: seq<string>, u: set<string>)
    requires Closed(refs, u) && name in u && name !in resolved && name in refs
    ensures var marked := resolved + [name];
      var sub := Imports(refs, name, marked, u);
      && Gen(refs, name, resolved, u) == (if sub.failed.Some? then sub else Generated(sub.order + [name], sub.resolved, None))
      && sub.resolved[|resolved|..] == [name] + sub.resolved[|marked|..]
  {
    var marked := resolved + [name];
    ExtendsMark(resolved, name);
    var sub := Imports(refs, name, marked, u);
    SliceJoin(resolved, marked, sub.resolved);
    assert marked[|resolved|..] == [name];
  }

  /** The generators `generate` starts for the additional imports of `name`, once `marked` holds it. */
  function Imports(refs: map<string, seq<string>>, name: string, marked: seq<string>, u: set<string>): (r: Generated)
    requires Closed(refs, u) && name in u && name in refs
    ensures Extends(marked, r.resolved)
    decreases |u - Elements(marked)|, 2
  {
    OutsideSpec(refs[name], marked);
    GenAll(refs, Outside(refs[name], marked), marked, u)
  }

  /** The loop of `generate` over the additional imports: one generator per name, in order, until one rejects. */
  function GenAll(refs: map<string, seq<string>>, names: seq<string>, resolved: seq<string>, u: set<string>): (r: Generated)
    requires Closed(refs, u) && forall x :: x in names ==> x in u
    ensures Extends(resolved, r.resolved)
    decreases |u - Elements(resolved)|, 1, |names|
  {
    if |names| == 0 then ExtendsSelf(resolved); Generated([], resolved, None)
    else
      var a := Gen(refs, names[0], resolved, u);
      if a.failed.Some? then a
      else
        Monotone(u, resolved, a.resolved);
        var b := GenAll(refs, names[1..], a.resolved, u);
        ExtendsTrans(resolved, a.resolved, b.resolved);
        Generated(a.order + b.order, b.resolved, b.failed)
  }

  // ---------------------------------------------------------------------
  // What the recursion guarantees
  // ---------------------------------------------------------------------

  /**
   * `order` names each class of `added` once and nothing else, and each of
   * them is loadable with every class it refers to in `resolved`.
   */
  ghost predicate Covers(refs: map<string, seq<string>>, order: seq<string>, added: seq<string>, resolved: seq<string>) {
    && Util.Distinct(order)
    && (forall x :: x in order <==> x in added)
    && forall n :: n in order ==> RefsIn(refs, n, resolved)
  }

  /** `n` is loadable and every class it refers to is in `resolved`. */
  ghost predicate RefsIn(refs: map<string, seq<string>>, n: string, resolved: seq<string>) {
    n in refs && forall x :: x in refs[n] ==> x in resolved
  }

  /** A class's own declaration after those of its dependencies. */
  lemma CoversSnoc(refs: map<string, seq<string>>, order: seq<string>, added: seq<string>, resolved: seq<string>, name: string)
    requires Covers(refs, order, added, resolved) && name !in added
    requires name in refs && forall x :: x in refs[name] ==> x in resolved
    ensures Covers(refs, order + [name], [name] + added, resolved)
  {
    var o := order + [name];
    forall i, j | 0 <= i < j < |o| ensures o[i] != o[j] {
      if j == |order| {
        assert o[i] == order[i] && order[i] in order;
      } else {
        assert o[i] == order[i] && o[j] == order[j];
      }
    }
    forall n | n in o ensures RefsIn(refs, n, resolved) {
      if n != name {
        assert n in order;
      }
    }
  }

  /** The declarations of two generators in a row, the second seeing a longer list. */
  lemma CoversAppend(refs: map<string, seq<string>>, order1: seq<string>, added1: seq<string>, resolved1: seq<string>,
                     order2: seq<string>, added2: seq<string>, resolved2: seq<string>)
    requires Covers(refs, order1, added1, resolved1) && Covers(refs, order2, added2, resolved2)
    requires forall x :: x in resolved1 ==> x in resolved2
    requires forall x :: x in added1 ==> x !in added2
    ensures Covers(refs, order1 + order2, added1 + added2, resolved2)
  {
    var o := order1 + order2;
    forall i, j | 0 <= i < j < |o| ensures o[i] != o[j] {
      if j < |order1| {
        assert o[i] == order1[i] && o[j] == order1[j];
      } else if |order1| <= i {
        assert o[i] == order2[i - |order1|] && o[j] == order2[j - |order1|];
      } else {
        assert o[i] == order1[i] && order1[i] in order1;
        assert o[j] == order2[j - |order1|] && order2[j - |order1|] in order2;
      }
    }
    forall n | n in o ensures RefsIn(refs, n, resolved2) {
      if n in order1 {
        assert RefsIn(refs, n, resolved1);
      }
    }
  }

  /** After `Extends(mid, after)`, the names appended to `after` are none of those of `mid`. */
  lemma AppendedAreNew(mid: seq<string>, after: seq<string>, x: string)
    requires Extends(mid, after) && x in mid
    ensures x !in after[|mid|..]
  {
    var i :| 0 <= i < |mid| && mid[i] == x;
    assert after[i] == x;
  }

  /**
   * What a call of `generate` promises: it marks its class first when it was
   * not resolved; a rejected call names a class the bridge cannot load,
   * among those it marked; a successful one declares exactly the classes it
   * marked, no class twice, its own last, with every class they refer to
   * resolved afterwards.
   */
  ghost predicate GenPost(refs: map<string, seq<string>>, name: string, resolved: seq<string>, r: Generated)
    requires |resolved| <= |r.resolved|
  {
    var added := r.resolved[|resolved|..];
    && (name in resolved ==> r == Generated([], resolved, None))
    && (name !in resolved ==> |added| > 0 && added[0] == name)
    && (r.failed.Some? ==> r.failed.value in added && r.failed.value !in refs)
    && (r.failed.None? ==> name in r.resolved && Covers(refs, r.order, added, r.resolved))
    && (r.failed.None? && name !in resolved ==> |r.order| > 0 && r.order[|r.order| - 1] == name)
  }

  /**
   * What the loop over the additional imports promises: a rejection names a
   * class the bridge cannot load, among those marked; on success every
   * listed name is resolved and the classes declared are exactly those
   * marked.
   */
  ghost predicate AllPost(refs: map<string, seq<string>>, names: seq<string>, resolved: seq<string>, r: Generated)
    requires |resolved| <= |r.resolved|
  {
    var added := r.resolved[|resolved|..];
    && (r.failed.Some? ==> r.failed.value in added && r.failed.value !in refs)
    && (r.failed.None? ==> (forall x :: x in names ==> x in r.resolved) && Covers(refs, r.order, added, r.resolved))
  }

  /** The promise of a generator whose class was loaded, from that of the loop over its dependencies. */
  lemma LoadedStep(refs: map<string, seq<string>>, name: string, resolved: seq<string>, deps: seq<string>, sub: Generated)
    requires name !in resolved && name in refs
    requires forall x :: x in refs[name] ==> x in resolved + [name] || x in deps
    requires Extends(resolved + [name], sub.resolved)
    requires AllPost(refs, deps, resolved + [name], sub)
    ensures GenPost(refs, name, resolved, if sub.failed.Some? then sub else Generated(sub.order + [name], sub.resolved, None))
  {
    var marked := resolved + [name];
    var subAdded := sub.resolved[|marked|..];
    assert sub.resolved[..|marked|] == marked;
    assert sub.resolved[|resolved|..] == [name] + subAdded;
    if sub.failed.None? {
      assert forall x :: x in marked ==> x in sub.resolved[..|marked|];
      AppendedAreNew(marked, sub.resolved, name);
      CoversSnoc(refs, sub.order, subAdded, sub.resolved, name);
    }
  }

  /** The promise of two generators in a row, from that of each. */
  lemma SequenceStep(refs: map<string, seq<string>>, names: seq<string>, resolved: seq<string>, a: Generated, b: Generated)
    requires |names| > 0
    requires Extends(resolved, a.resolved) && Extends(a.resolved, b.resolved)
    requires a.failed.None? && GenPost(refs, names[0], resolved, a)
    requires AllPost(refs, names[1..], a.resolved, b)
    ensures AllPost(refs, names, resolved, Generated(a.order + b.order, b.resolved, b.failed))
  {
    var aAdded := a.resolved[|resolved|..];
    var bAdded := b.resolved[|a.resolved|..];
    assert b.resolved[..|a.resolved|] == a.resolved;
    assert b.resolved[|resolved|..] == aAdded + bAdded;
    assert forall x :: x in a.resolved ==> x in b.resolved[..|a.resolved|];
    forall x | x in aAdded ensures x !in bAdded {
      AppendedAreNew(a.resolved, b.resolved, x);
    }
    if b.failed.None? {
      CoversAppend(refs, a.order, aAdded, a.resolved, b.order, bAdded, b.resolved);
      assert forall x :: x in names ==> x == names[0] || x in names[1..];
    }
  }

  /** Every call of `generate` keeps its promise. */
  lemma {:induction false} GenFacts(refs: map<string, seq<string>>, name: string, resolved: seq<string>, u: set<string>)
    requires Closed(refs, u) && name in u
    ensures GenPost(refs, name, resolved, Gen(refs, name, resolved, u))
    decreases |u - Elements(resolved)|, 0, 0
  {
    if name in resolved {
      return;
    }
    var marked := resolved + [name];
    Shrinks(u, resolved, name);
    if name !in refs {
      assert Gen(refs, name, resolved, u).resolved[|resolved|..] == [name];
      return;
    }
    var deps := Outside(refs[name], marked);
    OutsideSpec(refs[name], marked);
    var sub := GenAll(refs, deps, marked, u);
    assert Gen(refs, name, resolved, u) == if sub.failed.Some? then sub else Generated(sub.order + [name], sub.resolved, None);
    GenAllFacts(refs, deps, marked, u);
    LoadedStep(refs, name, resolved, deps, sub);
  }

  /** Every loop over the additional imports keeps its promise. */
  lemma {:induction false} GenAllFacts(refs: map<string, seq<string>>, names: seq<string>, resolved: seq<string>, u: set<string>)
    requires Closed(refs, u) && forall x :: x in names ==> x in u
    ensures AllPost(refs, names, resolved, GenAll(refs, names, resolved, u))
    decreases |u - Elements(resolved)|, 1, |names|
  {
    if |names| == 0 {
      return;
    }
    var a := Gen(refs, names[0], resolved, u);
    GenFacts(refs, names[0], resolved, u);
    if a.failed.Some? {
      assert GenAll(refs, names, resolved, u) == a;
      return;
    }
    Monotone(u, resolved, a.resolved);
    var b := GenAll(refs, names[1..], a.resolved, u);
    assert GenAll(refs, names, resolved, u) == Generated(a.order + b.order, b.resolved, b.failed);
    GenAllFacts(refs, names[1..], a.resolved, u);
    SequenceStep(refs, names, resolved, a, b);
  }

  // ---------------------------------------------------------------------
  // What `generate` returns
  // ---------------------------------------------------------------------

  /** For each class the bridge can load, the statements of its source. */
  function SourcesOf(jvm: Jvm): (sources: map<string, seq<Option<Statement>>>)
    ensures SourcesAgree(jvm, sources)
  {
    map n | n in jvm.classes :: ClassSource(EnvFor(jvm, n), jvm.classes[n])
  }

  /** `sources` records, for each class the bridge can load and for no other name, the statements of its source. */
  ghost predicate SourcesAgree(jvm: Jvm, sources: map<string, seq<Option<Statement>>>) {
    && (forall n :: n in sources ==> n in jvm.classes)
    && (forall n {:trigger ClassSource(EnvFor(jvm, n), jvm.classes[n])} :: n in jvm.classes ==> n in sources && sources[n] == ClassSource(EnvFor(jvm, n), jvm.classes[n]))
  }

  /** `ds` declares the classes `names`, one declaration each, in order, each holding the statements of its class's source. */
  ghost predicate Declares(sources: map<string, seq<Option<Statement>>>, ds: seq<Generation.ModuleDeclaration>, names: seq<string>) {
    |ds| == |names| && forall k :: 0 <= k < |ds| ==> ds[k].name == names[k] && ds[k].name in sources && ds[k].contents == sources[ds[k].name]
  }

  lemma DeclaresOne(sources: map<string, seq<Option<Statement>>>, d: Generation.ModuleDeclaration)
    requires d.name in sources && d.contents == sources[d.name]
    ensures Declares(sources, [d], [d.name])
  {
  }

  lemma DeclaresAppend(sources: map<string, seq<Option<Statement>>>, ds1: seq<Generation.ModuleDeclaration>, names1: seq<string>,
                       ds2: seq<Generation.ModuleDeclaration>, names2: seq<string>)
    requires Declares(sources, ds1, names1) && Declares(sources, ds2, names2)
    ensures Declares(sources, ds1 + ds2, names1 + names2)
  {
    forall k | 0 <= k < |ds1 + ds2|
      ensures (ds1 + ds2)[k].name == (names1 + names2)[k] && (ds1 + ds2)[k].name in sources
           && (ds1 + ds2)[k].contents == sources[(ds1 + ds2)[k].name]
    {
      if k < |ds1| {
        assert (ds1 + ds2)[k] == ds1[k];
      } else {
        assert (ds1 + ds2)[k] == ds2[k - |ds1|];
      }
    }
  }

  /**
   * The promise `generate` settles: rejected with the class that could not
   * be loaded, or resolved to the declarations of the classes declared, in
   * order.
   */
  ghost predicate Answers(sources: map<string, seq<Option<Statement>>>, g: Generated, r: Result<seq<Generation.ModuleDeclaration>>) {
    if g.failed.Some? then r == Err(ClassNotFound(g.failed.value)) else r.Ok? && Declares(sources, r.value, g.order)
  }

  /** The slices of two extensions in a row join up. */
  lemma SliceJoin(start: seq<string>, mid: seq<string>, after: seq<string>)
    requires Extends(start, mid) && Extends(mid, after)
    ensures after[|start|..] == mid[|start|..] + after[|mid|..]
  {
    assert after[..|mid|] == mid;
  }

  /** The loop over the additional imports has done `order` and still has `names[i..]` to do, from `resolved`. */
  ghost predicate Remaining(refs: map<string, seq<string>>, names: seq<string>, i: nat, resolved: seq<string>, u: set<string>,
                            whole: Generated, order: seq<string>)
  {
    && i <= |names| && Closed(refs, u) && (forall x :: x in names ==> x in u)
    && var rest := GenAll(refs, names[i..], resolved, u);
       whole == Generated(order + rest.order, rest.resolved, rest.failed)
  }

  /**
   * The loop over `names` began from `start` and has reached `i` with
   * `resolved`: the list only grew, what the loop did and still has to do
   * make up `whole`, and `res` holds the declarations of the classes done.
   */
  ghost predicate Looping(refs: map<string, seq<string>>, sources: map<string, seq<Option<Statement>>>, names: seq<string>, i: nat,
                          start: seq<string>, resolved: seq<string>, u: set<string>, whole: Generated,
                          order: seq<string>, res: seq<Generation.ModuleDeclaration>)
  {
    && Extends(start, resolved) && |u - Elements(resolved)| <= |u - Elements(start)|
    && Remaining(refs, names, i, resolved, u, whole, order) && Declares(sources, res, order)
  }

  lemma LoopStart(refs: map<string, seq<string>>, sources: map<string, seq<Option<Statement>>>, names: seq<string>,
                  start: seq<string>, u: set<string>)
    requires Closed(refs, u) && forall x :: x in names ==> x in u
    ensures Looping(refs, sources, names, 0, start, start, u, GenAll(refs, names, start, u), [], [])
  {
    ExtendsSelf(start);
    assert names[0..] == names;
  }

  /**
   * One turn of the loop, from `before` on, that generated `generated`,
   * with `log` the reports before the loop: the reports grow by the names
   * the turn marks, and the loop ends with the turn's rejection or goes on.
   */
  lemma LoopStep(refs: map<string, seq<string>>, sources: map<string, seq<Option<Statement>>>, names: seq<string>, i: nat,
                 start: seq<string>, before: seq<string>, u: set<string>, whole: Generated,
                 order: seq<string>, res: seq<Generation.ModuleDeclaration>, log: seq<string>,
                 generated: Result<seq<Generation.ModuleDeclaration>>)
    requires i < |names| && Looping(refs, sources, names, i, start, before, u, whole, order, res)
    requires Answers(sources, Gen(refs, names[i], before, u), generated)
    ensures var a := Gen(refs, names[i], before, u);
      && (log + before[|start|..]) + a.resolved[|before|..] == log + a.resolved[|start|..]
      && (generated.Err? ==> whole.resolved == a.resolved && Answers(sources, whole, generated))
      && (generated.Ok? ==> Looping(refs, sources, names, i + 1, start, a.resolved, u, whole, order + a.order, res + generated.value))
  {
    var a := Gen(refs, names[i], before, u);
    ExtendsTrans(start, before, a.resolved);
    SliceJoin(start, before, a.resolved);
    Monotone(u, start, a.resolved);
    Seqs.AppendAssoc(log, before[|start|..], a.resolved[|before|..]);
    RemainingStep(refs, names, i, before, u, whole, order);
    if generated.Ok? {
      DeclaresAppend(sources, res, order, generated.value, a.order);
    }
  }

  /** The loop ran to the end: `whole` is what it did. */
  lemma LoopEnd(refs: map<string, seq<string>>, sources: map<string, seq<Option<Statement>>>, names: seq<string>,
                start: seq<string>, resolved: seq<string>, u: set<string>, whole: Generated,
                order: seq<string>, res: seq<Generation.ModuleDeclaration>)
    requires Looping(refs, sources, names, |names|, start, resolved, u, whole, order, res)
    ensures whole.resolved == resolved && Answers(sources, whole, Ok(res))
  {
    assert names[|names|..] == [];
    assert order + [] == order;
  }

  /** One turn of the loop: a rejection is the rejection of the whole loop; otherwise the loop goes on from the new list. */
  lemma RemainingStep(refs: map<string, seq<string>>, names: seq<string>, i: nat, resolved: seq<string>, u: set<string>,
                      whole: Generated, order: seq<string>)
    requires i < |names| && Remaining(refs, names, i, resolved, u, whole, order)
    ensures var a := Gen(refs, names[i], resolved, u);
      && (a.failed.Some? ==> whole == Generated(order + a.order, a.resolved, a.failed))
      && (a.failed.None? ==> Remaining(refs, names, i + 1, a.resolved, u, whole, order + a.order))
  {
    var a := Gen(refs, names[i], resolved, u);
    assert names[i..][0] == names[i] && names[i..][1..] == names[i + 1..];
    if a.failed.None? {
      Monotone(u, resolved, a.resolved);
      var b := GenAll(refs, names[i + 1..], a.resolved, u);
      assert GenAll(refs, names[i..], resolved, u) == Generated(a.order + b.order, b.resolved, b.failed);
      Seqs.AppendAssoc(order, a.order, b.order);
    }
  }

  /** `Object.entries` of a record: one group per key, in key order. */
  function Entries(keys: seq<string>, record: map<string, seq<JavaMethod>>): (r: seq<MethodGroup>)
    requires forall k :: k in keys ==> k in record
    ensures |r| == |keys|
    ensures forall i :: 0 <= i < |keys| ==> r[i] == MethodGroup(keys[i], record[keys[i]])
  {
    seq(|keys|, i requires 0 <= i < |keys| => MethodGroup(keys[i], record[keys[i]]))
  }

  /** The modifiers `convertFields` builds for a public field: public, static, then readonly for a final field. */
  function FieldModifiersOf(f: ReflectedField): (r: seq<TsModifier>)
    ensures r == Converter.FieldTsModifiers(Readers.FieldOf(f))
  {
    [PublicModifier] + (if f.isStatic then [StaticModifier] else []) + (if f.isFinal then [ReadonlyModifier] else [])
  }

  /** One more public field: one more property and one more mapping's bookkeeping. */
  lemma PropertiesSnoc(env: Env, st: MapState, read: seq<JavaField>, f: JavaField)
    ensures Converter.PropertiesOf(env, read + [f]) == Converter.PropertiesOf(env, read) + [Converter.PropertyOf(env, f)]
    ensures ApplyAll(st, Converter.FieldEffects(env, read + [f]))
         == Apply(ApplyAll(st, Converter.FieldEffects(env, read)), MapType(env, f.typeName, true, true).effect)
  {
    assert (read + [f])[..|read|] == read;
  }

  lemma ConstructorDeclStep(env: Env, st: MapState, types: seq<JavaConstructor>, i: nat)
    requires i < |types|
    ensures ConstructorDecls(env, types[..i + 1])
         == ConstructorDecls(env, types[..i]) + [CreateConstructorDecl(Converter.ParametersOf(env, types[i].parameters), types[i].parameters, i)]
    ensures ApplyAll(st, ConstructorDeclEffects(env, types[..i + 1]))
         == ApplyAll(ApplyAll(st, ConstructorDeclEffects(env, types[..i])), Converter.ParamEffects(env, types[i].parameters))
  {
    Seqs.MapIndexedSnoc(ConstructorDeclFn(env), types, i);
    assert types[..i + 1][..i] == types[..i];
    ApplyAllAppend(st, ConstructorDeclEffects(env, types[..i]), Converter.ParamEffects(env, types[i].parameters));
  }

  lemma NewInstanceStep(env: Env, st: MapState, types: seq<JavaConstructor>, i: nat)
    requires i < |types|
    ensures NewInstanceMethods(env, types[..i + 1])
         == NewInstanceMethods(env, types[..i]) + [MethodDeclOf(env, Converter.NewInstance(env.classname, types[i].parameters), "newInstanceAsync", i, false, true)]
    ensures var e := Converter.MethodEffects(env, Converter.NewInstance(env.classname, types[i].parameters), true);
      ApplyAll(st, NewInstanceEffects(env, types[..i + 1])) == ApplyAll(ApplyAll(st, NewInstanceEffects(env, types[..i])), e)
  {
    Seqs.MapIndexedSnoc(NewInstanceFn(env), types, i);
    assert types[..i + 1][..i] == types[..i];
    ApplyAllAppend(st, NewInstanceEffects(env, types[..i]), Converter.MethodEffects(env, Converter.NewInstance(env.classname, types[i].parameters), true));
  }

  // ---------------------------------------------------------------------
  // The generator
  // ---------------------------------------------------------------------

  /** The progress callback, as the list of class names it was called with. */
  class ProgressLog {
    var calls: seq<string>

    constructor()
      ensures calls == []
    {
      calls := [];
    }
  }

  /** `TypescriptDefinitionGenerator`. */
  class Generator {
    const classname: string
    const progressCallback: ProgressLog?
    /** The list of resolved names, shared with every generator this one starts. */
    const resolvedImports: Resolver.Names
    const jvm: Jvm
    var usesBasicOrJavaType: bool
    var usesNewProxy: bool
    var usesInterfaceProxy: bool
    var additionalImports: seq<string>
    var importsToResolve: seq<string>
    var interfaceImports: seq<string>

    function Environment(): Env {
      EnvFor(jvm, classname)
    }

    function State(): MapState
      reads this
    {
      MapState(usesBasicOrJavaType, usesNewProxy, usesInterfaceProxy, importsToResolve, interfaceImports)
    }

    /** `additionalImports` holds the recorded classes that were not resolved when recorded. */
    ghost predicate Tracks()
      reads this, resolvedImports
    {
      additionalImports == Outside(importsToResolve, resolvedImports.items)
    }

    constructor(classname: string, progressCallback: ProgressLog?, resolvedImports: Resolver.Names, jvm: Jvm)
      ensures this.classname == classname && this.progressCallback == progressCallback
      ensures this.resolvedImports == resolvedImports && this.jvm == jvm
      ensures State() == InitialState && additionalImports == []
    {
      this.classname := classname;
      this.progressCallback := progressCallback;
      this.resolvedImports := resolvedImports;
      this.jvm := jvm;
      usesBasicOrJavaType := false;
      usesNewProxy := false;
      usesInterfaceProxy := false;
      additionalImports := [];
      importsToResolve := [];
      interfaceImports := [];
    }

    /** `createTypeReferenceNode`. */
    method CreateTypeReferenceNode(name: string, isParam: bool) returns (nodes: seq<TypeNode>)
      requires Tracks()
      modifies this
      ensures Tracks()
      ensures nodes == RefNodes(Environment(), name, isParam)
      ensures State() == Apply(old(State()), RefEffect(Environment(), name, isParam))
    {
      ghost var e := RefEffect(Environment(), name, isParam);
      ghost var expected := Apply(State(), e);
      var interfaceProxy: seq<TypeNode> := [];
      if jvm.isInterface(name) && isParam {
        usesInterfaceProxy := true;
        if name !in interfaceImports {
          interfaceImports := interfaceImports + [name];
        }
        interfaceProxy := [ProxyRef(classname, name)];
      }
      assert interfaceImports == expected.interfaceImports && usesInterfaceProxy == expected.usesInterfaceProxy;
      RecordImport(name);
      assert State() == expected;
      nodes := [TypeRef(RefName(classname, name, isParam), [])] + interfaceProxy;
    }

    /**
     * The two pushes of `createTypeReferenceNode`: the class becomes an
     * additional import unless it is resolved, and is recorded.
     */
    method RecordImport(name: string)
      requires Tracks()
      modifies this
      ensures Tracks()
      ensures additionalImports == old(additionalImports) + (if name in resolvedImports.items then [] else [name])
      ensures importsToResolve == old(importsToResolve) + [name]
      ensures usesBasicOrJavaType == old(usesBasicOrJavaType) && usesNewProxy == old(usesNewProxy)
      ensures usesInterfaceProxy == old(usesInterfaceProxy) && interfaceImports == old(interfaceImports)
    {
      if name !in resolvedImports.items {
        additionalImports := additionalImports + [name];
      }
      OutsideSnoc(importsToResolve, resolvedImports.items, name);
      importsToResolve := importsToResolve + [name];
    }

    /** `createUnion`. */
    method CreateUnion(javaType: string, isParam: bool, strictNullTypes: bool, keyword: Keyword, withBigInt: bool) returns (t: TypeNode)
      requires Tracks()
      modifies this
      ensures Tracks()
      ensures var u := KeywordUnion(Environment(), javaType, isParam, strictNullTypes, keyword, withBigInt);
        t == u.node && State() == Apply(old(State()), u.effect)
    {
      var types := [KeywordType(keyword)];
      if !IsPrimitive(javaType) && strictNullTypes {
        types := types + [NullLiteral];
      }
      assert types == [KeywordType(keyword)] + (if !IsPrimitive(javaType) && strictNullTypes then [NullLiteral] else []);
      if !isParam {
        assert KeywordUnion(Environment(), javaType, isParam, strictNullTypes, keyword, withBigInt) == Mapped(UnionType(types), NoEffect);
        return UnionType(types);
      }
      var boxed := PrimitiveToClassType(javaType);
      var refs := CreateTypeReferenceNode(boxed, true);
      var additional := if withBigInt then [KeywordType(BigIntKeyword)] else [];
      t := UnionType(refs + additional + types);
      assert KeywordUnion(Environment(), javaType, isParam, strictNullTypes, keyword, withBigInt)
          == Mapped(t, RefEffect(Environment(), boxed, true));
    }

    /** `javaTypeToTypescriptType`. */
    method JavaTypeToTypescriptType(javaType: string, isParam: bool, strictNullTypes: bool) returns (t: TypeNode)
      requires Tracks()
      modifies this
      ensures Tracks()
      ensures var r := MapType(Environment(), javaType, isParam, strictNullTypes);
        t == r.node && State() == Apply(old(State()), r.effect)
      decreases |javaType|
    {
      if IsBufferName(javaType) {
        return CreateType(strictNullTypes, [TypeRef("Buffer", [])]);
      }
      if EndsWithBrackets(javaType) {
        var element := JavaTypeToTypescriptType(javaType[..|javaType| - 2], isParam, true);
        return CreateType(strictNullTypes, [ArrayType(element)]);
      }
      if IsNumberName(javaType) {
        t := CreateUnion(javaType, isParam, strictNullTypes, NumberKeyword, false);
      } else if IsLongName(javaType) {
        t := CreateUnion(javaType, isParam, strictNullTypes, NumberKeyword, true);
      } else if IsStringName(javaType) {
        t := CreateType(strictNullTypes, [KeywordType(StringKeyword)]);
      } else if IsBooleanName(javaType) {
        t := CreateUnion(javaType, isParam, strictNullTypes, BooleanKeyword, false);
      } else if IsVoidName(javaType) {
        t := KeywordType(VoidKeyword);
      } else if javaType == "java.lang.Object" {
        usesBasicOrJavaType := true;
        t := CreateType(strictNullTypes, [TypeRef("BasicOrJavaType", [])]);
      } else {
        var nodes := CreateTypeReferenceNode(javaType, isParam);
        t := CreateType(strictNullTypes, nodes);
      }
    }

    /** `convertParameter`. */
    method ConvertParameter(param: string, index: nat) returns (p: Parameter)
      requires Tracks()
      modifies this
      ensures Tracks()
      ensures p == Converter.ParameterAt(Environment(), index, param)
      ensures State() == Apply(old(State()), MapType(Environment(), param, true, true).effect)
    {
      var t := JavaTypeToTypescriptType(param, true, true);
      p := Parameter("var" + NatToString(index), t);
    }

    /** `convertParameters`. */
    method ConvertParameters(params: seq<string>) returns (ps: seq<Parameter>)
      requires Tracks()
      modifies this
      ensures Tracks()
      ensures ps == Converter.ParametersOf(Environment(), params)
      ensures State() == ApplyAll(old(State()), Converter.ParamEffects(Environment(), params))
    {
      ps := [];
      var i := 0;
      while i < |params|
        invariant 0 <= i <= |params|
        invariant Tracks()
        invariant ps == Converter.ParametersOf(Environment(), params[..i])
        invariant State() == ApplyAll(old(State()), Converter.ParamEffects(Environment(), params[..i]))
      {
        var p := ConvertParameter(params[i], i);
        ps := ps + [p];
        Seqs.MapIndexedSnoc(Converter.ParameterFn(Environment()), params, i);
        assert params[..i + 1][..i] == params[..i];
        i := i + 1;
      }
      assert params[..i] == params;
    }

    /** `createMethod`: the return type is mapped before the parameters. */
    method CreateMethod(m: JavaMethod, name: string, i: nat, isSync: bool, nonNullReturnType: bool) returns (d: ClassElement)
      requires Tracks()
      modifies this
      ensures Tracks()
      ensures d == MethodDeclOf(Environment(), m, name, i, isSync, nonNullReturnType)
      ensures State() == ApplyAll(old(State()), Converter.MethodEffects(Environment(), m, nonNullReturnType))
    {
      var returnType := JavaTypeToTypescriptType(m.returnType, false, !nonNullReturnType);
      ghost var mid := State();
      if !isSync {
        returnType := Promise(returnType);
      }
      var params := ConvertParameters(m.parameters);
      d := MethodDecl(Converter.TsMethodModifiers(m), name + (if isSync then "Sync" else ""), params, returnType,
                      Converter.MethodComments(name, i, CreateMethodComment(m, "")));
      ghost var e := MapType(Environment(), m.returnType, false, !nonNullReturnType).effect;
      assert ApplyAll(old(State()), [e]) == mid;
      ApplyAllAppend(old(State()), [e], Converter.ParamEffects(Environment(), m.parameters));
    }

    /** `convertMethod`: the async declaration, then the sync one, of each overload in order. */
    method ConvertMethod(methods: seq<JavaMethod>, name: string) returns (res: seq<ClassElement>)
      requires Tracks()
      modifies this
      ensures Tracks()
      ensures res == ConvertedMethod(Environment(), methods, name)
      ensures State() == ApplyAll(old(State()), ConvertedMethodEffects(Environment(), methods, name))
    {
      res := [];
      var i := 0;
      while i < |methods|
        invariant 0 <= i <= |methods|
        invariant Tracks()
        invariant res == ConvertedMethod(Environment(), methods[..i], name)
        invariant State() == ApplyAll(old(State()), ConvertedMethodEffects(Environment(), methods[..i], name))
      {
        var m := methods[i];
        var nonNullReturnType := name in Converter.NON_NULL_RETURN_METHODS;
        var async := CreateMethod(m, name, i, false, nonNullReturnType);
        var sync := CreateMethod(m, name, i, true, nonNullReturnType);
        res := res + [async, sync];
        ConvertedMethodStep(Environment(), old(State()), methods, name, i);
        i := i + 1;
      }
      assert methods[..i] == methods;
    }

    /** The loop of `generate` over the entries of the method record. */
    method ConvertMethodGroups(groups: seq<MethodGroup>) returns (res: seq<ClassElement>)
      requires Tracks()
      modifies this
      ensures Tracks()
      ensures res == MethodsSection(Environment(), groups)
      ensures State() == ApplyAll(old(State()), MethodsSectionEffects(Environment(), groups))
    {
      res := [];
      var i := 0;
      while i < |groups|
        invariant 0 <= i <= |groups|
        invariant Tracks()
        invariant res == MethodsSection(Environment(), groups[..i])
        invariant State() == ApplyAll(old(State()), MethodsSectionEffects(Environment(), groups[..i]))
      {
        var converted := ConvertMethod(groups[i].overloads, groups[i].name);
        res := res + converted;
        MethodsSectionStep(Environment(), old(State()), groups, i);
        i := i + 1;
      }
      assert groups[..i] == groups;
    }

    /** `convertFields`: one property per public field, in order. */
    method ConvertFields(fields: seq<ReflectedField>) returns (res: seq<ClassElement>)
      requires Tracks()
      modifies this
      ensures Tracks()
      ensures var read := Seqs.Filtered(Readers.IsPublicField, Readers.FieldOf, fields);
        res == Converter.PropertiesOf(Environment(), read) && State() == ApplyAll(old(State()), Converter.FieldEffects(Environment(), read))
    {
      res := [];
      ghost var read: seq<JavaField> := [];
      var i := 0;
      while i < |fields|
        invariant 0 <= i <= |fields|
        invariant Tracks()
        invariant read == Seqs.Filtered(Readers.IsPublicField, Readers.FieldOf, fields[..i])
        invariant res == Converter.PropertiesOf(Environment(), read)
        invariant State() == ApplyAll(old(State()), Converter.FieldEffects(Environment(), read))
      {
        var field := fields[i];
        Seqs.TakeSnoc(fields, i);
        Seqs.FilteredSnoc(Readers.IsPublicField, Readers.FieldOf, fields[..i], field);
        if field.isPublic {
          var declaration := ConvertField(field);
          res := res + [declaration];
          PropertiesSnoc(Environment(), old(State()), read, Readers.FieldOf(field));
          read := read + [Readers.FieldOf(field)];
        }
        i := i + 1;
      }
      assert fields[..i] == fields;
    }

    /** The body of the `convertFields` loop for a public field. */
    method ConvertField(field: ReflectedField) returns (declaration: ClassElement)
      requires Tracks()
      modifies this
      ensures Tracks()
      ensures declaration == Converter.PropertyOf(Environment(), Readers.FieldOf(field))
      ensures State() == Apply(old(State()), MapType(Environment(), field.typeName, true, true).effect)
    {
      var tsModifiers := FieldModifiersOf(field);
      var t := JavaTypeToTypescriptType(field.typeName, true, true);
      declaration := PropertyDecl(tsModifiers, field.name, t, Converter.FieldComments(Readers.FieldOf(field)));
    }

    /** `convertConstructors`: the public constructors' parameter lists are read, then the factories come before the constructors. */
    method ConvertConstructors(constructors: seq<ReflectedConstructor>) returns (res: seq<ClassElement>)
      requires Tracks()
      modifies this
      ensures Tracks()
      ensures var types := Readers.ConstructorsRead(constructors);
        res == ConstructorsSection(Environment(), types)
        && State() == ApplyAll(ApplyAll(old(State()), ConstructorDeclEffects(Environment(), types)), NewInstanceEffects(Environment(), types))
    {
      var types := Readers.ReadConstructors(constructors);
      var tsConstructors := CreateConstructors(types);
      var newInstanceMethods := CreateNewInstanceMethods(types);
      res := newInstanceMethods + tsConstructors;
    }

    /** `tsConstructors`: the `map` building one constructor declaration per parameter list. */
    method CreateConstructors(types: seq<JavaConstructor>) returns (res: seq<ClassElement>)
      requires Tracks()
      modifies this
      ensures Tracks()
      ensures res == ConstructorDecls(Environment(), types)
      ensures State() == ApplyAll(old(State()), ConstructorDeclEffects(Environment(), types))
    {
      res := [];
      var i := 0;
      while i < |types|
        invariant 0 <= i <= |types|
        invariant Tracks()
        invariant res == ConstructorDecls(Environment(), types[..i])
        invariant State() == ApplyAll(old(State()), ConstructorDeclEffects(Environment(), types[..i]))
      {
        var t := types[i].parameters;
        var params := ConvertParameters(t);
        res := res + [CreateConstructorDecl(params, t, i)];
        ConstructorDeclStep(Environment(), old(State()), types, i);
        i := i + 1;
      }
      assert types[..i] == types;
    }

    /** `newInstanceMethods`: the `map` building one static async factory per parameter list. */
    method CreateNewInstanceMethods(types: seq<JavaConstructor>) returns (res: seq<ClassElement>)
      requires Tracks()
      modifies this
      ensures Tracks()
      ensures res == NewInstanceMethods(Environment(), types)
      ensures State() == ApplyAll(old(State()), NewInstanceEffects(Environment(), types))
    {
      res := [];
      var i := 0;
      while i < |types|
        invariant 0 <= i <= |types|
        invariant Tracks()
        invariant res == NewInstanceMethods(Environment(), types[..i])
        invariant State() == ApplyAll(old(State()), NewInstanceEffects(Environment(), types[..i]))
      {
        var factory := CreateMethod(Converter.NewInstance(classname, types[i].parameters), "newInstanceAsync", i, false, true);
        res := res + [factory];
        NewInstanceStep(Environment(), old(State()), types, i);
        i := i + 1;
      }
      assert types[..i] == types;
    }

    /**
     * `convertMethods`: the public methods, read and grouped by name in one
     * pass; a record is its keys in insertion order plus the map from key to
     * overloads.
     */
    static method ConvertMethods(methods: seq<ReflectedMethod>) returns (keys: seq<string>, result: map<string, seq<JavaMethod>>)
      ensures forall k :: k in keys ==> k in result
      ensures Entries(keys, result) == Readers.Grouped(Readers.MethodsRead(methods))
    {
      keys := [];
      result := map[];
      ghost var done: seq<JavaMethod> := [];
      var i := 0;
      while i < |methods|
        invariant 0 <= i <= |methods|
        invariant done == Readers.MethodsRead(methods[..i])
        invariant Readers.IsRecordOf(done, keys, result)
      {
        var method_ := methods[i];
        Seqs.TakeSnoc(methods, i);
        Seqs.FilteredSnoc(Readers.IsPublicMethod, Readers.MethodOf, methods[..i], method_);
        if method_.isPublic {
          var modifiers := Readers.ReadMethodModifiers(method_);
          var data := JavaMethod(method_.name, modifiers, method_.parameterTypes, method_.returnType);
          ghost var keys0, result0 := keys, result;
          if data.name in result {
            result := result[data.name := result[data.name] + [data]];
          } else {
            result := result[data.name := [data]];
            keys := keys + [data.name];
          }
          Readers.RecordStep(done, data, keys0, result0, keys, result);
          done := done + [data];
        }
        i := i + 1;
      }
      assert methods[..i] == methods;
      Readers.RecordIsGrouped(Readers.MethodsRead(methods), keys, result);
    }

    /** `createMethodSignature`: the parameters are converted before the return type. */
    method CreateMethodSignature(m: JavaMethod, name: string, i: nat, isDefault: bool, nonNullReturnType: bool) returns (sig: MethodSignature)
      requires Tracks()
      modifies this
      ensures Tracks()
      ensures sig == Converter.SignatureOf(Environment(), m, name, i, isDefault, nonNullReturnType)
      ensures State() == ApplyAll(old(State()), Converter.SignatureEffects(Environment(), m, nonNullReturnType))
    {
      var params := ConvertParameters(m.parameters);
      ghost var mid := State();
      var returnType := JavaTypeToTypescriptType(m.returnType, false, !nonNullReturnType);
      var requiredNote := "";
      if Default !in m.modifiers && isDefault {
        requiredNote := Converter.REQUIRED_NOTE;
      }
      sig := MethodSignature(name, isDefault, params, returnType, Converter.MethodComments(name, i, CreateMethodComment(m, requiredNote)));
      ghost var re := [MapType(Environment(), m.returnType, false, !nonNullReturnType).effect];
      assert ApplyAll(mid, re) == State();
      ApplyAllAppend(old(State()), Converter.ParamEffects(Environment(), m.parameters), re);
    }

    /** The signatures of one entry: its non-static overloads, optional when one of them is default. */
    method CreateGroupSignatures(g: MethodGroup) returns (sigs: seq<MethodSignature>)
      requires Tracks()
      modifies this
      ensures Tracks()
      ensures sigs == Converter.GroupSignatures(Environment(), g)
      ensures State() == ApplyAll(old(State()), Converter.GroupSignatureEffects(Environment(), g))
    {
      var ms := Converter.NonStatic(g.overloads);
      var isDefault := Converter.HasDefault(ms);
      var nonNull := g.name in Converter.NON_NULL_RETURN_METHODS;
      ghost var env := Environment();
      ghost var st := State();
      ghost var f := Converter.SignatureFn(env, g.name, isDefault, nonNull);
      sigs := [];
      var i := 0;
      while i < |ms|
        invariant 0 <= i <= |ms|
        invariant Tracks()
        invariant sigs == Seqs.MapIndexed(f, ms[..i])
        invariant State() == ApplyAll(st, Converter.GroupSignatureEffectsUpTo(env, g.name, ms, i))
      {
        var sig := CreateMethodSignature(ms[i], g.name, i, isDefault, nonNull);
        sigs := sigs + [sig];
        Converter.GroupSignaturesStep(env, st, g.name, isDefault, ms, i);
        i := i + 1;
      }
      assert ms[..i] == ms;
    }

    /** `createInterfaceMethodSignatures`: the signatures of each entry, entry after entry. */
    method CreateInterfaceMethodSignatures(groups: seq<MethodGroup>) returns (sigs: seq<MethodSignature>)
      requires Tracks()
      modifies this
      ensures Tracks()
      ensures sigs == Converter.InterfaceSignatures(Environment(), groups)
      ensures State() == ApplyAll(old(State()), Converter.InterfaceSignatureEffects(Environment(), groups))
    {
      sigs := [];
      var i := 0;
      while i < |groups|
        invariant 0 <= i <= |groups|
        invariant Tracks()
        invariant sigs == Converter.InterfaceSignatures(Environment(), groups[..i])
        invariant State() == ApplyAll(old(State()), Converter.InterfaceSignatureEffects(Environment(), groups[..i]))
      {
        var gs := CreateGroupSignatures(groups[i]);
        sigs := sigs + gs;
        Converter.InterfaceSignaturesStep(Environment(), old(State()), groups, i);
        i := i + 1;
      }
      assert groups[..i] == groups;
    }

    /** `createNewProxyMethod`: the proxy factory, which needs both proxy helpers. */
    method CreateNewProxyMethod(simpleName: string) returns (s: Statement)
      requires Tracks()
      modifies this
      ensures Tracks()
      ensures s == Converter.ProxyFunctionOf(simpleName, classname)
      ensures State() == old(State()).(usesNewProxy := true, usesInterfaceProxy := true)
    {
      usesNewProxy := true;
      usesInterfaceProxy := true;
      s := ProxyFunction("create" + simpleName + "Proxy", simpleName + "Interface", classname);
    }

    /** `getImports`. */
    function GetImports(): Statement
      reads this
    {
      Converter.RuntimeImports(State())
    }

    /** `getAdditionalImports`. */
    function GetAdditionalImports(): seq<Statement>
      reads this
    {
      Converter.AdditionalImports(classname, State())
    }

    /**
     * The conversion part of `generate`: the class members, the interface
     * section of an interface, then the statements to print.
     */
    method ConvertClass(cls: ReflectedClass) returns (sourceText: seq<Option<Statement>>)
      requires Tracks() && State() == InitialState
      modifies this
      ensures Tracks()
      ensures State() == ClassState(Environment(), cls)
      ensures sourceText == ClassSource(Environment(), cls)
    {
      var simpleName := GetSimpleName(classname);
      var classMembers := ConvertMembers(cls);
      var isAbstractOrInterface := IsAbstractOrInterface(cls);
      var interfaceDeclaration := ConvertInterface(cls, simpleName);
      var tsClass := CreateClassDecl(simpleName, classMembers);
      sourceText := Converter.SourceStatements(GetImports(), GetAdditionalImports(), tsClass, interfaceDeclaration,
                                               CreateExportStatement(simpleName, isAbstractOrInterface, classname, DefaultOptions));
    }

    /** The class members `generate` collects: the properties, the method declarations of every record entry, and the constructors of a concrete class. */
    method ConvertMembers(cls: ReflectedClass) returns (classMembers: seq<ClassElement>)
      requires Tracks() && State() == InitialState
      modifies this
      ensures Tracks()
      ensures State() == MembersState(Environment(), cls)
      ensures classMembers == ClassMembersOf(Environment(), cls)
    {
      var fields := Readers.OnlyUnique(cls.fields);
      classMembers := ConvertFields(fields);
      var keys, convertedMethods := ConvertMethods(cls.methods);
      var converted := ConvertMethodGroups(Entries(keys, convertedMethods));
      classMembers := classMembers + converted;
      if !IsAbstractOrInterface(cls) {
        var convertedConstructors := ConvertConstructors(cls.constructors);
        classMembers := classMembers + convertedConstructors;
      }
    }

    /** The interface section of `generate`: the interface of the non-static methods and the proxy factory, for an interface only. */
    method ConvertInterface(cls: ReflectedClass, simpleName: string) returns (interfaceDeclaration: seq<Option<Statement>>)
      requires Tracks() && simpleName == GetSimpleName(classname)
      modifies this
      ensures Tracks()
      ensures State() == if cls.isInterface then ApplyAll(old(State()), Converter.InterfaceSignatureEffects(Environment(), Groups(cls))).(usesNewProxy := true, usesInterfaceProxy := true)
                         else old(State())
      ensures interfaceDeclaration == InterfaceSection(Environment(), cls)
    {
      interfaceDeclaration := [];
      if cls.isInterface {
        var interfaceKeys, interfaceMethods := ConvertMethods(cls.methods);
        var sigs := CreateInterfaceMethodSignatures(Entries(interfaceKeys, interfaceMethods));
        var decl := InterfaceDecl(simpleName + "Interface", sigs);
        var proxy := CreateNewProxyMethod(simpleName);
        interfaceDeclaration := [None, Some(decl), None, Some(proxy)];
      }
    }

    /**
     * `generate`: nothing when the class is resolved already; otherwise the
     * class is marked resolved and reported, loaded, converted, and every
     * additional import is generated by a new generator sharing the resolved
     * list and the callback, before the class's own declaration.
     */
    method Generate(ghost refs: map<string, seq<string>>, ghost sources: map<string, seq<Option<Statement>>>, ghost u: set<string>) returns (r: Result<seq<Generation.ModuleDeclaration>>)
      requires RefsAgree(jvm, refs) && SourcesAgree(jvm, sources) && Closed(refs, u) && classname in u
      requires State() == InitialState && additionalImports == []
      modifies this, resolvedImports, progressCallback
      ensures var g := Gen(refs, classname, old(resolvedImports.items), u);
        && resolvedImports.items == g.resolved
        && (progressCallback != null ==> progressCallback.calls == old(progressCallback.calls) + g.resolved[|old(resolvedImports.items)|..])
        && Answers(sources, g, r)
      decreases |u - Elements(resolvedImports.items)|, 0
    {
      ghost var resolved := resolvedImports.items;
      if classname in resolvedImports.items {
        return Ok([]);
      }
      resolvedImports.items := resolvedImports.items + [classname];
      if progressCallback != null {
        progressCallback.calls := progressCallback.calls + [classname];
      }
      Shrinks(u, resolved, classname);
      if classname !in jvm.classes {
        return Err(ClassNotFound(classname));
      }
      r := GenerateLoaded(refs, sources, u);
      GenMarked(refs, classname, resolved, u);
      ghost var sub := Imports(refs, classname, resolved + [classname], u);
      if progressCallback != null {
        Seqs.AppendAssoc(old(progressCallback.calls), [classname], sub.resolved[|resolved| + 1..]);
      }
    }

    /**
     * The rest of `generate` for a class marked resolved and loaded: the
     * conversion, then the additional imports, then the class's own
     * declaration.
     */
    method GenerateLoaded(ghost refs: map<string, seq<string>>, ghost sources: map<string, seq<Option<Statement>>>, ghost u: set<string>) returns (r: Result<seq<Generation.ModuleDeclaration>>)
      requires RefsAgree(jvm, refs) && SourcesAgree(jvm, sources) && Closed(refs, u) && classname in u
      requires classname in jvm.classes && classname in resolvedImports.items
      requires State() == InitialState && additionalImports == []
      modifies this, resolvedImports, progressCallback
      ensures classname in refs
      ensures var sub := Imports(refs, classname, old(resolvedImports.items), u);
        && resolvedImports.items == sub.resolved
        && (progressCallback != null ==> progressCallback.calls == old(progressCallback.calls) + sub.resolved[|old(resolvedImports.items)|..])
        && Answers(sources, if sub.failed.Some? then sub else Generated(sub.order + [classname], sub.resolved, None), r)
      decreases |u - Elements(resolvedImports.items)|, 3
    {
      var cls := jvm.classes[classname];
      var sourceText := ConvertClass(cls);
      OutsideSpec(refs[classname], resolvedImports.items);
      var generated := GenerateImports(refs, sources, u);
      if generated.Err? {
        return generated;
      }
      var own := Generation.ModuleDeclaration(classname, sourceText);
      ghost var sub := Imports(refs, classname, old(resolvedImports.items), u);
      DeclaresOne(sources, own);
      DeclaresAppend(sources, generated.value, sub.order, [own], [classname]);
      r := Ok(generated.value + [own]);
    }

    /** One turn of the loop of `generate`: a new generator for `imported`, sharing the resolved list and the callback. */
    method GenerateImport(imported: string, ghost refs: map<string, seq<string>>, ghost sources: map<string, seq<Option<Statement>>>, ghost u: set<string>)
      returns (generated: Result<seq<Generation.ModuleDeclaration>>)
      requires RefsAgree(jvm, refs) && SourcesAgree(jvm, sources) && Closed(refs, u) && imported in u
      modifies resolvedImports, progressCallback
      ensures var g := Gen(refs, imported, old(resolvedImports.items), u);
        && resolvedImports.items == g.resolved
        && (progressCallback != null ==> progressCallback.calls == old(progressCallback.calls) + g.resolved[|old(resolvedImports.items)|..])
        && Answers(sources, g, generated)
      decreases |u - Elements(resolvedImports.items)|, 1
    {
      var generator := new Generator(imported, progressCallback, resolvedImports, jvm);
      generated := generator.Generate(refs, sources, u);
    }

    /** The loop of `generate` over the additional imports, each handed to a new generator. */
    method GenerateImports(ghost refs: map<string, seq<string>>, ghost sources: map<string, seq<Option<Statement>>>, ghost u: set<string>)
      returns (r: Result<seq<Generation.ModuleDeclaration>>)
      requires RefsAgree(jvm, refs) && SourcesAgree(jvm, sources) && Closed(refs, u) && forall x :: x in additionalImports ==> x in u
      modifies resolvedImports, progressCallback
      ensures var g := GenAll(refs, additionalImports, old(resolvedImports.items), u);
        && resolvedImports.items == g.resolved
        && (progressCallback != null ==> progressCallback.calls == old(progressCallback.calls) + g.resolved[|old(resolvedImports.items)|..])
        && Answers(sources, g, r)
      decreases |u - Elements(resolvedImports.items)|, 2
    {
      ghost var start := resolvedImports.items;
      ghost var whole := GenAll(refs, additionalImports, start, u);
      ghost var log := if progressCallback != null then progressCallback.calls else [];
      ghost var order: seq<string> := [];
      var res: seq<Generation.ModuleDeclaration> := [];
      LoopStart(refs, sources, additionalImports, start, u);
      var i := 0;
      while i < |additionalImports|
        invariant i <= |additionalImports| && Looping(refs, sources, additionalImports, i, start, resolvedImports.items, u, whole, order, res)
        invariant progressCallback != null ==> progressCallback.calls == log + resolvedImports.items[|start|..]
      {
        ghost var before := resolvedImports.items;
        var generated := GenerateImport(additionalImports[i], refs, sources, u);
        ghost var a := Gen(refs, additionalImports[i], before, u);
        LoopStep(refs, sources, additionalImports, i, start, before, u, whole, order, res, log, generated);
        if generated.Err? {
          return generated;
        }
        res := res + generated.value;
        order := order + a.order;
        i := i + 1;
      }
      LoopEnd(refs, sources, additionalImports, start, resolvedImports.items, u, whole, order, res);
      r := Ok(res);
    }
  }
}
