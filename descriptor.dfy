/**
 * Class descriptors: the import list every descriptor carries, computed by
 * the TypeScript descriptor classes and by the two Java ones, the
 * descriptor constructors, and `convert`, which drives a converter over a
 * descriptor's members.
 */
module Descriptor {
  import opened Wrappers
  import opened Types
  import opened Helpers
  import opened Seqs
  import opened TsAst
  import opened TypeMap
  import Util
  import Readers
  import Conv = Converter

  // ---------------------------------------------------------------------
  // Collecting the referenced type names
  // ---------------------------------------------------------------------

  /** For every method in turn, its parameter types and then its return type. */
  function MethodTypes(ms: seq<JavaMethod>): seq<string> {
    if |ms| == 0 then []
    else MethodTypes(ms[..|ms| - 1]) + ms[|ms| - 1].parameters + [ms[|ms| - 1].returnType]
  }

  /** The type of every field, in order. */
  function FieldTypes(fs: seq<JavaField>): (r: seq<string>)
    ensures |r| == |fs|
    ensures forall i :: 0 <= i < |fs| ==> r[i] == fs[i].typeName
  {
    if |fs| == 0 then [] else FieldTypes(fs[..|fs| - 1]) + [fs[|fs| - 1].typeName]
  }

  /** The parameter types of every constructor, constructor after constructor. */
  function ConstructorTypes(cs: seq<JavaConstructor>): seq<string> {
    if |cs| == 0 then [] else ConstructorTypes(cs[..|cs| - 1]) + cs[|cs| - 1].parameters
  }

  /** Everything `calculateImports` pushes: method types, then field types, then constructor parameters. */
  function CollectedTypes(methods: seq<MethodGroup>, fields: seq<JavaField>, ctors: seq<JavaConstructor>): seq<string> {
    MethodTypes(AllOverloads(methods)) + FieldTypes(fields) + ConstructorTypes(ctors)
  }

  /** The pushing loops of `calculateImports` (and of `updateImports`). */
  method CollectTypes(methods: seq<MethodGroup>, fields: seq<JavaField>, ctors: seq<JavaConstructor>) returns (imports: seq<string>)
    ensures imports == CollectedTypes(methods, fields, ctors)
  {
    imports := [];
    var all := AllOverloads(methods);
    var i := 0;
    while i < |all|
      invariant 0 <= i <= |all|
      invariant imports == MethodTypes(all[..i])
    {
      assert all[..i + 1][..i] == all[..i];
      imports := imports + all[i].parameters + [all[i].returnType];
      i := i + 1;
    }
    assert all[..i] == all;
    ghost var head := imports;
    i := 0;
    while i < |fields|
      invariant 0 <= i <= |fields|
      invariant imports == head + FieldTypes(fields[..i])
    {
      assert fields[..i + 1][..i] == fields[..i];
      imports := imports + [fields[i].typeName];
      i := i + 1;
    }
    assert fields[..i] == fields;
    head := imports;
    i := 0;
    while i < |ctors|
      invariant 0 <= i <= |ctors|
      invariant imports == head + ConstructorTypes(ctors[..i])
    {
      assert ctors[..i + 1][..i] == ctors[..i];
      imports := imports + ctors[i].parameters;
      i := i + 1;
    }
    assert ctors[..i] == ctors;
  }

  // ---------------------------------------------------------------------
  // The TypeScript pipeline
  // ---------------------------------------------------------------------

  /** The `basicTypes` list: the only names the descriptors never import. */
  const BASIC_TYPES: seq<string> := ["void", "java.lang.Void", "java.lang.Object"]

  /** `noBasicTypes`. */
  predicate NoBasicTypes(key: string) {
    key !in BASIC_TYPES
  }

  /** `noArrays`: every `[` and `]` removed, so `int[][]` becomes `int`. */
  function NoArrays(key: string): (r: string)
    ensures '[' !in r && ']' !in r
    ensures '[' !in key && ']' !in key ==> r == key
  {
    RemoveAll(RemoveAll(key, '['), ']')
  }

  /** `toObjects`. */
  function ToObjects(key: string): string {
    PrimitiveToClassType(key)
  }

  /** `.map(noArrays).filter(noBasicTypes).map(toObjects).filter(unique)`. */
  function ImportPipeline(collected: seq<string>): seq<string> {
    Util.FilterUnique(Filtered(NoBasicTypes, ToObjects, Map(NoArrays, collected)))
  }

  /** The imports a TypeScript descriptor computes for its members. */
  function ClassImports(methods: seq<MethodGroup>, fields: seq<JavaField>, ctors: seq<JavaConstructor>): seq<string> {
    ImportPipeline(CollectedTypes(methods, fields, ctors))
  }

  /** A name that can be imported: no array brackets, not primitive, not `void`, `Void` or `Object`. */
  predicate Importable(x: string) {
    '[' !in x && ']' !in x && !IsPrimitive(x) && x !in BASIC_TYPES
  }

  /** Boxing a name without brackets that is not basic gives an importable name. */
  lemma BoxedIsImportable(y: string)
    requires '[' !in y && ']' !in y && y !in BASIC_TYPES
    ensures Importable(ToObjects(y))
  {
    if IsPrimitive(y) {
      assert ToObjects(y) in BOXED;
      BoxedHaveNoBrackets();
      BoxedAreNotBasic();
    }
  }

  lemma BoxedHaveNoBrackets()
    ensures forall b :: b in BOXED ==> '[' !in b && ']' !in b
  {
  }

  lemma BoxedAreNotBasic()
    ensures forall b :: b in BOXED ==> b !in BASIC_TYPES
  {
  }

  /**
   * The pipeline imports exactly the boxed bracket-free forms of the
   * collected names that are not basic.
   */
  lemma ImportPipelineMembers(collected: seq<string>)
    ensures forall x :: x in ImportPipeline(collected) <==>
      exists t :: t in collected && NoBasicTypes(NoArrays(t)) && x == ToObjects(NoArrays(t))
  {
    UniqueFilteredMapSpec(NoBasicTypes, ToObjects, NoArrays, collected);
  }

  /** The pipeline's shape for any stages: its elements are the images of the elements whose image is kept. */
  lemma UniqueFilteredMapSpec<T, U, V>(keep: U -> bool, f: U -> V, g: T -> U, s: seq<T>)
    ensures forall y :: y in Util.FilterUnique(Filtered(keep, f, Map(g, s))) <==>
      exists x :: x in s && keep(g(x)) && y == f(g(x))
  {
    Util.FilterUniqueSpec(Filtered(keep, f, Map(g, s)));
    FilteredMapSpec(keep, f, g, s);
  }

  /** The pipeline imports every name once, and nothing it imports is a primitive, an array or a basic name. */
  lemma ImportPipelineSpec(collected: seq<string>)
    ensures Util.Distinct(ImportPipeline(collected))
    ensures forall x :: x in ImportPipeline(collected) ==> Importable(x)
  {
    Util.FilterUniqueSpec(Filtered(NoBasicTypes, ToObjects, Map(NoArrays, collected)));
    ImportPipelineMembers(collected);
    forall x | x in ImportPipeline(collected) ensures Importable(x) {
      var t :| t in collected && NoBasicTypes(NoArrays(t)) && x == ToObjects(NoArrays(t));
      BoxedIsImportable(NoArrays(t));
    }
  }

  /** Running the pipeline on its own result changes nothing. */
  lemma ImportPipelineIdempotent(collected: seq<string>)
    ensures ImportPipeline(ImportPipeline(collected)) == ImportPipeline(collected)
  {
    var r := ImportPipeline(collected);
    ImportPipelineSpec(collected);
    forall x | x in r ensures NoArrays(x) == x && NoBasicTypes(x) && ToObjects(x) == x {
    }
    PipelineFixes(NoBasicTypes, ToObjects, NoArrays, r);
  }

  /** Stages that keep and fix every element of a sequence without repeats leave it as it is. */
  lemma PipelineFixes<T>(keep: T -> bool, f: T -> T, g: T -> T, r: seq<T>)
    requires Util.Distinct(r)
    requires forall x :: x in r ==> g(x) == x && keep(x) && f(x) == x
    ensures Util.FilterUnique(Filtered(keep, f, Map(g, r))) == r
  {
    MapIdentity(g, r);
    FilteredAll(keep, f, r);
    MapIdentity(f, r);
    Util.FilterUniqueOfDistinct(r);
  }

  /** A map that fixes every element is the identity. */
  lemma {:induction false} MapIdentity<T>(f: T -> T, s: seq<T>)
    requires forall x :: x in s ==> f(x) == x
    ensures Map(f, s) == s
  {
    var r := Map(f, s);
    forall i | 0 <= i < |s| ensures r[i] == s[i] {
      assert s[i] in s;
    }
  }

  /** `calculateImports` of the TypeScript descriptor: push every referenced name, then run the pipeline. */
  method CalculateImports(methods: seq<MethodGroup>, fields: seq<JavaField>, ctors: seq<JavaConstructor>) returns (imports: seq<string>)
    ensures imports == ClassImports(methods, fields, ctors)
  {
    var collected := CollectTypes(methods, fields, ctors);
    imports := ImportPipeline(collected);
  }

  // ---------------------------------------------------------------------
  // Building a descriptor (JavaClass.ts)
  // ---------------------------------------------------------------------

  /**
   * The descriptor constructor: imports handed in are kept as they are, even
   * an empty list, and only a missing list is computed from the members.
   */
  method NewJavaClass(name: string, simpleName: string, isInterface: bool, isAbstractOrInterface: bool,
                      methods: seq<MethodGroup>, fields: seq<JavaField>, constructors: seq<JavaConstructor>,
                      imports: Option<seq<string>>) returns (c: JavaClass)
    ensures c.name == name && c.simpleName == simpleName
    ensures c.isInterface == isInterface && c.isAbstractOrInterface == isAbstractOrInterface
    ensures c.methods == methods && c.fields == fields && c.constructors == constructors
    ensures imports.Some? ==> c.imports == imports.value
    ensures imports.None? ==> c.imports == ClassImports(methods, fields, constructors)
  {
    var given: seq<string>;
    if imports.Some? {
      given := imports.value;
    } else {
      given := CalculateImports(methods, fields, constructors);
    }
    c := JavaClass(name, simpleName, isInterface, isAbstractOrInterface, methods, fields, constructors, given);
  }

  /** What `fromJavaClass` is given: a descriptor instance, or a plain record of the same shape. */
  datatype ClassDefinition = Instance(c: JavaClass) | Plain(c: JavaClass)

  /**
   * `fromJavaClass`: an instance is returned as it is, and a record becomes a
   * descriptor with every field, its imports included, carried over.
   */
  method FromJavaClass(d: ClassDefinition) returns (c: JavaClass)
    ensures c == d.c
  {
    if d.Instance? {
      return d.c;
    }
    var r := d.c;
    c := NewJavaClass(r.name, r.simpleName, r.isInterface, r.isAbstractOrInterface,
                      r.methods, r.fields, r.constructors, Some(r.imports));
  }

  /** The descriptor `readClass` builds from a reflected class. */
  function ClassRead(name: string, cls: ReflectedClass): JavaClass {
    var methods := Readers.Grouped(Readers.MethodsRead(cls.methods));
    var fields := Readers.FieldsRead(cls.fields);
    var ctors := Readers.ConstructorsRead(cls.constructors);
    JavaClass(name, GetSimpleName(name), cls.isInterface, cls.isInterface || cls.isAbstract,
              methods, fields, ctors, ClassImports(methods, fields, ctors))
  }

  /**
   * A descriptor read from reflection is named after the text behind the last
   * dot, counts as abstract whenever it is an interface, groups every public
   * method under its name, and imports only importable names, each once.
   */
  lemma ClassReadSpec(name: string, cls: ReflectedClass)
    ensures var c := ClassRead(name, cls);
      && '.' !in c.simpleName && name[|name| - |c.simpleName|..] == c.simpleName
      && (c.isInterface ==> c.isAbstractOrInterface)
      && (c.isAbstractOrInterface <==> cls.isInterface || cls.isAbstract)
      && Util.Distinct(c.imports)
      && (forall x :: x in c.imports ==> Importable(x))
      && (forall m :: m in cls.methods && m.isPublic ==>
            exists g :: g in c.methods && g.name == m.name && Readers.MethodOf(m) in g.overloads)
  {
    var c := ClassRead(name, cls);
    ImportPipelineSpec(CollectedTypes(c.methods, c.fields, c.constructors));
    var read := Readers.MethodsRead(cls.methods);
    Readers.MethodsReadSpec(cls.methods);
    Readers.GroupedSpec(read);
    forall m | m in cls.methods && m.isPublic
      ensures exists g :: g in c.methods && g.name == m.name && Readers.MethodOf(m) in g.overloads
    {
      assert Readers.MethodOf(m) in read;
    }
  }

  /** `toObject` turned into the record's list of groups. */
  method GroupMethods(ms: seq<JavaMethod>) returns (groups: seq<MethodGroup>)
    ensures groups == Readers.Grouped(ms)
  {
    var keys, res := Readers.ToObject(ms);
    groups := seq(|keys|, i requires 0 <= i < |keys| => MethodGroup(keys[i], res[keys[i]]));
  }

  /** `readClass`: read the public members and compute the imports. */
  method ReadClass(name: string, cls: ReflectedClass) returns (c: JavaClass)
    ensures c == ClassRead(name, cls)
  {
    var simpleName := name[LastIndexOf(name, '.') + 1..];
    var isAbstractOrInterface := cls.isInterface || cls.isAbstract;
    var read := Readers.ReadMethods(cls.methods);
    var methods := GroupMethods(read);
    var fields := Readers.ReadFields(cls.fields);
    var ctors := Readers.ReadConstructors(cls.constructors);
    c := NewJavaClass(name, simpleName, cls.isInterface, isAbstractOrInterface, methods, fields, ctors, None);
  }

  // ---------------------------------------------------------------------
  // Converting a descriptor
  // ---------------------------------------------------------------------

  /** The members `convertClassMethods` produces for each group in turn. */
  function AllMethodMembers(env: Env, options: GeneratorOptions, groups: seq<MethodGroup>): seq<ClassElement> {
    if |groups| == 0 then []
    else
      var last := groups[|groups| - 1];
      AllMethodMembers(env, options, groups[..|groups| - 1]) + Conv.ConvertedMethods(env, options, last.overloads, last.name)
  }

  /** The bookkeeping of `convertClassMethods` for each group in turn. */
  function AllMethodEffects(env: Env, groups: seq<MethodGroup>): (r: seq<Effect>)
    ensures forall i :: 0 <= i < |r| ==> WellFormed(r[i])
  {
    if |groups| == 0 then []
    else
      var p := AllMethodEffects(env, groups[..|groups| - 1]);
      var e := Conv.ConvertedMethodEffects(env, groups[|groups| - 1].overloads, groups[|groups| - 1].name);
      ApplyAllAppend(InitialState, p, e);
      p + e
  }

  /** One more group converted: its members and its bookkeeping follow those of the earlier groups. */
  lemma AllMethodsStep(env: Env, options: GeneratorOptions, st: MapState, groups: seq<MethodGroup>, i: nat)
    requires i < |groups|
    ensures AllMethodMembers(env, options, groups[..i + 1])
      == AllMethodMembers(env, options, groups[..i]) + Conv.ConvertedMethods(env, options, groups[i].overloads, groups[i].name)
    ensures ApplyAll(st, AllMethodEffects(env, groups[..i + 1]))
      == ApplyAll(ApplyAll(st, AllMethodEffects(env, groups[..i])), Conv.ConvertedMethodEffects(env, groups[i].overloads, groups[i].name))
  {
    assert groups[..i + 1][..i] == groups[..i];
    ApplyAllAppend(st, AllMethodEffects(env, groups[..i]), Conv.ConvertedMethodEffects(env, groups[i].overloads, groups[i].name));
  }

  /** `convertMethods`: hand every group of the record to the converter, in record order. */
  method ConvertMethods(converter: Conv.Converter, groups: seq<MethodGroup>)
    modifies converter, converter.members
    ensures converter.members.classMembers
      == old(converter.members.classMembers) + AllMethodMembers(converter.Environment(), converter.options, groups)
    ensures converter.members.interfaceDeclaration == old(converter.members.interfaceDeclaration)
    ensures converter.State() == ApplyAll(old(converter.State()), AllMethodEffects(converter.Environment(), groups))
  {
    ghost var env := converter.Environment();
    ghost var st := converter.State();
    ghost var before := converter.members.classMembers;
    var i := 0;
    while i < |groups|
      invariant 0 <= i <= |groups|
      invariant converter.members.classMembers == before + AllMethodMembers(env, converter.options, groups[..i])
      invariant converter.members.interfaceDeclaration == old(converter.members.interfaceDeclaration)
      invariant converter.State() == ApplyAll(st, AllMethodEffects(env, groups[..i]))
    {
      AllMethodsStep(env, converter.options, st, groups, i);
      ghost var done := AllMethodMembers(env, converter.options, groups[..i]);
      ghost var added := Conv.ConvertedMethods(env, converter.options, groups[i].overloads, groups[i].name);
      converter.ConvertClassMethods(groups[i].overloads, groups[i].name);
      AppendAssoc(before, done, added);
      i := i + 1;
    }
    assert groups[..i] == groups;
  }

  /** The converter's environment for a descriptor. */
  function EnvOf(c: JavaClass, isInterface: string -> bool): Env {
    Env(c.name, isInterface)
  }

  /** The bookkeeping of methods, fields and, for a concrete class, constructors, in that order. */
  function MemberEffects(c: JavaClass, isInterface: string -> bool): (r: seq<Effect>)
    ensures forall i :: 0 <= i < |r| ==> WellFormed(r[i])
  {
    var env := EnvOf(c, isInterface);
    var es := AllMethodEffects(env, c.methods) + Conv.FieldEffects(env, c.fields)
      + (if c.isAbstractOrInterface then [] else Conv.ConstructorEffects(env, c.constructors));
    assert forall i :: 0 <= i < |es| ==> WellFormed(es[i]) by {
      ApplyAllAppend(InitialState, AllMethodEffects(env, c.methods), Conv.FieldEffects(env, c.fields));
      ApplyAllAppend(InitialState, AllMethodEffects(env, c.methods) + Conv.FieldEffects(env, c.fields),
                     if c.isAbstractOrInterface then [] else Conv.ConstructorEffects(env, c.constructors));
    }
    es
  }

  /** The bookkeeping after the members. */
  function MembersState(c: JavaClass, isInterface: string -> bool): MapState {
    ApplyAll(InitialState, MemberEffects(c, isInterface))
  }

  /** The bookkeeping once `convert` is done: an interface also records its signatures and uses both proxy helpers. */
  function FinalState(c: JavaClass, isInterface: string -> bool): MapState {
    var st := MembersState(c, isInterface);
    if c.isInterface then
      ApplyAll(st, Conv.InterfaceSignatureEffects(EnvOf(c, isInterface), c.methods)).(usesNewProxy := true, usesInterfaceProxy := true)
    else st
  }

  /** The members of the generated class: method pairs, then properties, then constructors unless abstract. */
  function ClassMembersOf(c: JavaClass, options: GeneratorOptions, isInterface: string -> bool): seq<ClassElement> {
    var env := EnvOf(c, isInterface);
    AllMethodMembers(env, options, c.methods) + Conv.PropertiesOf(env, c.fields)
      + (if c.isAbstractOrInterface then [] else Conv.ConstructorMembers(env, options, c.constructors))
  }

  /** The interface section: empty unless the class is an interface. */
  function InterfaceSection(c: JavaClass, isInterface: string -> bool): seq<Option<Statement>> {
    if c.isInterface then
      [None, Some(InterfaceDecl(c.simpleName + "Interface", Conv.InterfaceSignatures(EnvOf(c, isInterface), c.methods))),
       None, Some(Conv.ProxyFunctionOf(c.simpleName, c.name))]
    else []
  }

  /** The statements `convert` hands to the printer. */
  function ConvertedSource(c: JavaClass, options: GeneratorOptions, isInterface: string -> bool): seq<Option<Statement>> {
    var st := FinalState(c, isInterface);
    Conv.SourceStatements(Conv.RuntimeImports(st), Conv.AdditionalImports(c.name, st),
                          CreateClassDecl(c.simpleName, ClassMembersOf(c, options, isInterface)),
                          InterfaceSection(c, isInterface),
                          CreateExportStatement(c.simpleName, c.isAbstractOrInterface, c.name, options))
  }

  /** The member part of `convert`: methods, then fields, then constructors only for a concrete class. */
  method ConvertMembers(converter: Conv.Converter, c: JavaClass)
    requires converter.classname == c.name
    modifies converter, converter.members
    ensures converter.members.classMembers
      == old(converter.members.classMembers) + ClassMembersOf(c, converter.options, converter.isInterface)
    ensures converter.members.interfaceDeclaration == old(converter.members.interfaceDeclaration)
    ensures converter.State() == ApplyAll(old(converter.State()), MemberEffects(c, converter.isInterface))
  {
    ghost var env := EnvOf(c, converter.isInterface);
    ghost var before := converter.members.classMembers;
    ghost var st := converter.State();
    ConvertMethods(converter, c.methods);
    converter.ConvertClassFields(c.fields);
    ghost var afterFields := converter.members.classMembers;
    ghost var stFields := converter.State();
    if !c.isAbstractOrInterface {
      converter.ConvertConstructors(c.constructors);
    }
    MembersSplit(env, converter.options, c, before, afterFields, converter.members.classMembers);
    EffectsSplit(env, c, st, stFields, converter.State());
  }

  /** The member lists after each stage of `ConvertMembers` add up to the class members. */
  lemma MembersSplit(env: Env, options: GeneratorOptions, c: JavaClass,
                     before: seq<ClassElement>, afterFields: seq<ClassElement>, after: seq<ClassElement>)
    requires env == EnvOf(c, env.isInterface)
    requires afterFields == before + AllMethodMembers(env, options, c.methods) + Conv.PropertiesOf(env, c.fields)
    requires c.isAbstractOrInterface ==> after == afterFields
    requires !c.isAbstractOrInterface ==> after == afterFields + Conv.ConstructorMembers(env, options, c.constructors)
    ensures after == before + ClassMembersOf(c, options, env.isInterface)
  {
    var ms := AllMethodMembers(env, options, c.methods);
    var ps := Conv.PropertiesOf(env, c.fields);
    var cs := if c.isAbstractOrInterface then [] else Conv.ConstructorMembers(env, options, c.constructors);
    assert ClassMembersOf(c, options, env.isInterface) == ms + ps + cs;
    AppendAssoc(before, ms, ps);
    AppendAssoc(before, ms + ps, cs);
    assert after == before + (ms + ps) + cs;
  }

  /** The bookkeeping after each stage of `ConvertMembers` adds up to the members' effects. */
  lemma EffectsSplit(env: Env, c: JavaClass, st: MapState, stFields: MapState, after: MapState)
    requires env == EnvOf(c, env.isInterface)
    requires stFields == ApplyAll(ApplyAll(st, AllMethodEffects(env, c.methods)), Conv.FieldEffects(env, c.fields))
    requires c.isAbstractOrInterface ==> after == stFields
    requires !c.isAbstractOrInterface ==> after == ApplyAll(stFields, Conv.ConstructorEffects(env, c.constructors))
    ensures after == ApplyAll(st, MemberEffects(c, env.isInterface))
  {
    var ms := AllMethodEffects(env, c.methods);
    var fs := Conv.FieldEffects(env, c.fields);
    var cs := if c.isAbstractOrInterface then [] else Conv.ConstructorEffects(env, c.constructors);
    ApplyAllAppend(st, ms, fs);
    ApplyAllAppend(st, ms + fs, cs);
  }

  /**
   * `convert`: methods, then fields, then constructors only for a concrete
   * class, then the interface declaration only for an interface, and the
   * statements of the declaration file.
   */
  method Convert(c: JavaClass, options: GeneratorOptions, isInterface: string -> bool) returns (r: seq<Option<Statement>>)
    ensures r == ConvertedSource(c, options, isInterface)
  {
    var converter := new Conv.Converter(c.name, c.simpleName, options, isInterface);
    ConvertMembers(converter, c);
    ghost var st := converter.State();
    ghost var members := converter.members.classMembers;
    if c.isInterface {
      converter.CreateInterfaceDeclaration(c.methods);
    }
    ghost var stFinal := converter.State();
    ghost var iface := converter.members.interfaceDeclaration;
    r := converter.CreateSourceText(c.isAbstractOrInterface);
    SourceOfStages(c, options, isInterface, st, stFinal, members, iface, r);
  }

  /** The stages of `Convert`, each as its converter left it, add up to the converted source. */
  lemma SourceOfStages(c: JavaClass, options: GeneratorOptions, isInterface: string -> bool,
                       st: MapState, stFinal: MapState, members: seq<ClassElement>, iface: seq<Option<Statement>>,
                       r: seq<Option<Statement>>)
    requires st == ApplyAll(InitialState, MemberEffects(c, isInterface))
    requires members == [] + ClassMembersOf(c, options, isInterface)
    requires !c.isInterface ==> stFinal == st && iface == []
    requires c.isInterface ==>
      && stFinal == ApplyAll(st, Conv.InterfaceSignatureEffects(EnvOf(c, isInterface), c.methods)).(usesNewProxy := true, usesInterfaceProxy := true)
      && iface == [] + InterfaceSection(c, isInterface)
    requires r == Conv.SourceStatements(Conv.RuntimeImports(stFinal), Conv.AdditionalImports(c.name, stFinal),
                                        CreateClassDecl(c.simpleName, members), iface,
                                        CreateExportStatement(c.simpleName, c.isAbstractOrInterface, c.name, options))
    ensures r == ConvertedSource(c, options, isInterface)
  {
    assert members == ClassMembersOf(c, options, isInterface);
    assert iface == InterfaceSection(c, isInterface);
    assert stFinal == FinalState(c, isInterface);
  }

  /**
   * The converted file: the runtime import first, then one import per other
   * referenced class, a separator and the class; four interface statements
   * exactly for an interface; a separator, and the export with a private
   * constructor exactly for an abstract class or interface, then the default
   * export.
   */
  lemma ConvertedSourceLayout(c: JavaClass, options: GeneratorOptions, isInterface: string -> bool)
    ensures var r := ConvertedSource(c, options, isInterface);
      var extra := Conv.AdditionalImports(c.name, FinalState(c, isInterface));
      && |r| == 1 + |extra| + 2 + (if c.isInterface then 4 else 0) + 1 + 2
      && r[0] == Some(Conv.RuntimeImports(FinalState(c, isInterface)))
      && r[2 + |extra|] == Some(CreateClassDecl(c.simpleName, ClassMembersOf(c, options, isInterface)))
      && r[|r| - 2].Some? && r[|r| - 2].value.ExportClass?
      && (r[|r| - 2].value.members == [PrivateConstructor] <==> c.isAbstractOrInterface)
      && r[|r| - 1] == Some(ExportDefault(c.simpleName))
  {
    var exports := CreateExportStatement(c.simpleName, c.isAbstractOrInterface, c.name, options);
    var r := ConvertedSource(c, options, isInterface);
    var extra := Conv.AdditionalImports(c.name, FinalState(c, isInterface));
    var iface := InterfaceSection(c, isInterface);
    assert |r| == 4 + |extra| + |iface| + 2;
    assert r[4 + |extra| + |iface| + 0] == Some(exports[0]);
    assert r[4 + |extra| + |iface| + 1] == Some(exports[1]);
  }

  /** A converted interface imports `newProxy`, `InterfaceProxyOptions` and `JavaInterfaceProxy` from the runtime. */
  lemma InterfaceUsesProxyHelpers(c: JavaClass, options: GeneratorOptions, isInterface: string -> bool)
    requires c.isInterface
    ensures var imports := ConvertedSource(c, options, isInterface)[0].value.specifiers;
      && ImportSpecifier(None, "newProxy") in imports
      && ImportSpecifier(None, "InterfaceProxyOptions") in imports
      && ImportSpecifier(None, "JavaInterfaceProxy") in imports
  {
    ConvertedSourceLayout(c, options, isInterface);
    Conv.RuntimeImportsFlags(FinalState(c, isInterface));
  }

  /**
   * The interface section follows the class exactly for an interface: a
   * separator, the interface named after the class, a separator and the
   * proxy factory.
   */
  lemma InterfaceSectionSpec(c: JavaClass, options: GeneratorOptions, isInterface: string -> bool)
    ensures var r := ConvertedSource(c, options, isInterface);
      var extra := Conv.AdditionalImports(c.name, FinalState(c, isInterface));
      && (c.isInterface ==>
            && r[3 + |extra|] == None
            && r[4 + |extra|] == Some(InterfaceDecl(c.simpleName + "Interface", Conv.InterfaceSignatures(EnvOf(c, isInterface), c.methods)))
            && r[5 + |extra|] == None
            && r[6 + |extra|] == Some(Conv.ProxyFunctionOf(c.simpleName, c.name)))
      && (!c.isInterface ==> r[3 + |extra|] == None && r[4 + |extra|].Some? && r[4 + |extra|].value.ExportClass?)
  {
    var exports := CreateExportStatement(c.simpleName, c.isAbstractOrInterface, c.name, options);
    var extra := Conv.AdditionalImports(c.name, FinalState(c, isInterface));
    var r := ConvertedSource(c, options, isInterface);
    var iface := InterfaceSection(c, isInterface);
    if c.isInterface {
      assert r[3 + |extra| + 0] == iface[0];
      assert r[3 + |extra| + 1] == iface[1];
      assert r[3 + |extra| + 2] == iface[2];
      assert r[3 + |extra| + 3] == iface[3];
    } else {
      assert r[4 + |extra| + |iface| + 0] == Some(exports[0]);
    }
  }

  /**
   * The class members are the method pairs, then one property per field,
   * then two members per constructor, and no constructor at all for an
   * abstract class or interface.
   */
  lemma ClassMembersOfSpec(c: JavaClass, options: GeneratorOptions, isInterface: string -> bool)
    ensures var env := EnvOf(c, isInterface);
      var ms := AllMethodMembers(env, options, c.methods);
      var r := ClassMembersOf(c, options, isInterface);
      && |r| == |ms| + |c.fields| + (if c.isAbstractOrInterface then 0 else 2 * |c.constructors|)
      && r[..|ms|] == ms
      && r[|ms|..|ms| + |c.fields|] == Conv.PropertiesOf(env, c.fields)
      && r[|ms| + |c.fields|..] == (if c.isAbstractOrInterface then [] else Conv.ConstructorMembers(env, options, c.constructors))
  {
    var env := EnvOf(c, isInterface);
    var ms := AllMethodMembers(env, options, c.methods);
    var ps := Conv.PropertiesOf(env, c.fields);
    var cs := if c.isAbstractOrInterface then [] else Conv.ConstructorMembers(env, options, c.constructors);
    var r := ClassMembersOf(c, options, isInterface);
    assert r == ms + ps + cs;
    assert r[..|ms|] == ms;
    assert r[|ms|..|ms| + |c.fields|] == ps;
    assert r[|ms| + |c.fields|..] == cs;
  }
}
