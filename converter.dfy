/**
 * The converter of one class: it maps every member's Java types while
 * recording what the generated file has to import, appends the generated
 * members to its member lists, and finally assembles the statements of
 * the declaration file.
 */
module Converter {
  import opened Wrappers
  import opened Types
  import opened Helpers
  import opened TsAst
  import opened TypeMap
  import opened Members
  import Util
  import Seqs

  /** Methods that are taken never to return null. */
  const NON_NULL_RETURN_METHODS: seq<string> :=
    ["toString", "wait", "getClass", "hashCode", "notify", "notifyAll", "equals"]

  const REQUIRED_NOTE := " * **Note: Although this method is marked as optional, it actually must be implemented.**\n *\n"

  // ---------------------------------------------------------------------
  // What each emitter produces
  // ---------------------------------------------------------------------

  /** `convertParameter`: parameter `var<i>` of the mapped type, in parameter position. */
  function ParameterAt(env: Env, i: nat, p: string): Parameter {
    Parameter("var" + NatToString(i), MapType(env, p, true, true).node)
  }

  function ParameterFn(env: Env): (nat, string) -> Parameter {
    (i: nat, p: string) => ParameterAt(env, i, p)
  }

  function ParametersOf(env: Env, ps: seq<string>): (r: seq<Parameter>)
    ensures |r| == |ps|
  {
    Seqs.MapIndexed(ParameterFn(env), ps)
  }

  /** Parameter `i` is named `var<i>` and has the type of the `i`-th Java parameter, mapped in parameter position. */
  lemma ParametersOfSpec(env: Env, ps: seq<string>)
    ensures var r := ParametersOf(env, ps);
      forall i :: 0 <= i < |ps| ==> r[i].name == "var" + NatToString(i) && r[i].paramType == MapType(env, ps[i], true, true).node
  {
    Seqs.MapIndexedSpec(ParameterFn(env), ps);
  }

  /** The bookkeeping of mapping the parameters, in order. */
  function ParamEffects(env: Env, ps: seq<string>): (r: seq<Effect>)
    ensures |r| == |ps|
    ensures forall i :: 0 <= i < |r| ==> WellFormed(r[i])
  {
    if |ps| == 0 then [] else ParamEffects(env, ps[..|ps| - 1]) + [MapType(env, ps[|ps| - 1], true, true).effect]
  }

  /** The section header comment of a method name. */
  function MethodHeader(name: string): Comment {
    LineComment(" ================== Method " + name + " ==================")
  }

  /** The section header for the first overload, then the block comment. */
  function MethodComments(name: string, i: nat, comment: string): seq<Comment> {
    (if i == 0 then [MethodHeader(name)] else []) + [BlockComment(comment)]
  }

  function TsMethodModifiers(m: JavaMethod): seq<TsModifier> {
    [PublicModifier] + (if Static in m.modifiers then [StaticModifier] else [])
  }

  function Suffix(options: GeneratorOptions, name: string, isSync: bool): string {
    if name == "newInstanceAsync" then "" else if isSync then options.syncSuffix else options.asyncSuffix
  }

  /** `createMethod`. */
  function MethodDeclOf(env: Env, options: GeneratorOptions, m: JavaMethod, i: nat, isSync: bool, nonNull: bool): ClassElement {
    var rt := MapType(env, m.returnType, false, !nonNull).node;
    MethodDecl(TsMethodModifiers(m), m.name + Suffix(options, m.name, isSync), ParametersOf(env, m.parameters),
               if isSync then rt else Promise(rt), MethodComments(m.name, i, CreateMethodComment(m, "")))
  }

  /** `createMethod` maps the return type first, then the parameters. */
  function MethodEffects(env: Env, m: JavaMethod, nonNull: bool): (r: seq<Effect>)
    ensures forall i :: 0 <= i < |r| ==> WellFormed(r[i])
  {
    [MapType(env, m.returnType, false, !nonNull).effect] + ParamEffects(env, m.parameters)
  }

  /**
   * A method's declaration: public, static when the Java method is, named with
   * the sync or async suffix (none for `newInstanceAsync`), its parameters
   * numbered in order, and returning the mapped return type, wrapped in
   * `Promise` in the async variant; the section header comes with the first
   * overload only.
   */
  lemma MethodDeclSpec(env: Env, options: GeneratorOptions, m: JavaMethod, i: nat, isSync: bool, nonNull: bool)
    ensures var d := MethodDeclOf(env, options, m, i, isSync, nonNull);
      var rt := MapType(env, m.returnType, false, !nonNull).node;
      d.MethodDecl?
      && d.modifiers[0] == PublicModifier
      && (StaticModifier in d.modifiers <==> Static in m.modifiers)
      && d.name == m.name + (if m.name == "newInstanceAsync" then "" else if isSync then options.syncSuffix else options.asyncSuffix)
      && d.returnType == (if isSync then rt else TypeRef("Promise", [rt]))
      && d.parameters == ParametersOf(env, m.parameters)
      && |d.comments| == (if i == 0 then 2 else 1)
      && d.comments[|d.comments| - 1] == BlockComment(CreateMethodComment(m, ""))
  {
    var mods := TsMethodModifiers(m);
    assert Static in m.modifiers ==> mods == [PublicModifier, StaticModifier];
    assert Static !in m.modifiers ==> mods == [PublicModifier];
  }

  /** The async (`false`) or sync (`true`) declaration of overload `i`. */
  function MethodVariant(env: Env, options: GeneratorOptions, nonNull: bool): (nat, JavaMethod, bool) -> ClassElement {
    (i: nat, m: JavaMethod, isSync: bool) => MethodDeclOf(env, options, m, i, isSync, nonNull)
  }

  /** `convertClassMethods`: nothing for `toString`, otherwise async then sync per overload. */
  function ConvertedMethods(env: Env, options: GeneratorOptions, methods: seq<JavaMethod>, methodName: string): seq<ClassElement> {
    if methodName == "toString" then []
    else Seqs.Pairs(MethodVariant(env, options, methodName in NON_NULL_RETURN_METHODS), methods)
  }

  function ConvertedMethodEffects(env: Env, methods: seq<JavaMethod>, methodName: string): (r: seq<Effect>)
    ensures forall i :: 0 <= i < |r| ==> WellFormed(r[i])
  {
    if |methods| == 0 || methodName == "toString" then []
    else
      var k := |methods| - 1;
      var nonNull := methodName in NON_NULL_RETURN_METHODS;
      var e := MethodEffects(env, methods[k], nonNull);
      ConvertedMethodEffects(env, methods[..k], methodName) + e + e
  }

  /** One more overload of a name other than `toString`: its async and sync declarations, and their bookkeeping twice. */
  lemma ConvertedMethodsStep(env: Env, options: GeneratorOptions, st: MapState, methods: seq<JavaMethod>, methodName: string, i: nat)
    requires i < |methods| && methodName != "toString"
    ensures var nonNull := methodName in NON_NULL_RETURN_METHODS;
      ConvertedMethods(env, options, methods[..i + 1], methodName)
        == ConvertedMethods(env, options, methods[..i], methodName)
           + [MethodDeclOf(env, options, methods[i], i, false, nonNull), MethodDeclOf(env, options, methods[i], i, true, nonNull)]
    ensures var e := MethodEffects(env, methods[i], methodName in NON_NULL_RETURN_METHODS);
      ApplyAll(st, ConvertedMethodEffects(env, methods[..i + 1], methodName))
        == ApplyAll(ApplyAll(ApplyAll(st, ConvertedMethodEffects(env, methods[..i], methodName)), e), e)
  {
    Seqs.PairsSnoc(MethodVariant(env, options, methodName in NON_NULL_RETURN_METHODS), methods, i);
    assert methods[..i + 1][..i] == methods[..i];
    var prev := ConvertedMethodEffects(env, methods[..i], methodName);
    var e := MethodEffects(env, methods[i], methodName in NON_NULL_RETURN_METHODS);
    assert prev + e + e == prev + (e + e);
    ApplyAllAppend(st, prev, e + e);
    ApplyAllAppend(ApplyAll(st, prev), e, e);
  }

  /**
   * `convertClassMethods` emits nothing for `toString`; otherwise exactly two
   * members per overload, in overload order: the async variant, then the sync
   * one, non-null when the name is in the non-null list.
   */
  lemma ConvertedMethodsSpec(env: Env, options: GeneratorOptions, methods: seq<JavaMethod>, methodName: string)
    ensures methodName == "toString" ==> ConvertedMethods(env, options, methods, methodName) == []
    ensures methodName != "toString" ==>
      var r := ConvertedMethods(env, options, methods, methodName);
      var nonNull := methodName in NON_NULL_RETURN_METHODS;
      |r| == 2 * |methods| &&
      forall i :: 0 <= i < |methods| ==>
        r[2 * i] == MethodDeclOf(env, options, methods[i], i, false, nonNull) &&
        r[2 * i + 1] == MethodDeclOf(env, options, methods[i], i, true, nonNull)
  {
    if methodName != "toString" {
      Seqs.PairsSpec(MethodVariant(env, options, methodName in NON_NULL_RETURN_METHODS), methods);
    }
  }

  /** The TypeScript modifiers of a field: public, then static, then readonly for final. */
  function FieldTsModifiers(f: JavaField): seq<TsModifier> {
    [PublicModifier] + (if Static in f.modifiers then [StaticModifier] else [])
      + (if Final in f.modifiers then [ReadonlyModifier] else [])
  }

  /** One property per field, typed in parameter position, with its two comments. */
  function PropertyOf(env: Env, f: JavaField): ClassElement {
    PropertyDecl(FieldTsModifiers(f), f.name, MapType(env, f.typeName, true, true).node, FieldComments(f))
  }

  /** The section header naming the field, then the comment with its Java type. */
  function FieldComments(f: JavaField): seq<Comment> {
    [LineComment(" ================== Field " + f.name + " =================="),
     BlockComment("*\n * Original type: '" + f.typeName + "'\n ")]
  }

  /** `convertClassFields`. */
  function PropertiesOf(env: Env, fields: seq<JavaField>): (r: seq<ClassElement>)
    ensures |r| == |fields|
  {
    if |fields| == 0 then [] else PropertiesOf(env, fields[..|fields| - 1]) + [PropertyOf(env, fields[|fields| - 1])]
  }

  function FieldEffects(env: Env, fields: seq<JavaField>): (r: seq<Effect>)
    ensures |r| == |fields|
    ensures forall i :: 0 <= i < |r| ==> WellFormed(r[i])
  {
    if |fields| == 0 then [] else FieldEffects(env, fields[..|fields| - 1]) + [MapType(env, fields[|fields| - 1].typeName, true, true).effect]
  }

  /** One more field: one more property and one more mapping's bookkeeping. */
  lemma PropertiesStep(env: Env, st: MapState, fields: seq<JavaField>, i: nat)
    requires i < |fields|
    ensures PropertiesOf(env, fields[..i + 1]) == PropertiesOf(env, fields[..i]) + [PropertyOf(env, fields[i])]
    ensures ApplyAll(st, FieldEffects(env, fields[..i + 1]))
         == Apply(ApplyAll(st, FieldEffects(env, fields[..i])), MapType(env, fields[i].typeName, true, true).effect)
  {
    assert fields[..i + 1][..i] == fields[..i];
  }

  /**
   * A property's modifiers are public, then static exactly for a static field,
   * then readonly exactly for a final one; its type is mapped in parameter
   * position with strict null types.
   */
  lemma PropertySpec(env: Env, f: JavaField)
    ensures var p := PropertyOf(env, f);
      p.PropertyDecl? && p.name == f.name && p.propertyType == MapType(env, f.typeName, true, true).node
      && p.modifiers[0] == PublicModifier
      && (StaticModifier in p.modifiers <==> Static in f.modifiers)
      && (ReadonlyModifier in p.modifiers <==> Final in f.modifiers)
      && (StaticModifier in p.modifiers && ReadonlyModifier in p.modifiers ==> p.modifiers == [PublicModifier, StaticModifier, ReadonlyModifier])
  {
  }

  /** The `newInstanceAsync` factory that goes with a constructor. */
  function NewInstance(classname: string, parameters: seq<string>): JavaMethod {
    JavaMethod("newInstanceAsync", [Static], parameters, classname)
  }

  /** The constructor declaration (`false`) or the factory (`true`) of constructor `i`. */
  function ConstructorVariant(env: Env, options: GeneratorOptions): (nat, JavaConstructor, bool) -> ClassElement {
    (i: nat, c: JavaConstructor, isFactory: bool) =>
      if isFactory then MethodDeclOf(env, options, NewInstance(env.classname, c.parameters), i, false, true)
      else CreateConstructorDecl(ParametersOf(env, c.parameters), c.parameters, i)
  }

  /** `convertConstructors`: the constructor, then its factory, for each constructor in order. */
  function ConstructorMembers(env: Env, options: GeneratorOptions, ctors: seq<JavaConstructor>): (r: seq<ClassElement>)
    ensures |r| == 2 * |ctors|
  {
    Seqs.Pairs(ConstructorVariant(env, options), ctors)
  }

  /** The parameters are mapped for the constructor, then the factory maps its return type and the parameters again. */
  function ConstructorEffects(env: Env, ctors: seq<JavaConstructor>): (r: seq<Effect>)
    ensures forall i :: 0 <= i < |r| ==> WellFormed(r[i])
  {
    if |ctors| == 0 then []
    else
      var k := |ctors| - 1;
      var ps := ctors[k].parameters;
      ConstructorEffects(env, ctors[..k]) + ParamEffects(env, ps) + MethodEffects(env, NewInstance(env.classname, ps), true)
  }

  /** One more constructor: its declaration and factory, after the bookkeeping of its parameters and of the factory. */
  lemma ConstructorStep(env: Env, options: GeneratorOptions, st: MapState, ctors: seq<JavaConstructor>, i: nat)
    requires i < |ctors|
    ensures var ps := ctors[i].parameters;
      ConstructorMembers(env, options, ctors[..i + 1])
        == ConstructorMembers(env, options, ctors[..i])
           + [CreateConstructorDecl(ParametersOf(env, ps), ps, i), MethodDeclOf(env, options, NewInstance(env.classname, ps), i, false, true)]
    ensures var ps := ctors[i].parameters;
      ApplyAll(st, ConstructorEffects(env, ctors[..i + 1]))
        == ApplyAll(ApplyAll(ApplyAll(st, ConstructorEffects(env, ctors[..i])), ParamEffects(env, ps)),
                    MethodEffects(env, NewInstance(env.classname, ps), true))
  {
    Seqs.PairsSnoc(ConstructorVariant(env, options), ctors, i);
    assert ctors[..i + 1][..i] == ctors[..i];
    var ps := ctors[i].parameters;
    var prev := ConstructorEffects(env, ctors[..i]);
    var pe := ParamEffects(env, ps);
    var me := MethodEffects(env, NewInstance(env.classname, ps), true);
    assert prev + pe + me == prev + (pe + me);
    ApplyAllAppend(st, prev, pe + me);
    ApplyAllAppend(ApplyAll(st, prev), pe, me);
  }

  /**
   * Each constructor yields its public constructor declaration followed by a
   * static `newInstanceAsync` without suffix that returns, non-null and as a
   * promise, the class's own type.
   */
  lemma ConstructorMembersSpec(env: Env, options: GeneratorOptions, ctors: seq<JavaConstructor>)
    ensures var r := ConstructorMembers(env, options, ctors);
      forall i :: 0 <= i < |ctors| ==>
        r[2 * i] == CreateConstructorDecl(ParametersOf(env, ctors[i].parameters), ctors[i].parameters, i) &&
        r[2 * i + 1].MethodDecl? && r[2 * i + 1].name == "newInstanceAsync" &&
        r[2 * i + 1].modifiers == [PublicModifier, StaticModifier] &&
        r[2 * i + 1].parameters == ParametersOf(env, ctors[i].parameters) &&
        r[2 * i + 1].returnType == Promise(MapType(env, env.classname, false, false).node)
  {
    var r := ConstructorMembers(env, options, ctors);
    Seqs.PairsSpec(ConstructorVariant(env, options), ctors);
    forall i | 0 <= i < |ctors|
      ensures r[2 * i + 1].MethodDecl? && r[2 * i + 1].name == "newInstanceAsync"
      ensures r[2 * i + 1].modifiers == [PublicModifier, StaticModifier]
      ensures r[2 * i + 1].parameters == ParametersOf(env, ctors[i].parameters)
      ensures r[2 * i + 1].returnType == Promise(MapType(env, env.classname, false, false).node)
    {
      var f := NewInstance(env.classname, ctors[i].parameters);
      assert r[2 * i + 1] == MethodDeclOf(env, options, f, i, false, true);
      assert TsMethodModifiers(f) == [PublicModifier, StaticModifier];
    }
  }

  /** For an ordinary class the factory returns the class's simple name. */
  lemma FactoryReturnsSelf(env: Env)
    requires IsReferenceName(env.classname)
    ensures MapType(env, env.classname, false, false).node == TypeRef(GetSimpleName(env.classname), [])
  {
    ReferenceCase(env, env.classname, false, false);
    var refs := RefNodes(env, env.classname, false);
    assert refs == [TypeRef(GetSimpleName(env.classname) + "", [])];
    assert GetSimpleName(env.classname) + "" == GetSimpleName(env.classname);
  }

  // ---------------------------------------------------------------------
  // Interface signatures
  // ---------------------------------------------------------------------

  /** The overloads that are not static, in order. */
  function NonStatic(ms: seq<JavaMethod>): (r: seq<JavaMethod>)
    ensures |r| <= |ms|
    ensures forall m :: m in r <==> m in ms && Static !in m.modifiers
  {
    if |ms| == 0 then []
    else NonStatic(ms[..|ms| - 1]) + (if Static !in ms[|ms| - 1].modifiers then [ms[|ms| - 1]] else [])
  }

  /** `some(m => m.modifiers.includes(default))`. */
  function HasDefault(ms: seq<JavaMethod>): (b: bool)
    ensures b <==> exists m :: m in ms && Default in m.modifiers
  {
    if |ms| == 0 then false
    else HasDefault(ms[..|ms| - 1]) || Default in ms[|ms| - 1].modifiers
  }

  /** `createMethodSignature`. */
  function SignatureOf(env: Env, m: JavaMethod, name: string, i: nat, isDefault: bool, nonNull: bool): MethodSignature {
    var note := if Default !in m.modifiers && isDefault then REQUIRED_NOTE else "";
    MethodSignature(name, isDefault, ParametersOf(env, m.parameters), MapType(env, m.returnType, false, !nonNull).node,
                    MethodComments(name, i, CreateMethodComment(m, note)))
  }

  /**
   * A signature carries the group's name and is optional exactly when the
   * group has a default overload; the section header comes with the first
   * overload only, and the doc comment carries the "must be implemented"
   * note exactly for a non-default overload of such a group.
   */
  lemma SignatureOfSpec(env: Env, m: JavaMethod, name: string, i: nat, isDefault: bool, nonNull: bool)
    ensures var r := SignatureOf(env, m, name, i, isDefault, nonNull);
      r.name == name && r.optional == isDefault &&
      r.parameters == ParametersOf(env, m.parameters) &&
      r.returnType == MapType(env, m.returnType, false, !nonNull).node &&
      |r.comments| == (if i == 0 then 2 else 1) &&
      r.comments[|r.comments| - 1] == BlockComment(CreateMethodComment(m, if Default !in m.modifiers && isDefault then REQUIRED_NOTE else ""))
  {
  }

  /** `createMethodSignature` maps the parameters first, then the return type. */
  function SignatureEffects(env: Env, m: JavaMethod, nonNull: bool): (r: seq<Effect>)
    ensures forall i :: 0 <= i < |r| ==> WellFormed(r[i])
  {
    ParamEffects(env, m.parameters) + [MapType(env, m.returnType, false, !nonNull).effect]
  }

  /** Signature `i` of a group whose name, optionality and nullability are fixed. */
  function SignatureFn(env: Env, name: string, isDefault: bool, nonNull: bool): (nat, JavaMethod) -> MethodSignature {
    (i: nat, m: JavaMethod) => SignatureOf(env, m, name, i, isDefault, nonNull)
  }

  function GroupSignatureEffectsUpTo(env: Env, name: string, ms: seq<JavaMethod>, n: nat): (r: seq<Effect>)
    requires n <= |ms|
    ensures forall i :: 0 <= i < |r| ==> WellFormed(r[i])
  {
    if n == 0 then []
    else GroupSignatureEffectsUpTo(env, name, ms, n - 1) + SignatureEffects(env, ms[n - 1], name in NON_NULL_RETURN_METHODS)
  }

  /** One more overload: its signature and its bookkeeping follow those of the earlier ones. */
  lemma GroupSignaturesStep(env: Env, st: MapState, name: string, isDefault: bool, ms: seq<JavaMethod>, i: nat)
    requires i < |ms|
    ensures var f := SignatureFn(env, name, isDefault, name in NON_NULL_RETURN_METHODS);
      Seqs.MapIndexed(f, ms[..i + 1]) == Seqs.MapIndexed(f, ms[..i]) + [SignatureOf(env, ms[i], name, i, isDefault, name in NON_NULL_RETURN_METHODS)]
    ensures ApplyAll(st, GroupSignatureEffectsUpTo(env, name, ms, i + 1))
         == ApplyAll(ApplyAll(st, GroupSignatureEffectsUpTo(env, name, ms, i)), SignatureEffects(env, ms[i], name in NON_NULL_RETURN_METHODS))
  {
    Seqs.MapIndexedSnoc(SignatureFn(env, name, isDefault, name in NON_NULL_RETURN_METHODS), ms, i);
    ApplyAllAppend(st, GroupSignatureEffectsUpTo(env, name, ms, i), SignatureEffects(env, ms[i], name in NON_NULL_RETURN_METHODS));
  }

  function GroupSignatures(env: Env, g: MethodGroup): (r: seq<MethodSignature>)
    ensures |r| == |NonStatic(g.overloads)|
  {
    var ms := NonStatic(g.overloads);
    Seqs.MapIndexed(SignatureFn(env, g.name, HasDefault(ms), g.name in NON_NULL_RETURN_METHODS), ms)
  }

  function GroupSignatureEffects(env: Env, g: MethodGroup): (r: seq<Effect>)
    ensures forall i :: 0 <= i < |r| ==> WellFormed(r[i])
  {
    var ms := NonStatic(g.overloads);
    GroupSignatureEffectsUpTo(env, g.name, ms, |ms|)
  }

  /** `createInterfaceMethodSignatures`: the signatures of each group, group after group. */
  function InterfaceSignatures(env: Env, groups: seq<MethodGroup>): seq<MethodSignature> {
    if |groups| == 0 then [] else InterfaceSignatures(env, groups[..|groups| - 1]) + GroupSignatures(env, groups[|groups| - 1])
  }

  function InterfaceSignatureEffects(env: Env, groups: seq<MethodGroup>): (r: seq<Effect>)
    ensures forall i :: 0 <= i < |r| ==> WellFormed(r[i])
  {
    if |groups| == 0 then [] else InterfaceSignatureEffects(env, groups[..|groups| - 1]) + GroupSignatureEffects(env, groups[|groups| - 1])
  }

  /**
   * A group yields one signature per non-static overload, in overload order,
   * and none for a static one; all of them are optional exactly when some
   * non-static overload of the name is default.
   */
  lemma GroupSignaturesSpec(env: Env, g: MethodGroup)
    ensures var r := GroupSignatures(env, g);
      var ms := NonStatic(g.overloads);
      var optional := exists m :: m in g.overloads && Static !in m.modifiers && Default in m.modifiers;
      |r| == |ms| &&
      (forall m :: m in ms <==> m in g.overloads && Static !in m.modifiers) &&
      forall k :: 0 <= k < |r| ==> r[k] == SignatureOf(env, ms[k], g.name, k, optional, g.name in NON_NULL_RETURN_METHODS)
  {
    var ms := NonStatic(g.overloads);
    var isDefault := HasDefault(ms);
    assert isDefault <==> exists m :: m in g.overloads && Static !in m.modifiers && Default in m.modifiers by {
      if isDefault {
        var m :| m in ms && Default in m.modifiers;
        assert m in g.overloads && Static !in m.modifiers;
      }
    }
    Seqs.MapIndexedSpec(SignatureFn(env, g.name, isDefault, g.name in NON_NULL_RETURN_METHODS), ms);
  }

  /** One more group: its signatures follow those of the groups before it. */
  lemma InterfaceSignaturesStep(env: Env, st: MapState, groups: seq<MethodGroup>, i: nat)
    requires i < |groups|
    ensures InterfaceSignatures(env, groups[..i + 1]) == InterfaceSignatures(env, groups[..i]) + GroupSignatures(env, groups[i])
    ensures ApplyAll(st, InterfaceSignatureEffects(env, groups[..i + 1]))
         == ApplyAll(ApplyAll(st, InterfaceSignatureEffects(env, groups[..i])), GroupSignatureEffects(env, groups[i]))
  {
    assert groups[..i + 1][..i] == groups[..i];
    ApplyAllAppend(st, InterfaceSignatureEffects(env, groups[..i]), GroupSignatureEffects(env, groups[i]));
  }

  // ---------------------------------------------------------------------
  // Imports
  // ---------------------------------------------------------------------

  /** `getImports`: the runtime import, with a specifier per helper in use. */
  function RuntimeImports(st: MapState): Statement {
    var specs := [ImportSpecifier(None, "importClass"), ImportSpecifier(None, "JavaClass")]
      + (if st.usesBasicOrJavaType then [ImportSpecifier(None, "BasicOrJavaType")] else [])
      + (if st.usesNewProxy then [ImportSpecifier(None, "newProxy"), ImportSpecifier(None, "InterfaceProxyOptions")] else [])
      + (if st.usesInterfaceProxy then [ImportSpecifier(None, "JavaInterfaceProxy")] else []);
    ImportDecl(specs, "java-bridge")
  }

  /** The runtime import always brings `importClass` and `JavaClass` first, then one specifier per helper name in use. */
  lemma RuntimeImportsShape(st: MapState)
    ensures var r := RuntimeImports(st);
      && r.ImportDecl? && r.moduleName == "java-bridge"
      && |r.specifiers| == 2 + (if st.usesBasicOrJavaType then 1 else 0) + (if st.usesNewProxy then 2 else 0) + (if st.usesInterfaceProxy then 1 else 0)
      && r.specifiers[..2] == [ImportSpecifier(None, "importClass"), ImportSpecifier(None, "JavaClass")]
  {
    var base := [ImportSpecifier(None, "importClass"), ImportSpecifier(None, "JavaClass")];
    var rest := RuntimeImports(st).specifiers[2..];
    assert RuntimeImports(st).specifiers == base + rest;
  }

  /** Each optional helper is imported exactly when the flag recording its use is set. */
  lemma RuntimeImportsFlags(st: MapState)
    ensures var r := RuntimeImports(st);
      && (ImportSpecifier(None, "BasicOrJavaType") in r.specifiers <==> st.usesBasicOrJavaType)
      && (ImportSpecifier(None, "newProxy") in r.specifiers <==> st.usesNewProxy)
      && (ImportSpecifier(None, "InterfaceProxyOptions") in r.specifiers <==> st.usesNewProxy)
      && (ImportSpecifier(None, "JavaInterfaceProxy") in r.specifiers <==> st.usesInterfaceProxy)
  {
    var base := [ImportSpecifier(None, "importClass"), ImportSpecifier(None, "JavaClass")];
    var basic := if st.usesBasicOrJavaType then [ImportSpecifier(None, "BasicOrJavaType")] else [];
    var proxy := if st.usesNewProxy then [ImportSpecifier(None, "newProxy"), ImportSpecifier(None, "InterfaceProxyOptions")] else [];
    var iface := if st.usesInterfaceProxy then [ImportSpecifier(None, "JavaInterfaceProxy")] else [];
    assert RuntimeImports(st).specifiers == base + basic + proxy + iface;
  }

  /** The recorded names other than the class itself, in order. */
  function WithoutSelf(classname: string, names: seq<string>): (r: seq<string>)
    ensures forall x :: x in r <==> x in names && x != classname
  {
    if |names| == 0 then []
    else WithoutSelf(classname, names[..|names| - 1]) + (if names[|names| - 1] != classname then [names[|names| - 1]] else [])
  }

  /** The import of one recorded class: its class name, its interface if proxied, from the relative path. */
  function ImportOf(classname: string, interfaceImports: seq<string>, name: string): Statement {
    ImportDecl([ImportSpecifier(Some(GetSimpleName(name)), ReplaceAll(name, '.', '_'))]
                 + CreateInterfaceImports(interfaceImports, classname, name),
               ImportPath(classname, name))
  }

  function ImportsOf(classname: string, interfaceImports: seq<string>, names: seq<string>): (r: seq<Statement>)
    ensures |r| == |names|
    ensures forall i :: 0 <= i < |names| ==> r[i] == ImportOf(classname, interfaceImports, names[i])
  {
    seq(|names|, i requires 0 <= i < |names| => ImportOf(classname, interfaceImports, names[i]))
  }

  /** The classes `getAdditionalImports` imports: the recorded ones but the class itself, each once, first occurrence first. */
  function ImportedNames(classname: string, importsToResolve: seq<string>): seq<string> {
    Util.FilterUnique(WithoutSelf(classname, importsToResolve))
  }

  /** `getAdditionalImports`. */
  function AdditionalImports(classname: string, st: MapState): seq<Statement> {
    ImportsOf(classname, st.interfaceImports, ImportedNames(classname, st.importsToResolve))
  }

  /**
   * Every recorded class but the generated one is imported exactly once, from
   * the relative path between the two generated files; its interface type is
   * imported along exactly when it was used through a proxy.
   */
  lemma AdditionalImportsSpec(classname: string, st: MapState)
    ensures var names := ImportedNames(classname, st.importsToResolve);
      var r := AdditionalImports(classname, st);
      (forall x :: x in names <==> x in st.importsToResolve && x != classname) &&
      Util.Distinct(names) && |r| == |names| &&
      forall i :: 0 <= i < |r| ==>
        r[i].moduleName == ImportPath(classname, names[i]) &&
        r[i].specifiers[0] == ImportSpecifier(Some(GetSimpleName(names[i])), ReplaceAll(names[i], '.', '_')) &&
        (|r[i].specifiers| == 2 <==> names[i] in st.interfaceImports)
  {
    var names := ImportedNames(classname, st.importsToResolve);
    Util.FilterUniqueSpec(WithoutSelf(classname, st.importsToResolve));
    var r := AdditionalImports(classname, st);
    forall i | 0 <= i < |r|
      ensures r[i].moduleName == ImportPath(classname, names[i])
      ensures r[i].specifiers[0] == ImportSpecifier(Some(GetSimpleName(names[i])), ReplaceAll(names[i], '.', '_'))
      ensures |r[i].specifiers| == 2 <==> names[i] in st.interfaceImports
    {
      assert names[i] in names;
      ImportOfSpec(classname, st.interfaceImports, names[i]);
    }
  }

  /** The import of a class other than the generated one. */
  lemma ImportOfSpec(classname: string, interfaceImports: seq<string>, name: string)
    requires name != classname
    ensures var r := ImportOf(classname, interfaceImports, name);
      r.ImportDecl? && r.moduleName == ImportPath(classname, name) &&
      r.specifiers[0] == ImportSpecifier(Some(GetSimpleName(name)), ReplaceAll(name, '.', '_')) &&
      (|r.specifiers| == 2 <==> name in interfaceImports)
  {
  }

  /** `createNewProxyMethod`. */
  function ProxyFunctionOf(simpleName: string, classname: string): Statement {
    ProxyFunction("create" + simpleName + "Proxy", simpleName + "Interface", classname)
  }

  // ---------------------------------------------------------------------
  // The converter
  // ---------------------------------------------------------------------

  class Converter {
    const classname: string
    const simpleName: string
    const options: GeneratorOptions
    const isInterface: string -> bool
    var usesBasicOrJavaType: bool
    var usesNewProxy: bool
    var usesInterfaceProxy: bool
    var importsToResolve: seq<string>
    var interfaceImports: seq<string>
    const members: ClassMembers

    function Environment(): Env {
      Env(classname, isInterface)
    }

    function State(): MapState
      reads this
    {
      MapState(usesBasicOrJavaType, usesNewProxy, usesInterfaceProxy, importsToResolve, interfaceImports)
    }

    constructor(classname: string, simpleName: string, options: GeneratorOptions, isInterface: string -> bool)
      ensures this.classname == classname && this.simpleName == simpleName
      ensures this.options == options && this.isInterface == isInterface
      ensures State() == InitialState
      ensures fresh(members) && members.classMembers == [] && members.interfaceDeclaration == []
    {
      this.classname := classname;
      this.simpleName := simpleName;
      this.options := options;
      this.isInterface := isInterface;
      usesBasicOrJavaType := false;
      usesNewProxy := false;
      usesInterfaceProxy := false;
      importsToResolve := [];
      interfaceImports := [];
      members := new ClassMembers();
    }

    /** `createTypeReferenceNode`. */
    method CreateTypeReferenceNode(name: string, isParam: bool) returns (nodes: seq<TypeNode>)
      modifies this
      ensures nodes == RefNodes(Environment(), name, isParam)
      ensures State() == Apply(old(State()), RefEffect(Environment(), name, isParam))
    {
      var interfaceProxy: seq<TypeNode> := [];
      if isInterface(name) && isParam {
        usesInterfaceProxy := true;
        if name !in interfaceImports {
          interfaceImports := interfaceImports + [name];
        }
        interfaceProxy := [ProxyRef(classname, name)];
      }
      importsToResolve := importsToResolve + [name];
      nodes := [TypeRef(RefName(classname, name, isParam), [])] + interfaceProxy;
    }

    /** `createUnion`. */
    method CreateUnion(javaType: string, isParam: bool, strictNullTypes: bool, keyword: Keyword, withBigInt: bool) returns (t: TypeNode)
      modifies this
      ensures var u := KeywordUnion(Environment(), javaType, isParam, strictNullTypes, keyword, withBigInt);
        t == u.node && State() == Apply(old(State()), u.effect)
    {
      var types := [KeywordType(keyword)];
      if !IsPrimitive(javaType) && strictNullTypes {
        types := types + [NullLiteral];
      }
      assert types == [KeywordType(keyword)] + (if !IsPrimitive(javaType) && strictNullTypes then [NullLiteral] else []);
      if !isParam {
        assert KeywordUnion(Environment(), javaType, isParam, strictNullTypes, keyword, withBigInt) == Mapped(UnionType(types), NoEffect);
        return UnionType(types);
      }
      var boxed := PrimitiveToClassType(javaType);
      var refs := CreateTypeReferenceNode(boxed, true);
      var additional := if withBigInt then [KeywordType(BigIntKeyword)] else [];
      t := UnionType(refs + additional + types);
      assert KeywordUnion(Environment(), javaType, isParam, strictNullTypes, keyword, withBigInt)
          == Mapped(t, RefEffect(Environment(), boxed, true));
    }

    /** `javaTypeToTypescriptType`. */
    method JavaTypeToTypescriptType(javaType: string, isParam: bool, strictNullTypes: bool) returns (t: TypeNode)
      modifies this
      ensures var r := MapType(Environment(), javaType, isParam, strictNullTypes);
        t == r.node && State() == Apply(old(State()), r.effect)
      decreases |javaType|
    {
      if IsBufferName(javaType) {
        return CreateType(strictNullTypes, [TypeRef("Buffer", [])]);
      }
      if EndsWithBrackets(javaType) {
        var element := JavaTypeToTypescriptType(javaType[..|javaType| - 2], isParam, true);
        return CreateType(strictNullTypes, [ArrayType(element)]);
      }
      if IsNumberName(javaType) {
        t := CreateUnion(javaType, isParam, strictNullTypes, NumberKeyword, false);
      } else if IsLongName(javaType) {
        t := CreateUnion(javaType, isParam, strictNullTypes, NumberKeyword, true);
      } else if IsStringName(javaType) {
        t := CreateType(strictNullTypes, [KeywordType(StringKeyword)]);
      } else if IsBooleanName(javaType) {
        t := CreateUnion(javaType, isParam, strictNullTypes, BooleanKeyword, false);
      } else if IsVoidName(javaType) {
        t := KeywordType(VoidKeyword);
      } else if javaType == "java.lang.Object" {
        usesBasicOrJavaType := true;
        t := CreateType(strictNullTypes, [TypeRef("BasicOrJavaType", [])]);
      } else {
        var nodes := CreateTypeReferenceNode(javaType, isParam);
        t := CreateType(strictNullTypes, nodes);
      }
    }

    /** `convertParameter`. */
    method ConvertParameter(param: string, index: nat) returns (p: Parameter)
      modifies this
      ensures p == ParameterAt(Environment(), index, param)
      ensures State() == Apply(old(State()), MapType(Environment(), param, true, true).effect)
    {
      var t := JavaTypeToTypescriptType(param, true, true);
      p := Parameter("var" + NatToString(index), t);
    }

    /** `convertParameters`. */
    method ConvertParameters(params: seq<string>) returns (ps: seq<Parameter>)
      modifies this
      ensures ps == ParametersOf(Environment(), params)
      ensures State() == ApplyAll(old(State()), ParamEffects(Environment(), params))
    {
      ps := [];
      var i := 0;
      while i < |params|
        invariant 0 <= i <= |params|
        invariant ps == ParametersOf(Environment(), params[..i])
        invariant State() == ApplyAll(old(State()), ParamEffects(Environment(), params[..i]))
      {
        var p := ConvertParameter(params[i], i);
        ps := ps + [p];
        Seqs.MapIndexedSnoc(ParameterFn(Environment()), params, i);
        assert params[..i + 1][..i] == params[..i];
        i := i + 1;
      }
      assert params[..i] == params;
    }

    /** `createMethod`. */
    method CreateMethod(m: JavaMethod, i: nat, isSync: bool, nonNullReturnType: bool) returns (d: ClassElement)
      modifies this
      ensures d == MethodDeclOf(Environment(), options, m, i, isSync, nonNullReturnType)
      ensures State() == ApplyAll(old(State()), MethodEffects(Environment(), m, nonNullReturnType))
    {
      var returnType := JavaTypeToTypescriptType(m.returnType, false, !nonNullReturnType);
      ghost var mid := State();
      if !isSync {
        returnType := Promise(returnType);
      }
      var params := ConvertParameters(m.parameters);
      d := MethodDecl(TsMethodModifiers(m), m.name + Suffix(options, m.name, isSync), params, returnType,
                      MethodComments(m.name, i, CreateMethodComment(m, "")));
      ghost var e := MapType(Environment(), m.returnType, false, !nonNullReturnType).effect;
      assert ApplyAll(old(State()), [e]) == mid;
      ApplyAllAppend(old(State()), [e], ParamEffects(Environment(), m.parameters));
    }

    /** The async variant, then the sync one, of one overload. */
    method CreateMethodVariants(m: JavaMethod, i: nat, nonNullReturnType: bool) returns (async: ClassElement, sync: ClassElement)
      modifies this
      ensures async == MethodDeclOf(Environment(), options, m, i, false, nonNullReturnType)
      ensures sync == MethodDeclOf(Environment(), options, m, i, true, nonNullReturnType)
      ensures var e := MethodEffects(Environment(), m, nonNullReturnType);
        State() == ApplyAll(ApplyAll(old(State()), e), e)
    {
      async := CreateMethod(m, i, false, nonNullReturnType);
      sync := CreateMethod(m, i, true, nonNullReturnType);
    }

    /** `convertClassMethods`. */
    method ConvertClassMethods(methods: seq<JavaMethod>, methodName: string)
      modifies this, members
      ensures members.classMembers == old(members.classMembers) + ConvertedMethods(Environment(), options, methods, methodName)
      ensures members.interfaceDeclaration == old(members.interfaceDeclaration)
      ensures State() == ApplyAll(old(State()), ConvertedMethodEffects(Environment(), methods, methodName))
    {
      var i := 0;
      while i < |methods|
        invariant 0 <= i <= |methods|
        invariant members.classMembers == old(members.classMembers) + ConvertedMethods(Environment(), options, methods[..i], methodName)
        invariant members.interfaceDeclaration == old(members.interfaceDeclaration)
        invariant State() == ApplyAll(old(State()), ConvertedMethodEffects(Environment(), methods[..i], methodName))
      {
        ConvertMethodAt(methods, methodName, i, old(members.classMembers), old(State()));
        i := i + 1;
      }
      assert methods[..i] == methods;
    }

    /** The `forEach` callback of `convertClassMethods`, for overload `i`. */
    method ConvertMethodAt(methods: seq<JavaMethod>, methodName: string, i: nat, ghost before: seq<ClassElement>, ghost st: MapState)
      requires i < |methods|
      requires members.classMembers == before + ConvertedMethods(Environment(), options, methods[..i], methodName)
      requires State() == ApplyAll(st, ConvertedMethodEffects(Environment(), methods[..i], methodName))
      modifies this, members
      ensures members.classMembers == before + ConvertedMethods(Environment(), options, methods[..i + 1], methodName)
      ensures members.interfaceDeclaration == old(members.interfaceDeclaration)
      ensures State() == ApplyAll(st, ConvertedMethodEffects(Environment(), methods[..i + 1], methodName))
    {
      if methodName == "toString" {
        assert ConvertedMethods(Environment(), options, methods[..i + 1], methodName) == [];
        assert ConvertedMethodEffects(Environment(), methods[..i + 1], methodName) == [];
        assert ConvertedMethods(Environment(), options, methods[..i], methodName) == [];
        assert ConvertedMethodEffects(Environment(), methods[..i], methodName) == [];
        return;
      }
      var async, sync := CreateMethodVariants(methods[i], i, methodName in NON_NULL_RETURN_METHODS);
      members.AddMembers([async, sync]);
      ConvertedMethodsStep(Environment(), options, st, methods, methodName, i);
      Seqs.AppendAssoc(before, ConvertedMethods(Environment(), options, methods[..i], methodName), [async, sync]);
    }

    /** `convertClassFields`. */
    method ConvertClassFields(fields: seq<JavaField>)
      modifies this, members
      ensures members.classMembers == old(members.classMembers) + PropertiesOf(Environment(), fields)
      ensures members.interfaceDeclaration == old(members.interfaceDeclaration)
      ensures State() == ApplyAll(old(State()), FieldEffects(Environment(), fields))
    {
      var i := 0;
      while i < |fields|
        invariant 0 <= i <= |fields|
        invariant members.classMembers == old(members.classMembers) + PropertiesOf(Environment(), fields[..i])
        invariant members.interfaceDeclaration == old(members.interfaceDeclaration)
        invariant State() == ApplyAll(old(State()), FieldEffects(Environment(), fields[..i]))
      {
        var field := fields[i];
        var t := JavaTypeToTypescriptType(field.typeName, true, true);
        var declaration := PropertyDecl(FieldTsModifiers(field), field.name, t, FieldComments(field));
        members.AddMembers([declaration]);
        PropertiesStep(Environment(), old(State()), fields, i);
        Seqs.AppendAssoc(old(members.classMembers), PropertiesOf(Environment(), fields[..i]), [declaration]);
        i := i + 1;
      }
      assert fields[..i] == fields;
    }

    /** `convertConstructors`. */
    method ConvertConstructors(constructors: seq<JavaConstructor>)
      modifies this, members
      ensures members.classMembers == old(members.classMembers) + ConstructorMembers(Environment(), options, constructors)
      ensures members.interfaceDeclaration == old(members.interfaceDeclaration)
      ensures State() == ApplyAll(old(State()), ConstructorEffects(Environment(), constructors))
    {
      var i := 0;
      while i < |constructors|
        invariant 0 <= i <= |constructors|
        invariant members.classMembers == old(members.classMembers) + ConstructorMembers(Environment(), options, constructors[..i])
        invariant members.interfaceDeclaration == old(members.interfaceDeclaration)
        invariant State() == ApplyAll(old(State()), ConstructorEffects(Environment(), constructors[..i]))
      {
        var parameters := constructors[i].parameters;
        var params := ConvertParameters(parameters);
        var factory := CreateMethod(NewInstance(classname, parameters), i, false, true);
        members.AddMembers([CreateConstructorDecl(params, parameters, i), factory]);
        ConstructorStep(Environment(), options, old(State()), constructors, i);
        Seqs.AppendAssoc(old(members.classMembers), ConstructorMembers(Environment(), options, constructors[..i]),
                         [CreateConstructorDecl(params, parameters, i), factory]);
        i := i + 1;
      }
      assert constructors[..i] == constructors;
    }

    /** `createMethodSignature`: the parameters are converted before the return type. */
    method CreateMethodSignature(m: JavaMethod, name: string, i: nat, isDefault: bool, nonNullReturnType: bool) returns (sig: MethodSignature)
      modifies this
      ensures sig == SignatureOf(Environment(), m, name, i, isDefault, nonNullReturnType)
      ensures State() == ApplyAll(old(State()), SignatureEffects(Environment(), m, nonNullReturnType))
    {
      var params := ConvertParameters(m.parameters);
      ghost var mid := State();
      var returnType := JavaTypeToTypescriptType(m.returnType, false, !nonNullReturnType);
      var requiredNote := "";
      if Default !in m.modifiers && isDefault {
        requiredNote := REQUIRED_NOTE;
      }
      sig := MethodSignature(name, isDefault, params, returnType, MethodComments(name, i, CreateMethodComment(m, requiredNote)));
      ghost var re := [MapType(Environment(), m.returnType, false, !nonNullReturnType).effect];
      assert ApplyAll(mid, re) == State();
      ApplyAllAppend(old(State()), ParamEffects(Environment(), m.parameters), re);
    }

    /** The signatures of one group, as the inner `map` builds them. */
    method CreateGroupSignatures(g: MethodGroup) returns (sigs: seq<MethodSignature>)
      modifies this
      ensures sigs == GroupSignatures(Environment(), g)
      ensures State() == ApplyAll(old(State()), GroupSignatureEffects(Environment(), g))
    {
      var ms := NonStatic(g.overloads);
      var isDefault := HasDefault(ms);
      var nonNull := g.name in NON_NULL_RETURN_METHODS;
      ghost var env := Environment();
      ghost var st := State();
      ghost var f := SignatureFn(env, g.name, isDefault, nonNull);
      sigs := [];
      var i := 0;
      while i < |ms|
        invariant 0 <= i <= |ms|
        invariant sigs == Seqs.MapIndexed(f, ms[..i])
        invariant State() == ApplyAll(st, GroupSignatureEffectsUpTo(env, g.name, ms, i))
      {
        var sig := CreateMethodSignature(ms[i], g.name, i, isDefault, nonNull);
        sigs := sigs + [sig];
        GroupSignaturesStep(env, st, g.name, isDefault, ms, i);
        i := i + 1;
      }
      assert ms[..i] == ms;
    }

    /** `createInterfaceMethodSignatures`. */
    method CreateInterfaceMethodSignatures(groups: seq<MethodGroup>) returns (sigs: seq<MethodSignature>)
      modifies this
      ensures sigs == InterfaceSignatures(Environment(), groups)
      ensures State() == ApplyAll(old(State()), InterfaceSignatureEffects(Environment(), groups))
    {
      sigs := [];
      var i := 0;
      while i < |groups|
        invariant 0 <= i <= |groups|
        invariant sigs == InterfaceSignatures(Environment(), groups[..i])
        invariant State() == ApplyAll(old(State()), InterfaceSignatureEffects(Environment(), groups[..i]))
      {
        var gs := CreateGroupSignatures(groups[i]);
        sigs := sigs + gs;
        InterfaceSignaturesStep(Environment(), old(State()), groups, i);
        i := i + 1;
      }
      assert groups[..i] == groups;
    }

    /** `createNewProxyMethod`: the proxy factory, which needs both proxy helpers. */
    method CreateNewProxyMethod() returns (s: Statement)
      modifies this
      ensures s == ProxyFunctionOf(simpleName, classname)
      ensures State() == old(State()).(usesNewProxy := true, usesInterfaceProxy := true)
    {
      usesNewProxy := true;
      usesInterfaceProxy := true;
      s := ProxyFunction("create" + simpleName + "Proxy", simpleName + "Interface", classname);
    }

    /** `createInterfaceDeclaration`: a separator, the interface, a separator, the proxy factory. */
    method CreateInterfaceDeclaration(groups: seq<MethodGroup>)
      modifies this, members
      ensures members.interfaceDeclaration == old(members.interfaceDeclaration)
        + [None, Some(InterfaceDecl(simpleName + "Interface", InterfaceSignatures(Environment(), groups))), None,
           Some(ProxyFunctionOf(simpleName, classname))]
      ensures members.classMembers == old(members.classMembers)
      ensures State() == ApplyAll(old(State()), InterfaceSignatureEffects(Environment(), groups)).(usesNewProxy := true, usesInterfaceProxy := true)
    {
      var sigs := CreateInterfaceMethodSignatures(groups);
      var decl := InterfaceDecl(simpleName + "Interface", sigs);
      var proxy := CreateNewProxyMethod();
      members.AddInterfaceDeclaration([None, Some(decl), None, Some(proxy)]);
    }

    /** `getImports`. */
    function GetImports(): Statement
      reads this
    {
      RuntimeImports(State())
    }

    /** `getAdditionalImports`. */
    function GetAdditionalImports(): seq<Statement>
      reads this
    {
      AdditionalImports(classname, State())
    }

    /**
     * `createSourceText`, before printing: the runtime import, the class
     * imports, a separator, the type-only class, the interface section, a
     * separator and the export statement.
     */
    function CreateSourceText(isAbstractOrInterface: bool): (r: seq<Option<Statement>>)
      reads this, members
      ensures |r| == 2 + |GetAdditionalImports()| + 1 + |members.interfaceDeclaration| + 1 + 2
      ensures r[0] == Some(RuntimeImports(State()))
      ensures r[1 + |GetAdditionalImports()|] == None
      ensures r[2 + |GetAdditionalImports()|] == Some(CreateClassDecl(simpleName, members.classMembers))
      ensures r[|r| - 2] == Some(ExportClass(simpleName, classname, if options == DefaultOptions then None else Some(options),
                                               if isAbstractOrInterface then [PrivateConstructor] else []))
      ensures r[|r| - 1] == Some(ExportDefault(simpleName))
    {
      var exportStmt := CreateExportStatement(simpleName, isAbstractOrInterface, classname, options);
      SourceStatements(GetImports(), GetAdditionalImports(), CreateClassDecl(simpleName, members.classMembers),
                       members.interfaceDeclaration, exportStmt)
    }
  }

  /**
   * The statement list handed to the printer: the runtime import, the class
   * imports, a blank line (`null`), the class, the interface section, a blank
   * line, and the export statements, each spread in order.
   */
  function SourceStatements(imports: Statement, extra: seq<Statement>, classDecl: Statement,
                            iface: seq<Option<Statement>>, exports: seq<Statement>): (r: seq<Option<Statement>>)
    ensures |r| == 1 + |extra| + 2 + |iface| + 1 + |exports|
    ensures r[0] == Some(imports)
    ensures forall i :: 0 <= i < |extra| ==> r[1 + i] == Some(extra[i])
    ensures r[1 + |extra|] == None && r[2 + |extra|] == Some(classDecl)
    ensures forall i :: 0 <= i < |iface| ==> r[3 + |extra| + i] == iface[i]
    ensures r[3 + |extra| + |iface|] == None
    ensures forall i :: 0 <= i < |exports| ==> r[4 + |extra| + |iface| + i] == Some(exports[i])
  {
    [Some(imports)] + LiftAll(extra) + [None, Some(classDecl)] + iface + [None] + LiftAll(exports)
  }

  function LiftAll(s: seq<Statement>): (r: seq<Option<Statement>>)
    ensures |r| == |s|
    ensures forall i :: 0 <= i < |s| ==> r[i] == Some(s[i])
  {
    if |s| == 0 then [] else LiftAll(s[..|s| - 1]) + [Some(s[|s| - 1])]
  }
}
