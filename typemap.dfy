/**
 * The mapping from a Java type name to a TypeScript type node, split into
 * the node it produces and the bookkeeping it does on the way: the
 * referenced class to import, whether that class is used through an
 * interface proxy, and whether the `BasicOrJavaType` helper type is needed.
 */
module TypeMap {
  import opened Wrappers
  import opened Helpers
  import opened TsAst
  import Util

  /**
   * What the mapping reads besides the type name: the class being generated,
   * and the reflection oracle telling whether a class is an interface.
   */
  datatype Env = Env(classname: string, isInterface: string -> bool)

  /** The bookkeeping of one mapping call. */
  datatype Effect = Effect(reference: Option<string>, proxied: bool, usesBasic: bool)

  const NoEffect := Effect(None, false, false)

  datatype Mapped = Mapped(node: TypeNode, effect: Effect)

  // ---------------------------------------------------------------------
  // Names
  // ---------------------------------------------------------------------

  /** `endsWith('[]')`. */
  predicate EndsWithBrackets(t: string) {
    |t| >= 2 && t[|t| - 2] == '[' && t[|t| - 1] == ']'
  }

  predicate IsBufferName(t: string) {
    t == "byte[]" || t == "java.lang.Byte[]"
  }

  predicate IsNumberName(t: string) {
    t == "int" || t == "java.lang.Integer" || t == "float" || t == "java.lang.Float" ||
    t == "double" || t == "java.lang.Double" || t == "byte" || t == "java.lang.Byte" ||
    t == "short" || t == "java.lang.Short"
  }

  predicate IsLongName(t: string) {
    t == "long" || t == "java.lang.Long"
  }

  predicate IsStringName(t: string) {
    t == "char" || t == "java.lang.Character" || t == "java.lang.String"
  }

  predicate IsBooleanName(t: string) {
    t == "boolean" || t == "java.lang.Boolean"
  }

  predicate IsVoidName(t: string) {
    t == "void" || t == "java.lang.Void"
  }

  /** A name that falls through to the class reference case. */
  predicate IsReferenceName(t: string) {
    !IsBufferName(t) && !EndsWithBrackets(t) && !IsNumberName(t) && !IsLongName(t) &&
    !IsStringName(t) && !IsBooleanName(t) && !IsVoidName(t) && t != "java.lang.Object"
  }

  /** The keyword-mapped names are neither arrays nor buffers. */
  lemma KeywordNamesAreNoArrays(t: string)
    requires IsNumberName(t) || IsLongName(t) || IsBooleanName(t) || IsStringName(t) || IsVoidName(t)
    ensures !IsBufferName(t) && !EndsWithBrackets(t)
  {
    assert t[|t| - 1] != ']';
  }

  /** Every primitive name has a case of its own before the reference case. */
  lemma PrimitiveIsNoReference(t: string)
    requires IsPrimitive(t)
    ensures !IsReferenceName(t)
  {
  }

  /**
   * The name a class is referred to by: the class itself by its simple name,
   * with `Class` appended in parameter position; any other class by its
   * dotted name with `.` replaced by `_`.
   */
  function RefName(classname: string, name: string, isParam: bool): (r: string)
    ensures name != classname ==> '.' !in r && |r| == |name|
    ensures name == classname ==> r == GetSimpleName(name) + (if isParam then "Class" else "")
  {
    if name == classname then GetSimpleName(name) + (if isParam then "Class" else "")
    else ReplaceAll(name, '.', '_')
  }

  /** `JavaInterfaceProxy<...Interface>` for an interface class. */
  function ProxyRef(classname: string, name: string): TypeNode {
    TypeRef("JavaInterfaceProxy",
      [TypeRef((if name == classname then GetSimpleName(name) else ReplaceAll(name, '.', '_')) + "Interface", [])])
  }

  /** The nodes `createTypeReferenceNode` returns: the reference, then the proxy type for an interface parameter. */
  function RefNodes(env: Env, name: string, isParam: bool): (r: seq<TypeNode>)
    ensures 1 <= |r| <= 2 && r[0] == TypeRef(RefName(env.classname, name, isParam), [])
    ensures |r| == 2 <==> isParam && env.isInterface(name)
    ensures |r| == 2 ==> r[1] == ProxyRef(env.classname, name)
  {
    [TypeRef(RefName(env.classname, name, isParam), [])]
      + (if env.isInterface(name) && isParam then [ProxyRef(env.classname, name)] else [])
  }

  /** The bookkeeping of `createTypeReferenceNode`. */
  function RefEffect(env: Env, name: string, isParam: bool): Effect {
    Effect(Some(name), isParam && env.isInterface(name), false)
  }

  /**
   * `createUnion`: the keyword, then null for a boxed name when strict; in
   * parameter position the wrapper class reference (and its proxy) and the
   * extra `bigint` keyword come first.
   */
  function KeywordUnion(env: Env, javaType: string, isParam: bool, strictNullTypes: bool, keyword: Keyword, withBigInt: bool): Mapped {
    var types := [KeywordType(keyword)] + (if !IsPrimitive(javaType) && strictNullTypes then [NullLiteral] else []);
    if !isParam then Mapped(UnionType(types), NoEffect)
    else
      var boxed := PrimitiveToClassType(javaType);
      Mapped(UnionType(RefNodes(env, boxed, true) + (if withBigInt then [KeywordType(BigIntKeyword)] else []) + types),
             RefEffect(env, boxed, true))
  }

  /**
   * `javaTypeToTypescriptType`. Only the bookkeeping depends on the
   * converter's state, and only by appending; the node does not depend on it.
   */
  function MapType(env: Env, javaType: string, isParam: bool, strictNullTypes: bool): (r: Mapped)
    ensures WellFormed(r.effect)
    ensures r.effect.proxied <==> isParam && r.effect.reference.Some? && env.isInterface(r.effect.reference.value)
    ensures r.effect.usesBasic ==> r.effect.reference.None?
    decreases |javaType|
  {
    if IsBufferName(javaType) then Mapped(CreateType(strictNullTypes, [TypeRef("Buffer", [])]), NoEffect)
    else if EndsWithBrackets(javaType) then
      var inner := MapType(env, javaType[..|javaType| - 2], isParam, true);
      Mapped(CreateType(strictNullTypes, [ArrayType(inner.node)]), inner.effect)
    else if IsNumberName(javaType) then KeywordUnion(env, javaType, isParam, strictNullTypes, NumberKeyword, false)
    else if IsLongName(javaType) then KeywordUnion(env, javaType, isParam, strictNullTypes, NumberKeyword, true)
    else if IsStringName(javaType) then Mapped(CreateType(strictNullTypes, [KeywordType(StringKeyword)]), NoEffect)
    else if IsBooleanName(javaType) then KeywordUnion(env, javaType, isParam, strictNullTypes, BooleanKeyword, false)
    else if IsVoidName(javaType) then Mapped(KeywordType(VoidKeyword), NoEffect)
    else if javaType == "java.lang.Object" then Mapped(CreateType(strictNullTypes, [TypeRef("BasicOrJavaType", [])]), Effect(None, false, true))
    else Mapped(CreateType(strictNullTypes, RefNodes(env, javaType, isParam)), RefEffect(env, javaType, isParam))
  }

  // ---------------------------------------------------------------------
  // What the mapping promises
  // ---------------------------------------------------------------------

  /** `void` is the bare `void` keyword, never unioned with null, and needs no import. */
  lemma VoidIsNeverNullable(env: Env, javaType: string, isParam: bool, strictNullTypes: bool)
    requires IsVoidName(javaType)
    ensures MapType(env, javaType, isParam, strictNullTypes) == Mapped(KeywordType(VoidKeyword), NoEffect)
    ensures !Nullable(MapType(env, javaType, isParam, strictNullTypes).node)
  {
  }

  /** The number, `long` and boolean names all go through `createUnion`. */
  lemma KeywordCase(env: Env, javaType: string, isParam: bool, strictNullTypes: bool)
    requires IsNumberName(javaType) || IsLongName(javaType) || IsBooleanName(javaType)
    ensures MapType(env, javaType, isParam, strictNullTypes)
         == KeywordUnion(env, javaType, isParam, strictNullTypes,
                         if IsBooleanName(javaType) then BooleanKeyword else NumberKeyword, IsLongName(javaType))
  {
    KeywordNamesAreNoArrays(javaType);
  }

  /**
   * Outside parameter position a number, `long` or boolean name is a union of
   * its keyword alone, plus null only for the boxed names and only when
   * strict; `long` gets no `bigint` there, and nothing is imported.
   */
  lemma KeywordOutsideParameters(env: Env, javaType: string, strictNullTypes: bool)
    requires IsNumberName(javaType) || IsLongName(javaType) || IsBooleanName(javaType)
    ensures var r := MapType(env, javaType, false, strictNullTypes);
      r.effect == NoEffect &&
      r.node == UnionType([KeywordType(if IsBooleanName(javaType) then BooleanKeyword else NumberKeyword)]
                          + (if !IsPrimitive(javaType) && strictNullTypes then [NullLiteral] else [])) &&
      KeywordType(BigIntKeyword) !in r.node.types &&
      (Nullable(r.node) <==> !IsPrimitive(javaType) && strictNullTypes)
  {
    KeywordCase(env, javaType, false, strictNullTypes);
    var r := MapType(env, javaType, false, strictNullTypes);
    assert r.node.types[0] != NullLiteral;
  }

  /**
   * In parameter position the union starts with the wrapper class reference
   * (and its proxy type when the oracle calls the wrapper an interface), then
   * `bigint` for `long`, then the keyword, then null for a boxed name when
   * strict; the wrapper is recorded for import.
   */
  lemma KeywordInParameters(env: Env, javaType: string, strictNullTypes: bool)
    requires IsNumberName(javaType) || IsLongName(javaType) || IsBooleanName(javaType)
    ensures var r := MapType(env, javaType, true, strictNullTypes);
      var boxed := PrimitiveToClassType(javaType);
      r.effect.reference == Some(boxed) &&
      r.node == UnionType(RefNodes(env, boxed, true)
                          + (if IsLongName(javaType) then [KeywordType(BigIntKeyword)] else [])
                          + ([KeywordType(if IsBooleanName(javaType) then BooleanKeyword else NumberKeyword)]
                             + (if !IsPrimitive(javaType) && strictNullTypes then [NullLiteral] else [])))
  {
    KeywordCase(env, javaType, true, strictNullTypes);
  }

  /** `char`, `Character` and `String` are `string`, with null whenever strict, even for the primitive `char`. */
  lemma StringNames(env: Env, javaType: string, isParam: bool, strictNullTypes: bool)
    requires IsStringName(javaType)
    ensures MapType(env, javaType, isParam, strictNullTypes)
         == Mapped(if strictNullTypes then UnionType([KeywordType(StringKeyword), NullLiteral]) else KeywordType(StringKeyword), NoEffect)
    ensures Nullable(MapType(env, javaType, isParam, strictNullTypes).node) <==> strictNullTypes
  {
  }

  /**
   * `byte[]` is a `Buffer`; any other array is an array of its element type,
   * the element mapped with strict null types whatever the outer flag, and
   * with the element's bookkeeping.
   */
  lemma ArrayNames(env: Env, elem: string, isParam: bool, strictNullTypes: bool)
    requires !IsBufferName(elem + "[]")
    ensures var r := MapType(env, elem + "[]", isParam, strictNullTypes);
      var inner := MapType(env, elem, isParam, true);
      r.node == CreateType(strictNullTypes, [ArrayType(inner.node)]) && r.effect == inner.effect
  {
    var t := elem + "[]";
    assert t[|t| - 2] == '[' && t[|t| - 1] == ']';
    assert t[..|t| - 2] == elem;
  }

  lemma BufferNames(env: Env, javaType: string, isParam: bool, strictNullTypes: bool)
    requires IsBufferName(javaType)
    ensures MapType(env, javaType, isParam, strictNullTypes) == Mapped(CreateType(strictNullTypes, [TypeRef("Buffer", [])]), NoEffect)
  {
  }

  /** `java.lang.Object` is `BasicOrJavaType`, which the runtime import then has to provide. */
  lemma ObjectName(env: Env, isParam: bool, strictNullTypes: bool)
    ensures var r := MapType(env, "java.lang.Object", isParam, strictNullTypes);
      r.effect == Effect(None, false, true) && r.node == CreateType(strictNullTypes, [TypeRef("BasicOrJavaType", [])])
  {
  }

  /**
   * Any other class is recorded for import, refers to itself by its simple
   * name and to others by their dotted name with `_`; it is offered through
   * an interface proxy exactly in parameter position when the oracle says
   * it is an interface.
   */
  lemma ReferenceNames(env: Env, javaType: string, isParam: bool, strictNullTypes: bool)
    requires IsReferenceName(javaType)
    ensures var r := MapType(env, javaType, isParam, strictNullTypes);
      r.effect.reference == Some(javaType) && !r.effect.usesBasic &&
      (r.effect.proxied <==> isParam && env.isInterface(javaType)) &&
      Alternatives(r.node) == [TypeRef(RefName(env.classname, javaType, isParam), [])]
        + (if r.effect.proxied then [ProxyRef(env.classname, javaType)] else [])
        + (if strictNullTypes then [NullLiteral] else [])
  {
    ReferenceCase(env, javaType, isParam, strictNullTypes);
    CreateTypeAlternatives(strictNullTypes, RefNodes(env, javaType, isParam));
  }

  /** A name that is no keyword, array, buffer or `Object` takes the reference case. */
  lemma ReferenceCase(env: Env, javaType: string, isParam: bool, strictNullTypes: bool)
    requires IsReferenceName(javaType)
    ensures MapType(env, javaType, isParam, strictNullTypes)
         == Mapped(CreateType(strictNullTypes, RefNodes(env, javaType, isParam)), RefEffect(env, javaType, isParam))
  {
  }

  /** Only the element of nested arrays decides the bookkeeping. */
  lemma NestedArrayEffect(env: Env, elem: string, isParam: bool, strictNullTypes: bool)
    requires !IsBufferName(elem + "[]") && !IsBufferName(elem + "[][]")
    ensures MapType(env, elem + "[][]", isParam, strictNullTypes).effect == MapType(env, elem, isParam, true).effect
  {
    ArrayNames(env, elem + "[]", isParam, strictNullTypes);
    assert elem + "[]" + "[]" == elem + "[][]";
    ArrayNames(env, elem, isParam, true);
  }

  // ---------------------------------------------------------------------
  // The converter state the bookkeeping updates
  // ---------------------------------------------------------------------

  datatype MapState = MapState(
    usesBasicOrJavaType: bool,
    usesNewProxy: bool,
    usesInterfaceProxy: bool,
    importsToResolve: seq<string>,
    interfaceImports: seq<string>)

  const InitialState := MapState(false, false, false, [], [])

  /**
   * One call's bookkeeping: the referenced class is appended to
   * `importsToResolve`, a proxied class is added to `interfaceImports`
   * unless it is there already, and the flags are raised.
   */
  function Apply(st: MapState, e: Effect): (r: MapState)
    requires WellFormed(e)
  {
    st.(usesBasicOrJavaType := st.usesBasicOrJavaType || e.usesBasic,
        usesInterfaceProxy := st.usesInterfaceProxy || e.proxied,
        importsToResolve := st.importsToResolve + (if e.reference.Some? then [e.reference.value] else []),
        interfaceImports :=
          if e.proxied && e.reference.value !in st.interfaceImports then st.interfaceImports + [e.reference.value]
          else st.interfaceImports)
  }

  predicate WellFormed(e: Effect) {
    e.proxied ==> e.reference.Some?
  }

  /** The bookkeeping of several calls, in call order. */
  function ApplyAll(st: MapState, es: seq<Effect>): MapState
    requires forall i :: 0 <= i < |es| ==> WellFormed(es[i])
  {
    if |es| == 0 then st else Apply(ApplyAll(st, es[..|es| - 1]), es[|es| - 1])
  }

  lemma {:induction false} ApplyAllAppend(st: MapState, a: seq<Effect>, b: seq<Effect>)
    requires forall i :: 0 <= i < |a| ==> WellFormed(a[i])
    requires forall i :: 0 <= i < |b| ==> WellFormed(b[i])
    ensures forall i :: 0 <= i < |a + b| ==> WellFormed((a + b)[i])
    ensures ApplyAll(st, a + b) == ApplyAll(ApplyAll(st, a), b)
    decreases |b|
  {
    assert forall i :: 0 <= i < |a + b| ==> WellFormed((a + b)[i]) by {
      forall i | 0 <= i < |a + b| ensures WellFormed((a + b)[i]) {
        if i < |a| { assert (a + b)[i] == a[i]; } else { assert (a + b)[i] == b[i - |a|]; }
      }
    }
    if |b| == 0 {
      assert a + b == a;
    } else {
      assert (a + b)[..|a + b| - 1] == a + b[..|b| - 1];
      ApplyAllAppend(st, a, b[..|b| - 1]);
    }
  }

  /**
   * The state invariant of a converter: every interface import is distinct
   * and was also recorded for import resolution, and a non-empty interface
   * list means the proxy type is in use.
   */
  predicate ValidState(st: MapState) {
    Util.Distinct(st.interfaceImports)
    && (forall x :: x in st.interfaceImports ==> x in st.importsToResolve)
    && (|st.interfaceImports| > 0 ==> st.usesInterfaceProxy)
  }

  /** The bookkeeping keeps the invariant, only appends, and never lowers a flag. */
  lemma ApplyPreserves(st: MapState, e: Effect)
    requires WellFormed(e) && ValidState(st)
    ensures ValidState(Apply(st, e))
    ensures |st.importsToResolve| <= |Apply(st, e).importsToResolve|
    ensures Apply(st, e).importsToResolve[..|st.importsToResolve|] == st.importsToResolve
    ensures Apply(st, e).interfaceImports[..|st.interfaceImports|] == st.interfaceImports
    ensures st.usesBasicOrJavaType ==> Apply(st, e).usesBasicOrJavaType
    ensures st.usesInterfaceProxy ==> Apply(st, e).usesInterfaceProxy
  {
    var r := Apply(st, e);
    assert r.importsToResolve[..|st.importsToResolve|] == st.importsToResolve;
    assert r.interfaceImports[..|st.interfaceImports|] == st.interfaceImports;
  }

  /** Recording a proxied class twice lists it once. */
  lemma ProxiedListedOnce(st: MapState, e: Effect)
    requires WellFormed(e) && e.proxied
    ensures Apply(Apply(st, e), e).interfaceImports == Apply(st, e).interfaceImports
    ensures e.reference.value in Apply(st, e).interfaceImports
  {
  }

  lemma {:induction false} ApplyAllPreserves(st: MapState, es: seq<Effect>)
    requires forall i :: 0 <= i < |es| ==> WellFormed(es[i])
    requires ValidState(st)
    ensures ValidState(ApplyAll(st, es))
    ensures |st.importsToResolve| <= |ApplyAll(st, es).importsToResolve|
    ensures ApplyAll(st, es).importsToResolve[..|st.importsToResolve|] == st.importsToResolve
    decreases |es|
  {
    if |es| > 0 {
      var mid := ApplyAll(st, es[..|es| - 1]);
      ApplyAllPreserves(st, es[..|es| - 1]);
      ApplyPreserves(mid, es[|es| - 1]);
      var r := ApplyAll(st, es);
      assert r.importsToResolve[..|mid.importsToResolve|] == mid.importsToResolve;
      assert r.importsToResolve[..|st.importsToResolve|] == r.importsToResolve[..|mid.importsToResolve|][..|st.importsToResolve|];
    }
  }
}
