/**
 * The TypeScript syntax the converter builds, as plain values, and the
 * stateless node builders around it: the null-aware type constructor,
 * the comments attached to methods and constructors, the interface
 * import specifier, the class declaration and the export statement.
 */
module TsAst {
  import opened Wrappers
  import opened Types
  import opened Helpers
  import Util

  // ---------------------------------------------------------------------
  // Type nodes
  // ---------------------------------------------------------------------

  datatype Keyword = NumberKeyword | BigIntKeyword | StringKeyword | BooleanKeyword | VoidKeyword

  datatype TypeNode =
    | KeywordType(keyword: Keyword)
    | TypeRef(name: string, args: seq<TypeNode>)
    | ArrayType(element: TypeNode)
    | UnionType(types: seq<TypeNode>)
    | NullLiteral

  /** `Promise<t>`. */
  function Promise(t: TypeNode): TypeNode {
    TypeRef("Promise", [t])
  }

  /** A type admits `null` when it is the null literal or a union holding it. */
  predicate Nullable(t: TypeNode) {
    t == NullLiteral || (t.UnionType? && NullLiteral in t.types)
  }

  /** The alternatives a type offers: the members of a union, or the type itself. */
  function Alternatives(t: TypeNode): seq<TypeNode> {
    if t.UnionType? then t.types else [t]
  }

  /**
   * `createType`: with strict null types, a union of the given types and one
   * null literal; otherwise a single type as it is, or a union of several.
   * Every caller passes at least one type.
   */
  function CreateType(strictNullTypes: bool, types: seq<TypeNode>): (r: TypeNode)
    requires |types| >= 1
    ensures strictNullTypes ==> Nullable(r)
    ensures !strictNullTypes ==> (Nullable(r) <==> (if |types| == 1 then Nullable(types[0]) else NullLiteral in types))
  {
    if strictNullTypes then UnionType(types + [NullLiteral])
    else if |types| > 1 then UnionType(types)
    else types[0]
  }

  /**
   * Seen as a list of alternatives, `createType` offers exactly the given
   * types, followed by one null literal when strict, as long as none of the
   * given types is itself a union.
   */
  lemma CreateTypeAlternatives(strictNullTypes: bool, types: seq<TypeNode>)
    requires |types| >= 1
    requires forall i :: 0 <= i < |types| ==> !types[i].UnionType?
    ensures Alternatives(CreateType(strictNullTypes, types)) == types + (if strictNullTypes then [NullLiteral] else [])
    ensures strictNullTypes && NullLiteral !in types ==>
      multiset(Alternatives(CreateType(strictNullTypes, types)))[NullLiteral] == 1
  {
    var r := CreateType(strictNullTypes, types);
    if strictNullTypes && NullLiteral !in types {
      assert multiset(types)[NullLiteral] == 0;
      assert multiset(types + [NullLiteral]) == multiset(types) + multiset{NullLiteral};
    }
  }

  // ---------------------------------------------------------------------
  // Comments
  // ---------------------------------------------------------------------

  /** The decimal digits of a natural number, as template literals print it. */
  function NatToString(n: nat): (s: string)
    ensures |s| >= 1
    ensures forall i :: 0 <= i < |s| ==> '0' <= s[i] <= '9'
  {
    if n < 10 then [(n + '0' as int) as char]
    else NatToString(n / 10) + [((n % 10) + '0' as int) as char]
  }

  /** The value a string of decimal digits denotes. */
  function DigitsValue(s: string): nat
    requires forall i :: 0 <= i < |s| ==> '0' <= s[i] <= '9'
  {
    if |s| == 0 then 0 else DigitsValue(s[..|s| - 1]) * 10 + (s[|s| - 1] as int - '0' as int)
  }

  /** Printing a number and reading the digits back gives the number. */
  lemma {:induction false} NatToStringValue(n: nat)
    ensures DigitsValue(NatToString(n)) == n
    decreases n
  {
    var s := NatToString(n);
    if n >= 10 {
      NatToStringValue(n / 10);
      assert s[..|s| - 1] == NatToString(n / 10);
    }
  }

  /** Distinct parameter indices print differently. */
  lemma NatToStringInjective(m: nat, n: nat)
    requires NatToString(m) == NatToString(n)
    ensures m == n
  {
    NatToStringValue(m);
    NatToStringValue(n);
  }

  /** One ` * @param var<i> original type: '<p>'` line. */
  function ParamLine(i: nat, p: string): string {
    " * @param var" + NatToString(i) + " original type: '" + p + "'\n"
  }

  /** The parameter lines of `parameters`, numbered from `start`. */
  function ParamLinesFrom(start: nat, parameters: seq<string>): string
    decreases |parameters|
  {
    if |parameters| == 0 then ""
    else ParamLine(start, parameters[0]) + ParamLinesFrom(start + 1, parameters[1..])
  }

  lemma StringAssoc(a: string, b: string, c: string)
    ensures a + (b + c) == (a + b) + c
  {
  }

  /** The parameter lines of a declaration, numbered from zero. */
  function ParamLines(parameters: seq<string>): string {
    ParamLinesFrom(0, parameters)
  }

  /** Appending a parameter appends exactly one line, numbered with its position. */
  lemma {:induction false} ParamLinesFromSnoc(start: nat, parameters: seq<string>, p: string)
    ensures ParamLinesFrom(start, parameters + [p]) == ParamLinesFrom(start, parameters) + ParamLine(start + |parameters|, p)
    decreases |parameters|
  {
    if |parameters| == 0 {
      assert parameters + [p] == [p];
      assert ParamLinesFrom(start + 1, []) == "";
    } else {
      var head := ParamLine(start, parameters[0]);
      var rest := ParamLinesFrom(start + 1, parameters[1..]);
      var last := ParamLine(start + |parameters|, p);
      assert (parameters + [p])[0] == parameters[0];
      assert (parameters + [p])[1..] == parameters[1..] + [p];
      ParamLinesFromSnoc(start + 1, parameters[1..], p);
      assert ParamLinesFrom(start + 1, parameters[1..] + [p]) == rest + last;
      assert ParamLinesFrom(start, parameters + [p]) == head + (rest + last);
      assert ParamLinesFrom(start, parameters) == head + rest;
      StringAssoc(head, rest, last);
    }
  }

  lemma ParamLinesSnoc(parameters: seq<string>, p: string)
    ensures ParamLines(parameters + [p]) == ParamLines(parameters) + ParamLine(|parameters|, p)
  {
    ParamLinesFromSnoc(0, parameters, p);
  }

  /** The closing ` * @return original return type: '<t>'` line. */
  function ReturnLine(returnType: string): string {
    " * @return original return type: '" + returnType + "'\n "
  }

  /**
   * `createMethodComment`: the block comment of a method: `*` and a line
   * break, the extra text, one line per parameter, then the return line.
   */
  function CreateMethodComment(declaration: JavaMethod, additionalComment: string): string {
    "*\n" + additionalComment + ParamLines(declaration.parameters) + ReturnLine(declaration.returnType)
  }

  /** The comment opens with `*`, a line break and the extra text, and closes with the return line. */
  lemma MethodCommentShape(declaration: JavaMethod, additionalComment: string)
    ensures var c := CreateMethodComment(declaration, additionalComment);
      var ret := ReturnLine(declaration.returnType);
      |c| >= 2 + |additionalComment| + |ret| && c[..2] == "*\n" && c[2..2 + |additionalComment|] == additionalComment
      && c[|c| - |ret|..] == ret
  {
    var head := "*\n" + additionalComment;
    var c := CreateMethodComment(declaration, additionalComment);
    assert c[..|head|] == head;
    assert c[..2] == head[..2];
  }

  /** One more parameter adds exactly its own line just before the return line. */
  lemma MethodCommentAddParameter(declaration: JavaMethod, additionalComment: string, p: string)
    ensures CreateMethodComment(declaration.(parameters := declaration.parameters + [p]), additionalComment)
         == "*\n" + additionalComment + ParamLines(declaration.parameters)
            + ParamLine(|declaration.parameters|, p) + ReturnLine(declaration.returnType)
  {
    ParamLinesSnoc(declaration.parameters, p);
  }

  // ---------------------------------------------------------------------
  // Declarations
  // ---------------------------------------------------------------------

  datatype TsModifier = PublicModifier | PrivateModifier | StaticModifier | ReadonlyModifier | ExportModifier | DeclareModifier

  /** A synthetic leading comment: single-line or block. */
  datatype Comment = LineComment(text: string) | BlockComment(text: string)

  datatype Parameter = Parameter(name: string, paramType: TypeNode)

  /** A member of a generated class. */
  datatype ClassElement =
    | MethodDecl(modifiers: seq<TsModifier>, name: string, parameters: seq<Parameter>, returnType: TypeNode, comments: seq<Comment>)
    | PropertyDecl(modifiers: seq<TsModifier>, name: string, propertyType: TypeNode, comments: seq<Comment>)
    | ConstructorDecl(modifiers: seq<TsModifier>, parameters: seq<Parameter>, comments: seq<Comment>)
    /** The private constructor that calls `super()`, with its fixed comment. */
    | PrivateConstructor

  /** A signature of a proxy interface. */
  datatype MethodSignature = MethodSignature(name: string, optional: bool, parameters: seq<Parameter>, returnType: TypeNode, comments: seq<Comment>)

  /** `import { <propertyName> as <name> }`, or `{ <name> }` when there is no property name. */
  datatype ImportSpecifier = ImportSpecifier(propertyName: Option<string>, name: string)

  /** The generator options that reach the export statement. */
  datatype GeneratorOptions = GeneratorOptions(asyncSuffix: string, syncSuffix: string, customInspect: bool, targetVersion: Option<string>)

  /** `defaultGeneratorOpts`. */
  const DefaultOptions := GeneratorOptions("", "Sync", false, None)

  /** A top-level statement of a generated file. Fixed documentation comments are not modelled. */
  datatype Statement =
    | ImportDecl(specifiers: seq<ImportSpecifier>, moduleName: string)
    /** `export declare class <name> extends <base> { members }` */
    | ClassDecl(modifiers: seq<TsModifier>, name: string, base: string, members: seq<ClassElement>)
    /** `export class <name> extends importClass<typeof <name>Class>('<classname>'<options>) { members }` */
    | ExportClass(name: string, classname: string, importOptions: Option<GeneratorOptions>, members: seq<ClassElement>)
    | ExportDefault(name: string)
    | InterfaceDecl(name: string, signatures: seq<MethodSignature>)
    /** `export function create<Simple>Proxy(methods, opts?): JavaInterfaceProxy<...>` */
    | ProxyFunction(name: string, interfaceName: string, classname: string)

  /** The options as the plain JavaScript object `deepEquals` looks at. */
  function OptionsObject(o: GeneratorOptions): Util.JsValue {
    Util.JsObject(map[
      "asyncSuffix" := Util.JsString(o.asyncSuffix),
      "syncSuffix" := Util.JsString(o.syncSuffix),
      "customInspect" := Util.JsBool(o.customInspect),
      "targetVersion" := match o.targetVersion case Some(v) => Util.JsString(v) case None => Util.JsNull])
  }

  /** Options deep-equal the defaults exactly when every option has its default value. */
  lemma OptionsDeepEqualsDefaults(o: GeneratorOptions)
    ensures Util.DeepEquals(OptionsObject(o), OptionsObject(DefaultOptions)) <==> o == DefaultOptions
  {
    var a := OptionsObject(o);
    var b := OptionsObject(DefaultOptions);
    if Util.DeepEquals(a, b) {
      assert a.fields["asyncSuffix"] == Util.Get(b.fields, "asyncSuffix");
      assert a.fields["syncSuffix"] == Util.Get(b.fields, "syncSuffix");
      assert a.fields["customInspect"] == Util.Get(b.fields, "customInspect");
      assert a.fields["targetVersion"] == Util.Get(b.fields, "targetVersion");
    }
  }

  /**
   * `createConstructorDecl`: a public constructor with the given parameters,
   * the section header comment only for the first constructor, and the
   * parameter comment only when there are parameters.
   */
  function CreateConstructorDecl(params: seq<Parameter>, t: seq<string>, i: nat): ClassElement {
    var header := if i == 0 then [LineComment(" ================== Constructors ==================")] else [];
    var paramComment := if |t| > 0 then [BlockComment("*\n" + ParamLines(t) + " ")] else [];
    ConstructorDecl([PublicModifier], params, header + paramComment)
  }

  /**
   * A constructor declaration is public with the given parameters; it has the
   * header only for index 0 and the parameter comment only when there are
   * parameters, the header first.
   */
  lemma ConstructorDeclSpec(params: seq<Parameter>, t: seq<string>, i: nat)
    ensures var c := CreateConstructorDecl(params, t, i);
      c.ConstructorDecl? && c.modifiers == [PublicModifier] && c.parameters == params
      && |c.comments| == (if i == 0 then 1 else 0) + (if |t| > 0 then 1 else 0)
      && (LineComment(" ================== Constructors ==================") in c.comments <==> i == 0)
      && (|t| == 0 ==> forall k :: 0 <= k < |c.comments| ==> c.comments[k].LineComment?)
      && (|t| > 0 ==> c.comments[|c.comments| - 1] == BlockComment("*\n" + ParamLines(t) + " "))
  {
  }

  /**
   * `createInterfaceImports`: the interface type of an imported class, when
   * that class was used as an interface parameter and is not the class
   * being generated.
   */
  function CreateInterfaceImports(interfaceImports: seq<string>, classname: string, importStmt: string): (r: seq<ImportSpecifier>)
    ensures |r| <= 1
    ensures |r| == 1 <==> importStmt in interfaceImports && importStmt != classname
    ensures |r| == 1 ==> r[0].propertyName == Some(GetSimpleName(importStmt) + "Interface")
    ensures |r| == 1 ==> r[0].name == ReplaceAll(importStmt, '.', '_') + "Interface"
  {
    if importStmt in interfaceImports && importStmt != classname then
      [ImportSpecifier(Some(GetSimpleName(importStmt) + "Interface"), ReplaceAll(importStmt, '.', '_') + "Interface")]
    else []
  }

  /** `createClassDecl`: the exported, declared `<simple>Class` holding the class members. */
  function CreateClassDecl(simpleName: string, members: seq<ClassElement>): (r: Statement)
    ensures r.ClassDecl? && r.members == members && r.base == "JavaClass"
    ensures r.modifiers == [ExportModifier, DeclareModifier]
    ensures |r.name| == |simpleName| + 5 && r.name[..|simpleName|] == simpleName
  {
    var name := simpleName + "Class";
    assert name[..|simpleName|] == simpleName;
    ClassDecl([ExportModifier, DeclareModifier], name, "JavaClass", members)
  }

  /**
   * `createExportStatement`: the runtime class followed by its default
   * export. The options literal is passed to `importClass` exactly when the
   * options differ from the defaults, and the class gets a private
   * constructor exactly when it is abstract or an interface.
   */
  function CreateExportStatement(simpleName: string, isAbstractOrInterface: bool, classname: string, options: GeneratorOptions): (r: seq<Statement>)
    ensures |r| == 2 && r[0].ExportClass? && r[1] == ExportDefault(simpleName)
    ensures r[0].name == simpleName && r[0].classname == classname
    ensures r[0].importOptions.Some? <==> options != DefaultOptions
    ensures r[0].importOptions.Some? ==> r[0].importOptions.value == options
    ensures r[0].members == (if isAbstractOrInterface then [PrivateConstructor] else [])
  {
    OptionsDeepEqualsDefaults(options);
    var importOpts := if !Util.DeepEquals(OptionsObject(options), OptionsObject(DefaultOptions)) then Some(options) else None;
    [ExportClass(simpleName, classname, importOpts, if isAbstractOrInterface then [PrivateConstructor] else []),
     ExportDefault(simpleName)]
  }
}
