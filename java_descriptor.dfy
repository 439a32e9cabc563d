/**
 * The Java class descriptors. `Class` computes its imports with the same
 * pipeline as the TypeScript descriptors; `ClassDeclaration` also drops
 * primitive return and field types (before array brackets are stripped) and
 * the class's own name.
 */
module JavaDescriptor {
  import opened Types
  import opened Helpers
  import opened Seqs
  import Util
  import JavaReaders
  import Readers
  import Descriptor

  // ---------------------------------------------------------------------
  // `Class.calculateImports`
  // ---------------------------------------------------------------------

  /** The stream of `Class.calculateImports`: brackets stripped, `Object`/`void`/`Void` dropped, primitives boxed, `distinct`. */
  function ClassJavaImports(methods: seq<MethodGroup>, fields: seq<JavaField>, ctors: seq<JavaConstructor>): seq<string> {
    var collected := Descriptor.CollectedTypes(methods, fields, ctors);
    Util.FilterUnique(Filtered(NotObjectOrVoid, PrimitiveToClassType, Map(Descriptor.NoArrays, collected)))
  }

  /** Filters that agree everywhere filter alike. */
  lemma {:induction false} FilteredCongruent<T, U>(k1: T -> bool, k2: T -> bool, f1: T -> U, f2: T -> U, s: seq<T>)
    requires forall x :: k1(x) == k2(x) && f1(x) == f2(x)
    ensures Filtered(k1, f1, s) == Filtered(k2, f2, s)
    decreases |s|
  {
    if |s| > 0 {
      FilteredCongruent(k1, k2, f1, f2, s[..|s| - 1]);
    }
  }

  /** The Java filter is the TypeScript one. */
  lemma NotObjectOrVoidIsNoBasicTypes(t: string)
    ensures NotObjectOrVoid(t) == Descriptor.NoBasicTypes(t)
  {
  }

  /** `Class` imports exactly what the TypeScript descriptors import, in the same order. */
  lemma ClassJavaImportsAgree(methods: seq<MethodGroup>, fields: seq<JavaField>, ctors: seq<JavaConstructor>)
    ensures ClassJavaImports(methods, fields, ctors) == Descriptor.ClassImports(methods, fields, ctors)
  {
    forall x: string ensures NotObjectOrVoid(x) == Descriptor.NoBasicTypes(x) && PrimitiveToClassType(x) == Descriptor.ToObjects(x) {
      NotObjectOrVoidIsNoBasicTypes(x);
    }
    var stripped := Map(Descriptor.NoArrays, Descriptor.CollectedTypes(methods, fields, ctors));
    FilteredCongruent(NotObjectOrVoid, Descriptor.NoBasicTypes, PrimitiveToClassType, Descriptor.ToObjects, stripped);
  }

  // ---------------------------------------------------------------------
  // `ClassDeclaration.calculateImports`
  // ---------------------------------------------------------------------

  /** For every method in turn, its parameter types and then its return type unless that is primitive. */
  function DeclMethodTypes(ms: seq<JavaMethod>): seq<string> {
    if |ms| == 0 then []
    else
      var m := ms[|ms| - 1];
      DeclMethodTypes(ms[..|ms| - 1]) + m.parameters + (if NonPrimitive(m.returnType) then [m.returnType] else [])
  }

  /** The field types that are not primitive, in order. */
  function DeclFieldTypes(fs: seq<JavaField>): seq<string> {
    if |fs| == 0 then []
    else
      var f := fs[|fs| - 1];
      DeclFieldTypes(fs[..|fs| - 1]) + (if NonPrimitive(f.typeName) then [f.typeName] else [])
  }

  /** The names the stream of `ClassDeclaration.calculateImports` starts from. */
  function DeclCollectedTypes(methods: seq<MethodGroup>, fields: seq<JavaField>, ctors: seq<JavaConstructor>): seq<string> {
    DeclMethodTypes(AllOverloads(methods)) + DeclFieldTypes(fields) + Descriptor.ConstructorTypes(ctors)
  }

  function Identity(x: string): string {
    x
  }

  /** The filter that keeps every name but the class's own. */
  function Other(name: string): string -> bool {
    (x: string) => x != name
  }

  /** The stream of `ClassDeclaration.calculateImports`: the `Class` stream with the class's own name filtered out before `distinct`. */
  function DeclImports(name: string, methods: seq<MethodGroup>, fields: seq<JavaField>, ctors: seq<JavaConstructor>): seq<string> {
    var boxed := Filtered(NotObjectOrVoid, PrimitiveToClassType, Map(Descriptor.NoArrays, DeclCollectedTypes(methods, fields, ctors)));
    Util.FilterUnique(Filtered(Other(name), Identity, boxed))
  }

  /** Every name the declaration stream starts from is one the `Class` stream starts from too. */
  lemma {:induction false} DeclMethodTypesWithin(ms: seq<JavaMethod>)
    ensures forall t :: t in DeclMethodTypes(ms) ==> t in Descriptor.MethodTypes(ms)
  {
    if |ms| > 0 {
      DeclMethodTypesWithin(ms[..|ms| - 1]);
    }
  }

  lemma {:induction false} DeclFieldTypesWithin(fs: seq<JavaField>)
    ensures forall t :: t in DeclFieldTypes(fs) ==> t in Descriptor.FieldTypes(fs)
  {
    if |fs| > 0 {
      DeclFieldTypesWithin(fs[..|fs| - 1]);
    }
  }

  lemma DeclCollectedWithin(methods: seq<MethodGroup>, fields: seq<JavaField>, ctors: seq<JavaConstructor>)
    ensures forall t :: t in DeclCollectedTypes(methods, fields, ctors) ==> t in Descriptor.CollectedTypes(methods, fields, ctors)
  {
    DeclMethodTypesWithin(AllOverloads(methods));
    DeclFieldTypesWithin(fields);
  }

  /** The declaration's imports are the boxed bracket-free forms of its starting names that are not `Object`/`void`/`Void` and not the class itself. */
  lemma DeclImportsMembers(name: string, methods: seq<MethodGroup>, fields: seq<JavaField>, ctors: seq<JavaConstructor>)
    ensures forall x :: x in DeclImports(name, methods, fields, ctors) <==>
      x != name && exists t :: t in DeclCollectedTypes(methods, fields, ctors) && NotObjectOrVoid(Descriptor.NoArrays(t))
                               && x == PrimitiveToClassType(Descriptor.NoArrays(t))
  {
    SelfFilteredSpec(NotObjectOrVoid, PrimitiveToClassType, Descriptor.NoArrays, Other(name), Identity, DeclCollectedTypes(methods, fields, ctors));
  }

  /** The shape of the declaration stream for any stages: the kept images other than the excluded value. */
  lemma SelfFilteredSpec<T, U, V>(keep: U -> bool, f: U -> V, g: T -> U, other: V -> bool, id: V -> V, s: seq<T>)
    requires forall v :: id(v) == v
    ensures forall y :: y in Util.FilterUnique(Filtered(other, id, Filtered(keep, f, Map(g, s)))) <==>
      other(y) && exists x :: x in s && keep(g(x)) && y == f(g(x))
  {
    var boxed := Filtered(keep, f, Map(g, s));
    Util.FilterUniqueSpec(Filtered(other, id, boxed));
    FilteredSpec(other, id, boxed);
    FilteredMapSpec(keep, f, g, s);
  }

  /**
   * The declaration imports each name once, never the class itself, and
   * nothing primitive, bracketed, `Object`, `void` or `Void`; and everything
   * it imports, the `Class` descriptor of the same members imports too.
   */
  lemma DeclImportsSpec(name: string, methods: seq<MethodGroup>, fields: seq<JavaField>, ctors: seq<JavaConstructor>)
    ensures var r := DeclImports(name, methods, fields, ctors);
      && Util.Distinct(r)
      && name !in r
      && (forall x :: x in r ==> Descriptor.Importable(x))
      && (forall x :: x in r ==> x in ClassJavaImports(methods, fields, ctors))
  {
    var r := DeclImports(name, methods, fields, ctors);
    var boxed := Filtered(NotObjectOrVoid, PrimitiveToClassType, Map(Descriptor.NoArrays, DeclCollectedTypes(methods, fields, ctors)));
    Util.FilterUniqueSpec(Filtered(Other(name), Identity, boxed));
    DeclImportsMembers(name, methods, fields, ctors);
    forall x | x in r ensures Descriptor.Importable(x) && x in ClassJavaImports(methods, fields, ctors) {
      DeclImportWithin(name, methods, fields, ctors, x);
    }
  }

  /** One declaration import is importable and imported by `Class` too. */
  lemma DeclImportWithin(name: string, methods: seq<MethodGroup>, fields: seq<JavaField>, ctors: seq<JavaConstructor>, x: string)
    requires x in DeclImports(name, methods, fields, ctors)
    ensures Descriptor.Importable(x) && x in ClassJavaImports(methods, fields, ctors)
  {
    DeclImportsMembers(name, methods, fields, ctors);
    var t :| t in DeclCollectedTypes(methods, fields, ctors) && NotObjectOrVoid(Descriptor.NoArrays(t))
             && x == PrimitiveToClassType(Descriptor.NoArrays(t));
    DeclCollectedWithin(methods, fields, ctors);
    NotObjectOrVoidIsNoBasicTypes(Descriptor.NoArrays(t));
    Descriptor.BoxedIsImportable(Descriptor.NoArrays(t));
    ClassJavaImportsAgree(methods, fields, ctors);
    Descriptor.ImportPipelineMembers(Descriptor.CollectedTypes(methods, fields, ctors));
  }

  /**
   * The two Java descriptors differ on primitive return types: for a class
   * whose one method returns `int`, `Class` imports `java.lang.Integer` and
   * `ClassDeclaration` imports nothing.
   */
  lemma PrimitiveReturnImports()
    ensures var groups := [MethodGroup("size", [JavaMethod("size", [], [], "int")])];
      && ClassJavaImports(groups, [], []) == ["java.lang.Integer"]
      && DeclImports("a.List", groups, [], []) == []
  {
    var groups := [MethodGroup("size", [JavaMethod("size", [], [], "int")])];
    assert AllOverloads(groups) == [JavaMethod("size", [], [], "int")];
    assert Descriptor.MethodTypes([JavaMethod("size", [], [], "int")]) == ["int"];
    assert Descriptor.CollectedTypes(groups, [], []) == ["int"];
    assert DeclCollectedTypes(groups, [], []) == [];
    IntStream();
  }

  /** The `int` stream through the `Class` stages. */
  lemma IntStream()
    ensures Util.FilterUnique(Filtered(NotObjectOrVoid, PrimitiveToClassType, Map(Descriptor.NoArrays, ["int"]))) == ["java.lang.Integer"]
  {
    assert Descriptor.NoArrays("int") == "int";
    assert Map(Descriptor.NoArrays, ["int"]) == ["int"];
    IntIsBoxed();
    assert Filtered(NotObjectOrVoid, PrimitiveToClassType, ["int"]) == ["java.lang.Integer"];
    Util.FilterUniqueOfDistinct(["java.lang.Integer"]);
  }

  lemma IntIsBoxed()
    ensures PrimitiveToClassType("int") == "java.lang.Integer"
  {
  }

  // ---------------------------------------------------------------------
  // The descriptors
  // ---------------------------------------------------------------------

  /** The `ClassDeclaration` constructor: every field as given, and the imports computed. */
  function ClassDeclarationOf(name: string, simpleName: string, isInterface: bool, isAbstractOrInterface: bool,
                              methods: seq<MethodGroup>, fields: seq<JavaField>, ctors: seq<JavaConstructor>): JavaClass {
    JavaClass(name, simpleName, isInterface, isAbstractOrInterface, methods, fields, ctors, DeclImports(name, methods, fields, ctors))
  }

  /** The `Class` constructor: every field as given, and the imports computed. */
  function ClassOf(name: string, simpleName: string, isInterface: bool, isAbstractOrInterface: bool,
                   methods: seq<MethodGroup>, fields: seq<JavaField>, ctors: seq<JavaConstructor>): JavaClass {
    JavaClass(name, simpleName, isInterface, isAbstractOrInterface, methods, fields, ctors, ClassJavaImports(methods, fields, ctors))
  }

  /** A list that names every key of a map exactly once: the iteration order of a `HashMap`. */
  ghost predicate EnumeratesKeys<T>(order: seq<string>, m: map<string, T>) {
    Util.Distinct(order) && forall k :: k in order <==> k in m
  }

  /** The entries of the method map, as groups in the map's iteration order. */
  function GroupsInOrder(m: map<string, seq<JavaMethod>>, order: seq<string>): (r: seq<MethodGroup>)
    requires forall k :: k in order ==> k in m
    ensures |r| == |order|
    ensures forall i :: 0 <= i < |order| ==> r[i] == MethodGroup(order[i], m[order[i]])
  {
    seq(|order|, i requires 0 <= i < |order| => MethodGroup(order[i], m[order[i]]))
  }

  /** The values of the field map in its iteration order. */
  function FieldsInOrder(m: map<string, JavaField>, order: seq<string>): (r: seq<JavaField>)
    requires forall k :: k in order ==> k in m
    ensures |r| == |order|
    ensures forall i :: 0 <= i < |order| ==> r[i] == m[order[i]]
  {
    seq(|order|, i requires 0 <= i < |order| => m[order[i]])
  }

  /** The members `readClass` reads, given the iteration orders of the method and field maps. */
  function MembersRead(cls: ReflectedClass, methodOrder: seq<string>, fieldOrder: seq<string>): (seq<MethodGroup>, seq<JavaField>, seq<JavaConstructor>)
    requires EnumeratesKeys(methodOrder, JavaReaders.GroupsByName(JavaReaders.PublicClassMethods(cls.methods)))
    requires EnumeratesKeys(fieldOrder, JavaReaders.LastFields(cls.fields))
  {
    (GroupsInOrder(JavaReaders.GroupsByName(JavaReaders.PublicClassMethods(cls.methods)), methodOrder),
     FieldsInOrder(JavaReaders.LastFields(cls.fields), fieldOrder),
     Readers.ConstructorsRead(cls.constructors))
  }

  /** The declaration `ClassDeclaration.readClass` builds. */
  function DeclarationRead(name: string, cls: ReflectedClass, methodOrder: seq<string>, fieldOrder: seq<string>): JavaClass
    requires EnumeratesKeys(methodOrder, JavaReaders.GroupsByName(JavaReaders.PublicClassMethods(cls.methods)))
    requires EnumeratesKeys(fieldOrder, JavaReaders.LastFields(cls.fields))
  {
    var read := MembersRead(cls, methodOrder, fieldOrder);
    ClassDeclarationOf(name, GetSimpleName(name), cls.isInterface, cls.isInterface || cls.isAbstract, read.0, read.1, read.2)
  }

  /** The descriptor `Class.readClass` builds. */
  function JavaClassRead(name: string, cls: ReflectedClass, methodOrder: seq<string>, fieldOrder: seq<string>): JavaClass
    requires EnumeratesKeys(methodOrder, JavaReaders.GroupsByName(JavaReaders.PublicClassMethods(cls.methods)))
    requires EnumeratesKeys(fieldOrder, JavaReaders.LastFields(cls.fields))
  {
    var read := MembersRead(cls, methodOrder, fieldOrder);
    ClassOf(name, GetSimpleName(name), cls.isInterface, cls.isInterface || cls.isAbstract, read.0, read.1, read.2)
  }

  /**
   * A declaration read from reflection is named after the text behind the
   * last dot, is abstract whenever it is an interface, and never imports
   * itself.
   */
  lemma DeclarationReadSpec(name: string, cls: ReflectedClass, methodOrder: seq<string>, fieldOrder: seq<string>)
    requires EnumeratesKeys(methodOrder, JavaReaders.GroupsByName(JavaReaders.PublicClassMethods(cls.methods)))
    requires EnumeratesKeys(fieldOrder, JavaReaders.LastFields(cls.fields))
    ensures var c := DeclarationRead(name, cls, methodOrder, fieldOrder);
      && '.' !in c.simpleName && name[|name| - |c.simpleName|..] == c.simpleName
      && (c.isInterface ==> c.isAbstractOrInterface)
      && (c.isAbstractOrInterface <==> cls.isInterface || cls.isAbstract)
      && name !in c.imports
  {
    var (methods, fields, ctors) := MembersRead(cls, methodOrder, fieldOrder);
    DeclImportsSpec(name, methods, fields, ctors);
  }

  /**
   * The members read: one group per public method name, in the map's
   * iteration order, holding that name's public overloads in reflection
   * order; one field per public field name; the public constructors.
   */
  lemma MembersReadSpec(cls: ReflectedClass, methodOrder: seq<string>, fieldOrder: seq<string>)
    requires EnumeratesKeys(methodOrder, JavaReaders.GroupsByName(JavaReaders.PublicClassMethods(cls.methods)))
    requires EnumeratesKeys(fieldOrder, JavaReaders.LastFields(cls.fields))
    ensures var (methods, fields, ctors) := MembersRead(cls, methodOrder, fieldOrder);
      && |methods| == |methodOrder|
      && (forall i :: 0 <= i < |methods| ==>
            methods[i].name == methodOrder[i]
            && methods[i].overloads == Readers.WithName(JavaReaders.PublicClassMethods(cls.methods), methodOrder[i]))
      && (forall m :: m in cls.methods && m.isPublic ==> m.name in methodOrder)
      && |fields| == |fieldOrder|
      && (forall i :: 0 <= i < |fields| ==> fields[i].name == fieldOrder[i] && fieldOrder[i] in JavaReaders.PublicNames(cls.fields))
      && ctors == Readers.ConstructorsRead(cls.constructors)
  {
    var pub := JavaReaders.PublicClassMethods(cls.methods);
    JavaReaders.GroupsByNameSpec(pub);
    JavaReaders.LastFieldsKeys(cls.fields);
    JavaReaders.LastFieldsValues(cls.fields);
    forall m | m in cls.methods && m.isPublic ensures m.name in methodOrder {
      FilteredComplete(Readers.IsPublicMethod, JavaReaders.ClassMethodOf, cls.methods, m);
      assert JavaReaders.ClassMethodOf(m) in pub;
    }
  }

  /** `readClass` of both Java descriptors: read the public members through the reflection readers. */
  method ReadMembers(cls: ReflectedClass, methodOrder: seq<string>, fieldOrder: seq<string>)
      returns (methods: seq<MethodGroup>, fields: seq<JavaField>, ctors: seq<JavaConstructor>)
    requires EnumeratesKeys(methodOrder, JavaReaders.GroupsByName(JavaReaders.PublicClassMethods(cls.methods)))
    requires EnumeratesKeys(fieldOrder, JavaReaders.LastFields(cls.fields))
    ensures methods == MembersRead(cls, methodOrder, fieldOrder).0
    ensures fields == MembersRead(cls, methodOrder, fieldOrder).1
    ensures ctors == MembersRead(cls, methodOrder, fieldOrder).2
  {
    var read := JavaReaders.ReadClassMethods(cls.methods);
    var converted := ConvertMap(read);
    assert converted == read;
    methods := GroupsInOrder(converted, methodOrder);
    var fieldMap := JavaReaders.ReadClassFields(cls.fields);
    fields := FieldsInOrder(fieldMap, fieldOrder);
    ctors := Readers.ReadConstructors(cls.constructors);
  }

  /** `ClassDeclaration.readClass`. */
  method ReadClassDeclaration(name: string, cls: ReflectedClass, methodOrder: seq<string>, fieldOrder: seq<string>) returns (c: JavaClass)
    requires EnumeratesKeys(methodOrder, JavaReaders.GroupsByName(JavaReaders.PublicClassMethods(cls.methods)))
    requires EnumeratesKeys(fieldOrder, JavaReaders.LastFields(cls.fields))
    ensures c == DeclarationRead(name, cls, methodOrder, fieldOrder)
  {
    var simpleName := GetSimpleName(name);
    var isAbstractOrInterface := cls.isInterface || cls.isAbstract;
    var methods, fields, ctors := ReadMembers(cls, methodOrder, fieldOrder);
    c := ClassDeclarationOf(name, simpleName, cls.isInterface, isAbstractOrInterface, methods, fields, ctors);
  }

  /** `Class.readClass`: the same members, with the imports of `Class`. */
  method ReadJavaClass(name: string, cls: ReflectedClass, methodOrder: seq<string>, fieldOrder: seq<string>) returns (c: JavaClass)
    requires EnumeratesKeys(methodOrder, JavaReaders.GroupsByName(JavaReaders.PublicClassMethods(cls.methods)))
    requires EnumeratesKeys(fieldOrder, JavaReaders.LastFields(cls.fields))
    ensures c == JavaClassRead(name, cls, methodOrder, fieldOrder)
  {
    var simpleName := GetSimpleName(name);
    var isAbstractOrInterface := cls.isInterface || cls.isAbstract;
    var methods, fields, ctors := ReadMembers(cls, methodOrder, fieldOrder);
    c := ClassOf(name, simpleName, cls.isInterface, isAbstractOrInterface, methods, fields, ctors);
  }
}
