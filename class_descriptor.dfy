/**
 * The second TypeScript class descriptor. Unlike the first one it keeps the
 * array of imports it is handed and refills that very array, in place,
 * whenever it is empty, so the caller sees the computed imports too.
 */
module ClassDescriptor {
  import opened Wrappers
  import opened Types
  import opened TsAst
  import opened Helpers
  import Readers
  import Descriptor

  /** A mutable array of import names, which a caller and a descriptor may share. */
  class ImportList {
    var items: seq<string>

    constructor(items: seq<string>)
      ensures this.items == items
    {
      this.items := items;
    }
  }

  class Class {
    const name: string
    const simpleName: string
    const isInterface: bool
    const isAbstractOrInterface: bool
    const methods: seq<MethodGroup>
    const fields: seq<JavaField>
    const constructors: seq<JavaConstructor>
    const imports: ImportList

    /** The imports this descriptor's members call for. */
    function ComputedImports(): seq<string> {
      Descriptor.ClassImports(methods, fields, constructors)
    }

    /**
     * The constructor: it keeps the list it is handed and recomputes the
     * imports into it only when that list is empty.
     */
    constructor(name: string, simpleName: string, isInterface: bool, isAbstractOrInterface: bool,
                methods: seq<MethodGroup>, fields: seq<JavaField>, constructors: seq<JavaConstructor>,
                imports: ImportList)
      modifies imports
      ensures this.name == name && this.simpleName == simpleName
      ensures this.isInterface == isInterface && this.isAbstractOrInterface == isAbstractOrInterface
      ensures this.methods == methods && this.fields == fields && this.constructors == constructors
      ensures this.imports == imports
      ensures old(imports.items) == [] ==> imports.items == Descriptor.ClassImports(methods, fields, constructors)
      ensures old(imports.items) != [] ==> imports.items == old(imports.items)
    {
      this.name := name;
      this.simpleName := simpleName;
      this.isInterface := isInterface;
      this.isAbstractOrInterface := isAbstractOrInterface;
      this.methods := methods;
      this.fields := fields;
      this.constructors := constructors;
      this.imports := imports;
      new;
      if |imports.items| == 0 {
        UpdateImports();
      }
    }

    /** `updateImports`: empty the shared list, then push the computed imports into it. */
    method UpdateImports()
      modifies imports
      ensures imports.items == ComputedImports()
    {
      imports.items := [];
      var collected := Descriptor.CollectTypes(methods, fields, constructors);
      imports.items := imports.items + Descriptor.ImportPipeline(collected);
    }

    /** The descriptor's members as a plain record. */
    function Record(): JavaClass
      reads imports
    {
      JavaClass(name, simpleName, isInterface, isAbstractOrInterface, methods, fields, constructors, imports.items)
    }

    /** `convert`: the same member order and guards as the first descriptor. */
    method Convert(options: GeneratorOptions, isInterfaceOracle: string -> bool) returns (r: seq<Option<Statement>>)
      ensures r == Descriptor.ConvertedSource(Record(), options, isInterfaceOracle)
    {
      r := Descriptor.Convert(Record(), options, isInterfaceOracle);
    }
  }

  /** What `fromJavaClass` is given: a descriptor, or a plain record whose imports array it may share. */
  datatype ClassSource =
    | Instance(cls: Class)
    | Plain(name: string, simpleName: string, isInterface: bool, isAbstractOrInterface: bool,
            methods: seq<MethodGroup>, fields: seq<JavaField>, constructors: seq<JavaConstructor>,
            imports: ImportList)

  /**
   * `fromJavaClass`: a descriptor is returned itself; a record becomes a
   * descriptor that shares the record's imports array, so an empty array in
   * the record is filled in place with the computed imports.
   */
  method FromJavaClass(src: ClassSource) returns (c: Class)
    modifies if src.Plain? then {src.imports} else {}
    ensures src.Instance? ==> c == src.cls
    ensures src.Plain? ==>
      && fresh(c) && c.imports == src.imports
      && c.name == src.name && c.simpleName == src.simpleName
      && c.isInterface == src.isInterface && c.isAbstractOrInterface == src.isAbstractOrInterface
      && c.methods == src.methods && c.fields == src.fields && c.constructors == src.constructors
      && (old(src.imports.items) == [] ==> src.imports.items == Descriptor.ClassImports(src.methods, src.fields, src.constructors))
      && (old(src.imports.items) != [] ==> src.imports.items == old(src.imports.items))
  {
    if src.Instance? {
      return src.cls;
    }
    c := new Class(src.name, src.simpleName, src.isInterface, src.isAbstractOrInterface,
                   src.methods, src.fields, src.constructors, src.imports);
  }

  /** `readClass`: a fresh empty imports array, which the constructor then fills. */
  method ReadClass(name: string, cls: ReflectedClass) returns (c: Class)
    ensures fresh(c) && fresh(c.imports)
    ensures c.Record() == Descriptor.ClassRead(name, cls)
  {
    var simpleName := name[LastIndexOf(name, '.') + 1..];
    var isAbstractOrInterface := cls.isInterface || cls.isAbstract;
    var read := Readers.ReadMethods(cls.methods);
    var methods := Descriptor.GroupMethods(read);
    var fields := Readers.ReadFields(cls.fields);
    var ctors := Readers.ReadConstructors(cls.constructors);
    var imports := new ImportList([]);
    c := new Class(name, simpleName, cls.isInterface, isAbstractOrInterface, methods, fields, ctors, imports);
  }
}
