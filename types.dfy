/**
 * The class descriptors the generator passes between reading and
 * conversion, and the reflected data they are read from.
 */
module Types {
  import Seqs

  /** The modifiers recorded on fields and methods. */
  datatype Modifier = Static | Final | Default

  /** A method: its name, modifiers, parameter type names and return type name. */
  datatype JavaMethod = JavaMethod(name: string, modifiers: seq<Modifier>, parameters: seq<string>, returnType: string)

  /** A field: its type name, name and modifiers. */
  datatype JavaField = JavaField(typeName: string, name: string, modifiers: seq<Modifier>)

  /** A constructor: its parameter type names. */
  datatype JavaConstructor = JavaConstructor(parameters: seq<string>)

  /**
   * One entry of the `methods` record: a method name and its overloads.
   * A record's keys are kept in insertion order, so the record is a list of groups.
   */
  datatype MethodGroup = MethodGroup(name: string, overloads: seq<JavaMethod>)

  /** A class descriptor. */
  datatype JavaClass = JavaClass(
    name: string,
    simpleName: string,
    isInterface: bool,
    isAbstractOrInterface: bool,
    methods: seq<MethodGroup>,
    fields: seq<JavaField>,
    constructors: seq<JavaConstructor>,
    imports: seq<string>)

  /** The result of resolving a set of root classes. */
  datatype JavaDefinitions = JavaDefinitions(root: seq<string>, classes: seq<JavaClass>)

  // ---------------------------------------------------------------------
  // Reflected input: what the Java reflection calls report
  // ---------------------------------------------------------------------

  datatype ReflectedField = ReflectedField(name: string, typeName: string, isPublic: bool, isStatic: bool, isFinal: bool)

  datatype ReflectedMethod = ReflectedMethod(
    name: string,
    isPublic: bool,
    isStatic: bool,
    isFinal: bool,
    isDefault: bool,
    parameterTypes: seq<string>,
    returnType: string)

  datatype ReflectedConstructor = ReflectedConstructor(isPublic: bool, parameterTypes: seq<string>)

  /** A class as reflection reports it. */
  datatype ReflectedClass = ReflectedClass(
    isInterface: bool,
    isAbstract: bool,
    methods: seq<ReflectedMethod>,
    fields: seq<ReflectedField>,
    constructors: seq<ReflectedConstructor>)

  /** All method overloads of a record, group after group. */
  function AllOverloads(groups: seq<MethodGroup>): seq<JavaMethod> {
    if |groups| == 0 then [] else groups[0].overloads + AllOverloads(groups[1..])
  }

  /** The key of one record entry. */
  function GroupName(g: MethodGroup): string {
    g.name
  }

  /** The keys of a record, in order. */
  function GroupNames(groups: seq<MethodGroup>): (r: seq<string>)
    ensures |r| == |groups|
    ensures forall i :: 0 <= i < |groups| ==> r[i] == groups[i].name
  {
    Seqs.Map(GroupName, groups)
  }
}
