# java-ts-definition-generator, modelled in Dafny

This project models the core of the java-ts-definition-generator package. The
package turns reflected Java class data into TypeScript declaration files.
The model covers three parts of it:

- **Class-graph resolution.** Starting from root class names, the package
  computes every class reachable through import edges. The model covers five
  versions of this worklist:
  - the current TypeScript `ClassConverter` (a LIFO queue that checks both the
    queue and the resolved list), with the `JavaDefinitions` drivers;
  - the older `classConverter.ts`, which checks only the resolved list, with
    the `definitions.ts` drivers;
  - the Java FIFO worklist in `Definitions.createSyntaxTree`;
  - the legacy recursive `generate` of `TypescriptDefinitionGenerator`.

  One generic semantics (`Worklist`) is written as functions. Each version's
  imperative loop is proved equal to that semantics under its own policy. The
  lemmas cover termination, closure, "resolved only grows", and "no class is
  resolved twice" for the deduplicating versions.
- **Class descriptor normalisation.** This covers the import sets computed by
  `JavaClass.ts`, `class.ts`, `Class.java` and `ClassDeclaration.java`, and the
  readers of fields, methods and constructors in TypeScript and Java.
  `field.ts`, `method.ts` and `constructor.ts` follow the same rules as
  `JavaField.ts`, `JavaMethod.ts` and `JavaConstructor.ts`, so each pair is
  modelled once (`Readers`).
- **Type mapping and declaration emission.** This is the `Converter` class
  (type mapping with its flags and import lists, and the member, interface and
  import emitters), the `ClassMembers` lists, and the `tsHelpers.ts` factories.
  It also covers the helpers `getImportPath`, `primitiveToClassType`,
  `unique`, `mergeObjects` and `deepEquals`, and the Java `Either` and
  `Helpers`.

Reflection is modelled as data:
- a loaded class is a `ReflectedClass` record;
- `importClassAsync` followed by `readClass` is a map from class name to
  descriptor, and a missing name fails with `ClassNotFound`;
- `isInterfaceSync` is an oracle `string -> bool`.

TypeScript nodes are a small datatype. A generated file is its list of
top-level statements, where `None` stands for the blank line that `null`
prints.

## Model

| member | source | states |
|---|---|---|
| Util.IndexOfValue | src/util/util.ts:35 | `indexOf`: the first index holding the value, and -1 exactly when the value is absent |
| Util.UniqueIsFirstOccurrence | src/util/util.ts:34-36 | the `unique` callback keeps position i exactly when no earlier position holds the same value |
| Util.FilterUniqueSnoc | src/util/util.ts:34-36 | appending a value to the input appends it to the result of `filter(unique)` exactly when it is new |
| Util.FilterUniqueSpec | src/util/util.ts:34-36 | `filter(unique)` keeps exactly the values of the input, without duplicates, never more of them, in the order of their first occurrences |
| Util.FilterUniqueOfDistinct | src/util/util.ts:34-36 | on a list without duplicates `filter(unique)` changes nothing |
| Util.FilterUniqueIdempotent | src/util/util.ts:34-36 | `filter(unique)` is idempotent |
| Util.MergeObjects | src/util/util.ts:16-32 | the merge has exactly the keys of the defaults (keys only the caller has are dropped); each value is the caller's when it is truthy and the default otherwise |
| Util.MergeObjectsIdempotent | src/util/util.ts:16-32 | merging a merged object again, or merging the defaults, changes nothing |
| Util.MergeObjectsEmptySuffix | src/util/util.ts:23 | an empty `syncSuffix` is falsy, so the default `Sync` survives the merge |
| Util.DeepEqualsReflexive | src/util/util.ts:1-14 | every object deep-equals itself |
| Util.DeepEqualsIgnoresExtraKeys | src/util/util.ts:2 | keys that only the second object has never change the answer |
| Util.DeepEqualsAsymmetric | src/util/util.ts:1-14 | the comparison is not symmetric: `{}` deep-equals `{x: null}` but not conversely |
| Either.Left | java-src/src/main/java/com/github/markusjx/util/Either.java:14-16 | `left(a)` holds `a` on the left side and nothing on the right |
| Either.Right | java-src/src/main/java/com/github/markusjx/util/Either.java:18-20 | `right(b)` holds `b` on the right side and nothing on the left |
| Either.GetLeft | java-src/src/main/java/com/github/markusjx/util/Either.java:30-32 | `getLeft` succeeds exactly on a left value and returns it; on a right value it throws `NoSuchElementException` |
| Either.GetRight | java-src/src/main/java/com/github/markusjx/util/Either.java:34-36 | `getRight` succeeds exactly on a right value and returns it; on a left value it throws `NoSuchElementException` |
| Either.AcceptLeftIfPresent | java-src/src/main/java/com/github/markusjx/util/Either.java:38-40 | the consumer is called at most once, and once exactly when the value is left, with that value |
| Either.AcceptRightIfPresent | java-src/src/main/java/com/github/markusjx/util/Either.java:42-44 | the consumer is called at most once, and once exactly when the value is right, with that value |
| Either.FactoriesSpec | java-src/src/main/java/com/github/markusjx/util/Either.java:14-44 | `left(x)` is left and not right, `getLeft` gives x, `getRight` throws, only the left consumer runs; `right(y)` is the mirror image |
| Either.ConstructedIsLeftOrRight | java-src/src/main/java/com/github/markusjx/util/Either.java:9-20 | a value with exactly one side present is what one of the two factories builds |
| Either.ExactlyOneConsumerCalled | java-src/src/main/java/com/github/markusjx/util/Either.java:38-44 | of such a value the two consumers together receive exactly one value |
| Helpers.PrimitiveToClassType | src/conversion/helpers.ts:14-35 | each of the eight primitive names becomes a different, non-primitive `java.lang.` wrapper name; every other name comes back unchanged (the Java helper at java-src/src/main/java/com/github/markusjx/util/Helpers.java:9-21 has the same table) |
| Helpers.PrimitiveToClassTypeIdempotent | src/conversion/helpers.ts:1-35 | boxing is idempotent, and boxing changes a name exactly when `isPrimitive` holds of it |
| Helpers.NonPrimitiveIsNotPrimitive | java-src/src/main/java/com/github/markusjx/util/Helpers.java:23-29 | the Java `nonPrimitive` is false exactly for the eight primitive names, i.e. it is the negation of `isPrimitive` |
| Helpers.LastIndexOf | src/conversion/helpers.ts:75 | `lastIndexOf` of a character: -1 exactly when absent, otherwise a position holding it with none after it |
| Helpers.IndexOf | src/conversion/helpers.ts:53-54 | `indexOf` of a character: -1 exactly when absent, otherwise a position holding it with none before it |
| Helpers.GetSimpleName | src/conversion/helpers.ts:75 | the simple name is a dot-free suffix of the name, preceded by a dot when the name has one, and the whole name when it has none |
| Helpers.ReplaceAll | src/conversion/converter.ts:470 | `replaceAll` of one character: same length, every occurrence replaced and every other character kept |
| Helpers.RemoveAll | src/ast/JavaClass.ts:46 | removing a character leaves none of it, adds nothing, never lengthens, and changes nothing when the character is absent |
| Helpers.Split | src/conversion/helpers.ts:53-54 | `split` on a character gives at least one part and no part contains the separator |
| Helpers.JoinSplit | src/conversion/helpers.ts:53-54 | joining the parts of a split with the same separator gives the text back |
| Helpers.JoinBlanks | src/conversion/helpers.ts:67-70 | joining k empty strings with `../` gives k-1 copies of `../` (the `map(() => '')` trick) |
| Helpers.CommonPrefixFrom | src/conversion/helpers.ts:56-63 | the length of the common leading run of segments: every segment before it agrees, and it stops at the first mismatch or where the target runs out |
| Helpers.NonEmpty | src/conversion/helpers.ts:68 | `filter((e) => !!e)` keeps only non-empty segments of the input |
| Helpers.PresentNullPrefix | src/conversion/helpers.ts:65-71 | what the truthiness filter keeps of a split whose common prefix was nulled is the non-empty leftover segments |
| Helpers.GetImportPath | src/conversion/helpers.ts:52-73 | the in-place nulling loop and the filter/join compute exactly the relative path `ImportPath`: `./`, one `../` per leftover segment of the importer but its file, then the leftover target segments joined by `/` |
| Helpers.NullCommonPrefix | src/conversion/helpers.ts:56-63 | the loop stops at the common-prefix length and leaves exactly the slots before it nulled in both arrays |
| Helpers.ImportPathOfNulled | src/conversion/helpers.ts:65-71 | the path read off the two nulled arrays is the relative path defined on the leftover segments |
| Helpers.ImportPathIsRelative | src/conversion/helpers.ts:65-66 | every import path starts with `./` |
| Helpers.ImportPathOfSelf | src/conversion/helpers.ts:56-72 | a class imported from itself has no leftover segments and gets `./` |
| Helpers.ImportPathIntoSubpackage | src/conversion/helpers.ts:52-73 | `java.util.Iterator` importing `java.util.function.Consumer` (any names of that shape) gets `./function/Consumer` |
| Helpers.ImportPathIntoSibling | src/conversion/helpers.ts:52-73 | `java.util.Iterator` importing `java.lang.Object` (any names of that shape) gets `./../lang/Object` |
| Helpers.ConvertMap | java-src/src/main/java/com/github/markusjx/util/Helpers.java:31-40 | `convertMap` keeps the same key set, and every key maps to the same elements in the same order |
| Readers.FieldModifiersSpec | src/ast/JavaField.ts:41-46 | a field's modifier list holds `static` exactly when static and `final` exactly when final, never `default`, and `static` comes first (src/ast/field.ts:41-46 is the same code) |
| Readers.MethodModifiersSpec | src/ast/JavaMethod.ts:30-37 | a method's modifier list holds `default` exactly when default and `static` exactly when static, never `final`, and `default` comes first (src/ast/method.ts:30-37 is the same code) |
| Readers.FirstsOfNameMembers | src/ast/JavaField.ts:5-14 | the `onlyUnique` filter keeps exactly the fields that come first among the fields of their name, never more than it reads |
| Readers.FirstsOfNameDistinct | src/ast/JavaField.ts:5-14 | no two fields kept by `onlyUnique` share a name |
| Readers.OnlyUniqueSpec | src/ast/JavaField.ts:24 | `filter(onlyUnique)` keeps one field per name, the first one, nothing that was not read, and every name read is still represented |
| Readers.FirstNameIndex | src/ast/JavaField.ts:11 | `findIndex` by name: the first field carrying the same name, never after the field itself |
| Readers.PublicFieldsDistinct | src/ast/JavaField.ts:30-34 | skipping the non-public fields keeps the names pairwise distinct |
| Readers.FieldsReadSpec | src/ast/JavaField.ts:23-52 | `readFields` returns no name twice, only descriptors of public fields, and every public field that is first of its name; never more entries than fields read (src/ast/field.ts:23-52 is the same code) |
| Readers.ReadFieldModifiers | src/ast/JavaField.ts:36-46 | the pushes collect exactly the modifier list of `FieldModifiersSpec` |
| Readers.ReadFields | src/ast/JavaField.ts:23-52 | the loop with its `continue` returns exactly the public, first-of-name fields as descriptors, in input order |
| Readers.MethodsReadSpec | src/ast/JavaMethod.ts:13-52 | `readMethods` keeps one descriptor per public method, overloads included, drops the others, and keeps all of them in input order when all are public (src/ast/method.ts:13-52 is the same code) |
| Readers.ReadMethodModifiers | src/ast/JavaMethod.ts:30-37 | the pushes collect exactly the modifier list of `MethodModifiersSpec` |
| Readers.ReadMethods | src/ast/JavaMethod.ts:13-52 | the loop returns exactly the public methods as descriptors (name, modifiers, parameter type names in order, return type name), in input order |
| Readers.ConstructorsReadSpec | src/ast/JavaConstructor.ts:8-31 | one record per public constructor holding its parameter type names in declared order, nothing else, never more records than constructors, none when none is public (src/ast/constructor.ts:8-31 is the same code) |
| Readers.ReadConstructors | src/ast/JavaConstructor.ts:8-31 | the loop returns exactly the public constructors' parameter lists, in input order |
| Readers.WithName | src/conversion/helpers.ts:41-47 | the array a record holds under a name: exactly the methods of that name |
| Readers.WithNameSnoc | src/conversion/helpers.ts:42-46 | one more method grows the array under its own name by it and leaves the others |
| Readers.GroupedKeys | src/conversion/helpers.ts:37-50 | the record `toObject` builds has one key per distinct method name, each once, in order of first occurrence |
| Readers.GroupedSpec | src/conversion/helpers.ts:37-50 | every method lands in the group of its name, every group holds exactly the methods of its name, and no group is empty |
| Readers.NamesSnoc | src/conversion/helpers.ts:42-46 | one more method adds its name as a key exactly when the name is new |
| Readers.RecordStep | src/conversion/helpers.ts:41-47 | one `forEach` step, pushing onto a known name's array or opening a new key, keeps the record exactly that of the methods seen |
| Readers.RecordIsGrouped | src/conversion/helpers.ts:37-50 | a record with those keys and arrays, read back key by key, is the grouping `Grouped` |
| Readers.ToObject | src/conversion/helpers.ts:37-50 | `toObject` fills the record in place so that its keys are the distinct names in first-occurrence order and each array holds exactly the methods of its name in input order |
| JavaReaders.ClassMethodModifiersSpec | java-src/src/main/java/com/github/markusjx/ast/ClassMethod.java:29-40 | the Java method modifier list holds `STATIC`, `FINAL` and `DEFAULT` each exactly when set, in that order |
| JavaReaders.GroupsByNameSpec | java-src/src/main/java/com/github/markusjx/ast/ClassMethod.java:42-50 | the map has a key for every method name added and no other, and the list under a name holds exactly the methods of that name in the order they were added |
| JavaReaders.ReadClassMethods | java-src/src/main/java/com/github/markusjx/ast/ClassMethod.java:16-54 | `readMethods` skips the non-public methods and builds exactly the name-keyed map of the public ones, each list in reflection order |
| JavaReaders.ReadClassMethodModifiers | java-src/src/main/java/com/github/markusjx/ast/ClassMethod.java:29-40 | the `add` calls collect exactly the modifier list of `ClassMethodModifiersSpec` |
| JavaReaders.ReadClassMethodStep | java-src/src/main/java/com/github/markusjx/ast/ClassMethod.java:42-50 | one loop step adds a method to the list under its name exactly when it is public |
| JavaReaders.ErasedReadersAgree | java-src/src/main/java/com/github/markusjx/ast/ClassMethod.java:16-54 | the Java and TypeScript method readers keep the same public methods in the same order; they differ only in the modifier lists |
| JavaReaders.ReadersAgree | java-src/src/main/java/com/github/markusjx/ast/ClassMethod.java:16-54 | the Java map and the TypeScript record (src/ast/JavaMethod.ts with `toObject`) have the same keys and, under every key, the same overloads in the same order up to modifiers |
| JavaReaders.LastFieldsKeys | java-src/src/main/java/com/github/markusjx/ast/ClassField.java:17-40 | the keys of the field map are exactly the names of the public fields |
| JavaReaders.LastFieldsValues | java-src/src/main/java/com/github/markusjx/ast/ClassField.java:36 | the field kept under a name is the last public field of that name: a later field replaces an earlier one (the TypeScript reader keeps the first) |
| JavaReaders.ReadClassFields | java-src/src/main/java/com/github/markusjx/ast/ClassField.java:17-40 | the loop with `put` builds exactly the last-one-wins map of the public fields, each with its `STATIC`/`FINAL` list |
| TsAst.CreateType | src/conversion/tsHelpers.ts:30-44 | with strict null types the result always admits `null`; without, it admits `null` only when one of the given types does |
| TsAst.CreateTypeAlternatives | src/conversion/tsHelpers.ts:30-44 | `createType` offers exactly the given types, in order, followed by exactly one null literal when strict and nothing more when not |
| TsAst.NatToString | src/conversion/tsHelpers.ts:24 | the printed index `${i}` is a non-empty string of decimal digits |
| TsAst.NatToStringValue | src/conversion/tsHelpers.ts:24 | reading the printed digits back gives the index |
| TsAst.NatToStringInjective | src/conversion/tsHelpers.ts:24 | distinct parameter indices print differently, so every `var{i}` line names a different parameter |
| TsAst.ParamLinesSnoc | src/conversion/tsHelpers.ts:23-25 | one more parameter appends exactly one `@param var{i}` line, numbered with its position |
| TsAst.MethodCommentShape | src/conversion/tsHelpers.ts:16-28 | the method comment opens with `*`, a line break and the extra text, and closes with the `@return` line |
| TsAst.MethodCommentAddParameter | src/conversion/tsHelpers.ts:16-28 | one more parameter adds exactly its own line, just before the `@return` line |
| TsAst.OptionsDeepEqualsDefaults | src/conversion/tsHelpers.ts:179 | the options deep-equal `defaultGeneratorOpts` exactly when every option has its default value |
| TsAst.ConstructorDeclSpec | src/conversion/tsHelpers.ts:46-79 | a constructor declaration is public with the given parameters, carries the section header exactly for index 0 and the parameter comment exactly when there are parameters, header first |
| TsAst.CreateInterfaceImports | src/conversion/tsHelpers.ts:126-143 | one specifier exactly when the name is among the interface imports and is not the class itself, none otherwise; it imports the simple name plus `Interface` as the dotted name with `_` plus `Interface` |
| TsAst.CreateClassDecl | src/conversion/tsHelpers.ts:81-111 | the exported, declared class `<simple>Class` extends `JavaClass` and holds exactly the class members |
| TsAst.CreateExportStatement | src/conversion/tsHelpers.ts:172-217 | the runtime class and its default export; the options literal is passed exactly when the options differ from the defaults, and a private constructor is there exactly when the class is abstract or an interface |
| Members.ClassMembers.constructor | src/conversion/members.ts:3-7 | both member lists start empty |
| Members.ClassMembers.AddMembers | src/conversion/members.ts:9-11 | `addMembers` appends its arguments in argument order, keeps the earlier members, and leaves the interface list unchanged |
| Members.ClassMembers.AddInterfaceDeclaration | src/conversion/members.ts:13-15 | `addInterfaceDeclaration` appends its arguments, `null` separators included, in order, and leaves the class member list unchanged |
| TypeMap.KeywordNamesAreNoArrays | src/conversion/converter.ts:418-438 | the names with a keyword case never reach the buffer or array cases |
| TypeMap.PrimitiveIsNoReference | src/conversion/converter.ts:502-545 | every primitive name has a case of its own before the reference case |
| TypeMap.RefName | src/conversion/converter.ts:464-471 | the class itself is referred to by its simple name, with `Class` only in parameter position; any other class by its dotted name with `.` replaced by `_` (same length, no dot) |
| TypeMap.RefNodes | src/conversion/converter.ts:440-474 | `createTypeReferenceNode` gives the reference and, exactly for an interface in parameter position, the `JavaInterfaceProxy<…Interface>` type after it |
| TypeMap.MapType | src/conversion/converter.ts:414-546 | the bookkeeping of `javaTypeToTypescriptType`: a class is proxied exactly when it is referenced in parameter position and the oracle calls it an interface, and `BasicOrJavaType` is used only where no class is referenced |
| TypeMap.VoidIsNeverNullable | src/conversion/converter.ts:531-533 | `void` and `java.lang.Void` are the bare `void` keyword, never unioned with null whatever the strictness, and import nothing |
| TypeMap.KeywordCase | src/conversion/converter.ts:502-530 | the number, `long` and boolean names all go through `createUnion`, `long` with the extra `bigint` |
| TypeMap.KeywordOutsideParameters | src/conversion/converter.ts:476-491 | outside parameter position such a name is a union of its keyword alone, plus null exactly for a boxed name under strict null types; `long` gets no `bigint` and nothing is imported |
| TypeMap.KeywordInParameters | src/conversion/converter.ts:492-500 | in parameter position the union is the wrapper class reference (and its proxy), then `bigint` for `long`, then the keyword, then null for a boxed name when strict; the wrapper is recorded for import |
| TypeMap.StringNames | src/conversion/converter.ts:521-527 | `char`, `Character` and `String` are `string`, nullable exactly when strict, even for the primitive `char` |
| TypeMap.ArrayNames | src/conversion/converter.ts:428-438 | any array but a byte array is `createType` of an array of its element, the element mapped with strict null types whatever the outer flag, with the element's bookkeeping |
| TypeMap.BufferNames | src/conversion/converter.ts:419-426 | `byte[]` and `java.lang.Byte[]` are `Buffer`, with no bookkeeping |
| TypeMap.ObjectName | src/conversion/converter.ts:534-539 | `java.lang.Object` is `BasicOrJavaType`, which raises `usesBasicOrJavaType` and imports nothing |
| TypeMap.ReferenceNames | src/conversion/converter.ts:540-545 | any other class is recorded for import and offered as its reference, then its proxy type exactly for an interface in parameter position, then null when strict |
| TypeMap.ReferenceCase | src/conversion/converter.ts:540-545 | the default case is `createType` over the nodes of `createTypeReferenceNode` with its bookkeeping |
| TypeMap.NestedArrayEffect | src/conversion/converter.ts:428-438 | for nested arrays only the innermost element decides the bookkeeping |
| TypeMap.ApplyAllAppend | src/conversion/converter.ts:440-474 | the bookkeeping of two runs of calls is that of the first run followed by that of the second |
| TypeMap.ApplyPreserves | src/conversion/converter.ts:440-474 | one call keeps the converter invariant (interface imports distinct and all recorded for import, non-empty only when the proxy type is used), only appends to both lists, and never lowers a flag |
| TypeMap.ProxiedListedOnce | src/conversion/converter.ts:445-448 | an interface class used twice in parameter position is listed once in `interfaceImports` |
| TypeMap.ApplyAllPreserves | src/conversion/converter.ts:440-474 | any run of calls keeps the invariant and only appends to `importsToResolve` |
| Converter.ParametersOfSpec | src/conversion/converter.ts:616-633 | parameter `i` is named `var<i>` and typed by the mapping of the `i`-th Java parameter in parameter position with strict null types |
| Converter.MethodDeclSpec | src/conversion/converter.ts:548-614 | a method declaration is public, static exactly when the Java method is, named with the sync or async suffix (none for `newInstanceAsync`), returns the mapped type wrapped in `Promise` only in the async variant, and carries the section header only for overload 0 |
| Converter.ConvertedMethodsStep | src/conversion/converter.ts:208-223 | one more overload appends its async and its sync declaration and applies the bookkeeping of both mappings |
| Converter.ConvertedMethodsSpec | src/conversion/converter.ts:208-223 | nothing is emitted for `toString`; otherwise exactly two members per overload, async then sync, non-null exactly for the names in the non-null list |
| Converter.PropertiesStep | src/conversion/converter.ts:165-206 | one more field appends one property and applies the bookkeeping of one type mapping |
| Converter.PropertySpec | src/conversion/converter.ts:165-206 | a property has the field's name and mapped type; it is public, static exactly for a static field, readonly exactly for a final one, in that order |
| Converter.ConstructorStep | src/conversion/converter.ts:140-163 | one more constructor appends its declaration and then its factory, after mapping its parameters for each |
| Converter.ConstructorMembersSpec | src/conversion/converter.ts:140-163 | constructor `i` yields its constructor declaration and then a public static `newInstanceAsync` with the same parameters returning a promise of the class's own non-null type |
| Converter.FactoryReturnsSelf | src/conversion/converter.ts:464-471 | the factory of an ordinary class returns the class's simple name, without the `Class` suffix |
| Converter.NonStatic | src/conversion/converter.ts:287-292 | keeps exactly the overloads that are not static, never more |
| Converter.HasDefault | src/conversion/converter.ts:297-299 | true exactly when some overload is `default` |
| Converter.SignatureOfSpec | src/conversion/converter.ts:307-350 | a signature has the group name, is optional exactly when the group has a default overload, maps parameters and return type, has the section header only for overload 0, and carries the "must be implemented" note exactly for a non-default overload of an optional group |
| Converter.GroupSignaturesStep | src/conversion/converter.ts:293-303 | one more overload appends its signature and applies its mapping bookkeeping |
| Converter.GroupSignaturesSpec | src/conversion/converter.ts:282-305 | a group yields one signature per non-static overload, in order, all optional exactly when some non-static overload is default |
| Converter.InterfaceSignaturesStep | src/conversion/converter.ts:282-305 | one more group appends its signatures after those of the earlier groups |
| Converter.RuntimeImportsShape | src/conversion/converter.ts:225-280 | the `java-bridge` import always starts with `importClass` and `JavaClass` and has one, two or one more specifiers for each helper flag that is set |
| Converter.RuntimeImportsFlags | src/conversion/converter.ts:225-280 | `BasicOrJavaType`, `newProxy`/`InterfaceProxyOptions` and `JavaInterfaceProxy` are imported exactly when their use flag is set |
| Converter.WithoutSelf | src/conversion/converter.ts:76-77 | keeps exactly the recorded names other than the generated class |
| Converter.ImportsOf | src/conversion/converter.ts:78-104 | one import per name, position by position |
| Converter.AdditionalImportsSpec | src/conversion/converter.ts:75-105 | every recorded class but the generated one is imported exactly once, in first-occurrence order, from the relative path, under its simple name aliased to the dotted name with `_`, with its interface exactly when it was used through a proxy |
| Converter.ImportOfSpec | src/conversion/converter.ts:78-104 | the import of another class names its path, its aliased simple name, and its interface exactly when it is proxied |
| Converter.SourceStatements | src/conversion/converter.ts:57-73 | the statement list is the runtime import, the class imports, a blank, the class, the interface section, a blank and the exports, each at its position |
| Converter.Converter.constructor | src/conversion/converter.ts:42-55 | a new converter has no helper flags set, no recorded imports and empty member lists |
| Converter.Converter.CreateTypeReferenceNode | src/conversion/converter.ts:440-474 | returns the reference nodes of the type-map specification and records the class, and the proxied interface, as it prescribes |
| Converter.Converter.CreateUnion | src/conversion/converter.ts:476-500 | returns the keyword union of the specification and applies its bookkeeping |
| Converter.Converter.JavaTypeToTypescriptType | src/conversion/converter.ts:414-546 | returns the node `MapType` specifies and leaves the state its effect prescribes |
| Converter.Converter.ConvertParameter | src/conversion/converter.ts:616-629 | returns parameter `var<index>` with the mapped type and applies that mapping's effect |
| Converter.Converter.ConvertParameters | src/conversion/converter.ts:631-633 | returns the parameters of `ParametersOf` and applies their effects in order |
| Converter.Converter.CreateMethod | src/conversion/converter.ts:548-614 | returns the declaration `MethodDeclSpec` describes; the return type is mapped before the parameters |
| Converter.Converter.CreateMethodVariants | src/conversion/converter.ts:217-221 | returns the async and then the sync declaration, with the bookkeeping of both mappings |
| Converter.Converter.ConvertClassMethods | src/conversion/converter.ts:208-223 | appends exactly `ConvertedMethods` to the class members, leaves the interface section alone and applies the mapping effects in order |
| Converter.Converter.ConvertMethodAt | src/conversion/converter.ts:212-222 | after the callback for overload `i`, the class members hold those of overloads 0 to `i` |
| Converter.Converter.ConvertClassFields | src/conversion/converter.ts:165-206 | appends exactly one property per field, in order, and applies the mapping effects |
| Converter.Converter.ConvertConstructors | src/conversion/converter.ts:140-163 | appends exactly the constructor declarations and factories of `ConstructorMembers` |
| Converter.Converter.CreateMethodSignature | src/conversion/converter.ts:307-350 | returns the signature `SignatureOfSpec` describes; parameters are mapped before the return type |
| Converter.Converter.CreateGroupSignatures | src/conversion/converter.ts:283-304 | returns the signatures of one group, as `GroupSignaturesSpec` describes |
| Converter.Converter.CreateInterfaceMethodSignatures | src/conversion/converter.ts:282-305 | returns the signatures of all groups, group after group, and applies their mappings in order |
| Converter.Converter.CreateNewProxyMethod | src/conversion/converter.ts:352-412 | returns the proxy factory and sets both proxy flags, nothing else |
| Converter.Converter.CreateInterfaceDeclaration | src/conversion/converter.ts:107-138 | appends a blank, the `<Name>Interface` declaration, a blank and the proxy factory to the interface section and leaves the class members alone |
| Converter.Converter.CreateSourceText | src/conversion/converter.ts:57-73 | the statement list starts with the runtime import, puts the class after the imports and a blank, and ends with the export class (private constructor only for abstract classes and interfaces, options only when not the defaults) and the default export |
| Descriptor.FieldTypes | src/ast/JavaClass.ts:92-94 | one pushed name per field, its type, in order |
| Descriptor.CollectTypes | src/ast/JavaClass.ts:86-98 | the pushing loops collect every method's parameter types then its return type, then every field type, then every constructor's parameter types, in that order |
| Descriptor.NoArrays | src/ast/JavaClass.ts:46 | the result holds no `[` or `]`, and a name without them is left as it is |
| Descriptor.BoxedIsImportable | src/ast/JavaClass.ts:21-46 | boxing a bracket-free name that is not basic gives a name with no brackets that is neither primitive nor basic |
| Descriptor.BoxedHaveNoBrackets | src/conversion/helpers.ts:14-35 | no boxed class name contains a bracket |
| Descriptor.BoxedAreNotBasic | src/ast/JavaClass.ts:21-42 | no boxed class name is in the basic-types list |
| Descriptor.ImportPipelineMembers | src/ast/JavaClass.ts:100-104 | the pipeline yields exactly the boxed, bracket-free forms of the collected names that are not basic |
| Descriptor.UniqueFilteredMapSpec | src/ast/JavaClass.ts:100-104 | for any stages, map-filter-map-unique keeps exactly the images of the elements whose image passes the filter |
| Descriptor.ImportPipelineSpec | src/ast/JavaClass.ts:100-104 | the computed imports hold every name once and only importable names |
| Descriptor.ImportPipelineIdempotent | src/ast/JavaClass.ts:100-104 | running the pipeline on its own output changes nothing |
| Descriptor.PipelineFixes | src/ast/JavaClass.ts:100-104 | stages that keep and fix every element of a list without repeats return it unchanged |
| Descriptor.MapIdentity | src/ast/JavaClass.ts:101-103 | a map whose function fixes every element is the identity |
| Descriptor.CalculateImports | src/ast/JavaClass.ts:85-105 | returns the pipeline applied to the collected names |
| Descriptor.NewJavaClass | src/ast/JavaClass.ts:51-66 | the constructor keeps every field; imports given are kept (even empty), missing ones are computed from the members |
| Descriptor.FromJavaClass | src/ast/JavaClass.ts:68-83 | an instance is returned as it is and a plain record becomes a descriptor equal to it, imports included |
| Descriptor.ClassReadSpec | src/ast/JavaClass.ts:132-156 | a read descriptor's simple name is the text after the last dot, it is abstract whenever it is an interface (and exactly when interface or abstract), its imports are distinct and importable, and every public method is in the group of its name |
| Descriptor.GroupMethods | src/conversion/helpers.ts:37-50 | the groups are those of the `toObject` specification |
| Descriptor.ReadClass | src/ast/JavaClass.ts:132-156 | returns the descriptor `ClassRead` specifies |
| Descriptor.AllMethodsStep | src/ast/JavaClass.ts:107-113 | converting one more group appends its members and bookkeeping after those of the earlier groups |
| Descriptor.ConvertMethods | src/ast/JavaClass.ts:107-113 | hands every group to `convertClassMethods` in record order: the class members grow by the members of each group in turn and the interface section is untouched |
| Descriptor.ConvertMembers | src/ast/JavaClass.ts:118-123 | methods, then fields, then constructors only for a concrete class, are appended, with their bookkeeping in that order |
| Descriptor.MembersSplit | src/ast/JavaClass.ts:118-123 | the member lists after the three stages add up to `ClassMembersOf` |
| Descriptor.EffectsSplit | src/ast/JavaClass.ts:118-123 | the bookkeeping after the three stages adds up to the members' effects |
| Descriptor.Convert | src/ast/JavaClass.ts:115-130 | `convert` returns the statement list `ConvertedSource` specifies |
| Descriptor.SourceOfStages | src/ast/JavaClass.ts:115-130 | the stage results of `convert`, each as its converter left it, compose to the converted source |
| Descriptor.ConvertedSourceLayout | src/ast/JavaClass.ts:115-130 | the converted file has the runtime import first, the imports of other classes, the class, four interface statements exactly for an interface, and an export with a private constructor exactly for an abstract class or interface, then the default export |
| Descriptor.InterfaceUsesProxyHelpers | src/ast/JavaClass.ts:125-127 | a converted interface imports `newProxy`, `InterfaceProxyOptions` and `JavaInterfaceProxy` |
| Descriptor.InterfaceSectionSpec | src/ast/JavaClass.ts:125-129 | for an interface the class is followed by a blank, `<Name>Interface`, a blank and the proxy factory; otherwise by a blank and the export |
| Descriptor.ClassMembersOfSpec | src/ast/JavaClass.ts:118-123 | the class members are the method pairs, one property per field, then two members per constructor, and no constructor members for an abstract class or interface |
| ClassDescriptor.ImportList.constructor | src/ast/class.ts:48 | a shared import array holding the given names |
| ClassDescriptor.Class.constructor | src/ast/class.ts:40-53 | keeps every field and the very array it is handed; an empty array is refilled in place with the computed imports, a non-empty one is left as it is |
| ClassDescriptor.Class.UpdateImports | src/ast/class.ts:72-95 | empties the shared array and refills it with exactly the pipeline's imports of the members |
| ClassDescriptor.Class.Convert | src/ast/class.ts:97-118 | `convert` yields the same statement list as the first descriptor for the same record |
| ClassDescriptor.FromJavaClass | src/ast/class.ts:55-70 | a descriptor is returned as it is; a record becomes a descriptor sharing the record's import array, which is filled in place when it was empty |
| ClassDescriptor.ReadClass | src/ast/class.ts:120-144 | a fresh descriptor with a fresh import array, whose record is the one `ClassRead` specifies |
| JavaDescriptor.FilteredCongruent | java-src/src/main/java/com/github/markusjx/ast/Class.java:58-60 | stages that agree on every name filter and map alike |
| JavaDescriptor.NotObjectOrVoidIsNoBasicTypes | java-src/src/main/java/com/github/markusjx/util/Helpers.java:42-45 | the Java filter `notObjectOrVoid` keeps exactly the names the TypeScript `noBasicTypes` keeps |
| JavaDescriptor.ClassJavaImportsAgree | java-src/src/main/java/com/github/markusjx/ast/Class.java:49-63 | `Class` imports exactly what the TypeScript descriptors import for the same members, in the same order |
| JavaDescriptor.DeclMethodTypesWithin | java-src/src/main/java/com/github/markusjx/ast/ClassDeclaration.java:51-56 | every method type the declaration stream starts from is one the `Class` stream starts from |
| JavaDescriptor.DeclFieldTypesWithin | java-src/src/main/java/com/github/markusjx/ast/ClassDeclaration.java:57-59 | every field type the declaration stream starts from is one the `Class` stream starts from |
| JavaDescriptor.DeclCollectedWithin | java-src/src/main/java/com/github/markusjx/ast/ClassDeclaration.java:51-61 | the declaration stream starts from a subset of the `Class` stream's names |
| JavaDescriptor.DeclImportsMembers | java-src/src/main/java/com/github/markusjx/ast/ClassDeclaration.java:50-68 | the declaration imports exactly the boxed, bracket-free forms of its starting names that are not `Object`, `void` or `Void` and not the class itself |
| JavaDescriptor.SelfFilteredSpec | java-src/src/main/java/com/github/markusjx/ast/ClassDeclaration.java:62-66 | for any stages, filtering out one value before `distinct` keeps exactly the kept images other than it |
| JavaDescriptor.DeclImportsSpec | java-src/src/main/java/com/github/markusjx/ast/ClassDeclaration.java:50-68 | the declaration imports each name once, never the class itself, only importable names, and nothing the `Class` descriptor would not import |
| JavaDescriptor.DeclImportWithin | java-src/src/main/java/com/github/markusjx/ast/ClassDeclaration.java:50-68 | each declaration import is importable and imported by `Class` too |
| JavaDescriptor.PrimitiveReturnImports | java-src/src/main/java/com/github/markusjx/ast/ClassDeclaration.java:54-56 | for a method returning `int`, `Class` imports `java.lang.Integer` while `ClassDeclaration` imports nothing |
| JavaDescriptor.IntStream | java-src/src/main/java/com/github/markusjx/ast/Class.java:58-61 | the name `int` passes through the `Class` stages as `java.lang.Integer` |
| JavaDescriptor.IntIsBoxed | java-src/src/main/java/com/github/markusjx/util/Helpers.java:15 | `int` boxes to `java.lang.Integer` |
| JavaDescriptor.GroupsInOrder | java-src/src/main/java/com/github/markusjx/util/Helpers.java:31-40 | one group per key in the map's iteration order, holding that key's overloads |
| JavaDescriptor.FieldsInOrder | java-src/src/main/java/com/github/markusjx/ast/ClassField.java:18-39 | the field map's values in its iteration order |
| JavaDescriptor.DeclarationReadSpec | java-src/src/main/java/com/github/markusjx/ast/ClassDeclaration.java:36-48 | a read declaration is named after the text behind the last dot, is abstract whenever it is an interface (and exactly when interface or abstract), and never imports itself |
| JavaDescriptor.MembersReadSpec | java-src/src/main/java/com/github/markusjx/ast/ClassDeclaration.java:44-47 | one group per public method name in map order with that name's public overloads in reflection order, one field per public field name, and the public constructors |
| JavaDescriptor.ReadMembers | java-src/src/main/java/com/github/markusjx/ast/Class.java:43-46 | the reflection readers return the members `MembersRead` specifies |
| JavaDescriptor.ReadClassDeclaration | java-src/src/main/java/com/github/markusjx/ast/ClassDeclaration.java:36-48 | returns the declaration `DeclarationRead` specifies |
| JavaDescriptor.ReadJavaClass | java-src/src/main/java/com/github/markusjx/ast/Class.java:35-47 | returns the descriptor `JavaClassRead` specifies |
| Worklist.Universe | src/ast/ClassConverter.ts:25-30 | the roots and every import of every loadable class lie in one finite set, which bounds every run |
| Worklist.Fresh | src/ast/ClassConverter.ts:26-29 | the imports queued are exactly those not rejected by the filter, in import order |
| Worklist.Pop | src/ast/ClassConverter.ts:33-35 | nothing exactly when the queue is empty; otherwise the last name (`pop`), or the first under FIFO polling |
| Worklist.PopPending | src/ast/ClassConverter.ts:33-35 | popping neither loses nor adds a name |
| Worklist.FinishPushes | src/ast/ClassConverter.ts:18-30 | loading and handing over a class leaves the resolved list and the progress log alone and only appends names not yet resolved, all within the universe |
| Worklist.FinishAllPushes | src/ast/JavaDefinitions.ts:121-125 | the continuations of a batch together only append such names |
| Worklist.PushesCompose | src/ast/ClassConverter.ts:25-30 | two rounds of such appends are one such round |
| Worklist.CountInAppend | src/ast/ClassConverter.ts:25-30 | the count of resolved pending names adds up over concatenation |
| Worklist.CountInNone | src/ast/ClassConverter.ts:25-30 | a list without resolved names counts zero |
| Worklist.PopKeepsCount | src/ast/ClassConverter.ts:33-35 | popping does not change how many pending names are resolved |
| Worklist.PopWithin | src/ast/ClassConverter.ts:33-35 | popping keeps every pending name within the universe |
| Worklist.ResolvingShrinks | src/ast/ClassConverter.ts:17 | recording a new name of the universe shrinks what is left of it |
| Worklist.StepDecreases | src/ast/JavaDefinitions.ts:111-135 | every turn lowers the termination measure of the loop and keeps the pending names within the universe |
| Worklist.BatchDecreases | src/ast/JavaDefinitions.ts:113-125 | a batch turn leaves no resolved name pending and resolves a new name unless every batch name was resolved already |
| Worklist.SingleDecreases | src/ast/JavaDefinitions.ts:126-132 | a single turn never raises the pending count, and lowers it when the name was resolved already |
| Worklist.SingleMeasure | src/ast/ClassConverter.ts:17 | recording a name of the universe not yet resolved shrinks the unresolved part |
| Worklist.StepGrows | src/ast/ClassConverter.ts:16-31 | a turn only appends to the resolved list, the descriptors handed over and the progress log |
| Worklist.ProperPrefix | src/ast/ClassConverter.ts:17 | appending something non-empty gives a longer list with the old one as prefix |
| Worklist.DrainGrows | src/ast/JavaDefinitions.ts:164-172 | `resolvedClasses` only grows: a run keeps the list it is given as a prefix, and the descriptors and callback calls only accumulate |
| Worklist.FinishClosed | src/ast/ClassConverter.ts:23-30 | after handing a class over, each of its imports is resolved or pending |
| Worklist.FinishAllClosed | src/ast/JavaDefinitions.ts:121-125 | the same holds after a whole batch of continuations |
| Worklist.StepClosed | src/ast/ClassConverter.ts:16-31 | a turn keeps every handed-over descriptor's imports resolved or pending |
| Worklist.DrainClosed | src/ast/JavaDefinitions.ts:164-172 | a run that drains its queue without a load failure has resolved every import of every descriptor it handed over |
| Worklist.DistinctConcat | src/ast/ClassConverter.ts:25-30 | two lists without repeats and without common names concatenate to one without repeats |
| Worklist.DistinctParts | src/ast/ClassConverter.ts:25-30 | the parts of a list without repeats have none and share no name |
| Worklist.FreshDistinct | src/ast/ClassConverter.ts:26-29 | the filtered imports of a class listing each import once have no repeats |
| Worklist.FinishOnce | src/ast/ClassConverter.ts:25-30 | when the filter checks the queue, the queue stays free of repeats and of resolved names |
| Worklist.FinishAllOnce | src/ast/JavaDefinitions.ts:121-125 | the same after a whole batch |
| Worklist.PopFresh | src/ast/ClassConverter.ts:33-35 | popping keeps the pending names free of repeats and of resolved names |
| Worklist.ResolveOnce | src/ast/ClassConverter.ts:17 | recording pending names keeps the names added since the start new and distinct |
| Worklist.StepOnce | src/ast/ClassConverter.ts:16-31 | when the filter checks the queue, a turn records no name twice |
| Worklist.DrainOnce | src/ast/JavaDefinitions.ts:164-172 | when the filter checks the queue, a run never resolves a name twice nor one resolved before it began |
| Turns.StackPop | src/ast/ClassConverter.ts:33-35 | `popQueue` takes the last name and leaves the others in order, or yields nothing on an empty queue |
| Turns.QueuePoll | java-src/src/main/java/com/github/markusjx/ast/Definitions.java:32-47 | `poll` takes the first name and leaves the others in order, or yields nothing on an empty queue |
| Turns.RunStart | src/ast/JavaDefinitions.ts:158-164 | a run is the loop started from the first pop of the roots with nothing handed over yet |
| Turns.LoopTurn | src/ast/JavaDefinitions.ts:165-172 | one loop turn: the run ends with the trace of a turn that fails to load, and otherwise continues from the next pop with a smaller measure |
| Turns.SingleStep | src/ast/ClassConverter.ts:16-31 | a single turn records and logs the name, then hands over its descriptor and queues the imports that pass the filter, or records the load failure |
| Turns.BatchStep | src/ast/JavaDefinitions.ts:113-125 | a batch turn records every batch name and logs the batch once before any is loaded, then runs the continuations in order from a cleared queue |
| Turns.FinishAllFrom | src/ast/JavaDefinitions.ts:121-125 | continuation `j` of a batch either fails on its name or hands it over and queues its fresh imports before the later continuations |
| Runs.Loaded | src/ast/ClassConverter.ts:18-23 | one descriptor per name, in name order |
| Runs.LoadedAt | src/ast/ClassConverter.ts:18-23 | the `i`-th descriptor handed over belongs to the `i`-th name |
| Runs.LoadedAppend | src/ast/ClassConverter.ts:18-23 | the descriptors of two stretches of names concatenate |
| Runs.FinishAllLoads | src/ast/JavaDefinitions.ts:121-125 | when every batch name loads, the continuations hand over the descriptor of each name in batch order |
| Runs.FinishAllFails | src/ast/JavaDefinitions.ts:121-125 | the continuations stop at a batch name that cannot be loaded and leave the resolved list alone |
| Runs.StepReports | src/ast/ClassConverter.ts:16-31 | a turn hands over the descriptors of the names it records, or fails on one of them |
| Runs.DrainLoads | src/ast/JavaDefinitions.ts:164-172 | a successful loop hands over exactly one descriptor per name it records, in recording order |
| Runs.LoadsCompose | src/ast/JavaDefinitions.ts:164-172 | two stretches that each hand over the descriptors of their recorded names are one such stretch |
| Runs.DrainFails | src/ast/ClassConverter.ts:18 | a failed loop names a name it recorded, and that name cannot be loaded |
| Runs.SuffixSplit | src/ast/ClassConverter.ts:17 | what a list gains over two stretches is what it gains in each, in order |
| Runs.RunGrows | src/ast/ClassConverter.ts:11-17 | `resolvedClasses` only grows: a run keeps the names it was given, in order, at the front |
| Runs.RunReports | src/ast/JavaDefinitions.ts:152-178 | a successful run hands over, in order, the descriptor of every name it recorded and no other; a failed run names a recorded name that cannot be loaded |
| Runs.RunClosed | src/ast/JavaDefinitions.ts:152-178 | when a run succeeds, every import of every descriptor handed over has been resolved (under `while (cur)`, provided no name met is empty) |
| Runs.RunOnce | src/ast/ClassConverter.ts:25-30 | a resolver that checks the queue as well as the resolved list never resolves a class twice nor one resolved before the run, given distinct unresolved roots |
| Runs.DiamondEntries | src/ast/ClassConverter.ts:25-30 | the sample lookup has the diamond's import edges |
| Runs.FreshOne | src/ast/ClassConverter.ts:26-29 | a one-import list is queued unless the name is known |
| Runs.FreshTwo | src/ast/ClassConverter.ts:26-29 | each of two imports is queued unless known, in order |
| Runs.SingleTurn | src/ast/ClassConverter.ts:16-31 | a one-name turn on a loadable name records, hands over, logs and queues its filtered imports |
| Runs.DiamondFreshA | src/ast/ClassConverter.ts:25-30 | `A` queues `B` and then `C` under every policy |
| Runs.DiamondFreshC | src/ast/ClassConverter.ts:25-30 | `C` queues nothing while `B` waits when the queue is checked, and `B` again otherwise |
| Runs.DrainTurn | src/ast/JavaDefinitions.ts:165-172 | a turn that loads continues from the next pop |
| Runs.PopSmall | src/ast/ClassConverter.ts:33-35 | `pop` of two names, one name and none |
| Runs.LeafLast | src/ast/ClassConverter.ts:16-31 | a popped class without imports, with nothing else queued, is the last one resolved |
| Runs.LeafTwice | src/ast/classConverter.ts:16-25 | the same import class popped twice in a row is resolved twice |
| Runs.DiamondFromCChecked | src/ast/ClassConverter.ts:25-30 | from `C` with `B` waiting, a checking resolver resolves `C` and then `B` once |
| Runs.DiamondFromCUnchecked | src/ast/classConverter.ts:22-24 | from `C` with `B` waiting, a resolver that checks only the resolved list resolves `C` and then `B` twice |
| Runs.DiamondTurnA | src/ast/ClassConverter.ts:16-31 | the first turn records and hands over `A` and queues `B`, `C` |
| Runs.DiamondFromA | src/ast/JavaDefinitions.ts:164-171 | after `A`, the stack pops `C` with `B` waiting |
| Runs.DiamondRunChecked | src/ast/ClassConverter.ts:25-30 | a checking stack resolver resolves the diamond as `A`, `C`, `B` |
| Runs.DiamondRunUnchecked | src/ast/classConverter.ts:22-24 | a stack resolver that checks only the resolved list resolves the diamond as `A`, `C`, `B`, `B` |
| Runs.SyntaxTreeResolvesTwice | src/ast/classConverter.ts:22-24 | the older converter, run from `A`, resolves and hands over `B` twice |
| Runs.DefinitionTreeResolvesOnce | src/ast/ClassConverter.ts:25-30 | the current converter resolves each class of the diamond once |
| Runs.StepProgress | src/ast/JavaDefinitions.ts:113-132 | every turn logs one progress entry: the batch it takes, or the single name |
| Runs.FirstTurnOfTwo | src/ast/JavaDefinitions.ts:111-132 | with two roots, the first turn is a batch of both, last root first, exactly when the policy batches from one remaining name; otherwise the last root alone |
| Runs.BatchThresholdsDiffer | src/ast/JavaDefinitions.ts:113 | on two roots, `createModuleDeclarationForClass` starts with a batch where `readAndConvert` (threshold `> 1`) starts with one name |
| Resolver.Names.constructor | src/ast/ClassConverter.ts:11 | a shared resolved-names array holding the given names |
| Resolver.ClassConverter.constructor | src/ast/ClassConverter.ts:8-14 | the queue starts as a copy of the roots (one root or an array of them), nothing is handed over, and the caller's resolved array is kept, shared |
| Resolver.ClassConverter.Record | src/ast/ClassConverter.ts:17 | the name is appended to the shared resolved array before anything is awaited |
| Resolver.ClassConverter.Complete | src/ast/ClassConverter.ts:18-30 | a loadable class is handed to the callback and its imports that are neither resolved nor queued are appended, in import order; an unknown name fails with nothing handed over and the queue unchanged |
| Resolver.ClassConverter.CreateClassDefinitionTree | src/ast/ClassConverter.ts:16-31 | the name is recorded, then the class is handed over and its fresh imports queued, or the load fails |
| Resolver.ClassConverter.PopQueue | src/ast/ClassConverter.ts:33-35 | the last queued name is removed and returned, or nothing on an empty queue |
| Resolver.ClassConverter.ClearQueue | src/ast/ClassConverter.ts:41-43 | the queue is emptied and nothing else changes |
| OldResolver.ClassConverter.constructor | src/ast/classConverter.ts:5-14 | the queue starts as the one root, with nothing resolved or handed over |
| OldResolver.ClassConverter.Record | src/ast/classConverter.ts:17 | the name is appended to the private resolved list |
| OldResolver.ClassConverter.Complete | src/ast/classConverter.ts:18-24 | a loadable class is handed over and its imports not yet resolved are appended, even when already queued; an unknown name fails with nothing changed |
| OldResolver.ClassConverter.CreateClassDefinitionTree | src/ast/classConverter.ts:16-25 | the name is recorded, then the class is handed over and its unresolved imports queued, or the load fails |
| OldResolver.ClassConverter.PopQueue | src/ast/classConverter.ts:27-29 | the last queued name is removed and returned, or nothing on an empty queue |
| OldResolver.ClassConverter.ClearQueue | src/ast/classConverter.ts:35-37 | the queue is emptied and nothing else changes |
| Generation.DeclaredSnoc | src/ast/JavaDefinitions.ts:103-107 | converting one more descriptor appends its declaration |
| Generation.DeclaredAt | src/ast/JavaDefinitions.ts:64-73 | one declaration per descriptor, named after it and holding its converted source, position by position |
| Generation.FromJavaDefinitionsIdempotent | src/ast/JavaDefinitions.ts:36-44 | an instance is returned as it is, so wrapping twice changes nothing; a record keeps its roots and classes |
| Generation.AnnouncedNames | src/ast/JavaDefinitions.ts:59-74 | `createModuleDeclaration` returns one declaration per class, in order, and the callback hears each declaration's name in the same order |
| Generation.AnnouncedAt | src/ast/JavaDefinitions.ts:65-67 | the callback hears each class name once, position by position |
| Generation.DefinitionTreeTurn | src/ast/JavaDefinitions.ts:166-170 | one loop turn (callback, then `createClassDefinitionTree`) leaves the queue and trace of one step of the definition-tree policy |
| Generation.DefinitionTreeNext | src/ast/JavaDefinitions.ts:166-171 | a turn followed by the next pop continues the run of the policy, with a smaller measure, or ends it on a failed load |
| Generation.DefinitionTreeLoop | src/ast/JavaDefinitions.ts:164-172 | the `while (cur)` loop ends with the resolved list, descriptors, callback log and failure of the policy's run from the current pop |
| Generation.CreateDefinitionTree | src/ast/JavaDefinitions.ts:152-178 | the shared resolved list, the callback log and the result (roots and descriptors in resolution order, or the name that failed to load) are exactly those of the definition-tree run |
| Generation.ResolveBatch | src/ast/JavaDefinitions.ts:114-125 | the batch names are all recorded before any is loaded, then completed in batch order, each converted as it is handed over, up to the first failure |
| Generation.DeclarationTurn | src/ast/JavaDefinitions.ts:113-132 | one turn (batch or single) leaves the queue and trace of one step of the module-declaration policy, with a declaration per descriptor handed over |
| Generation.DeclarationNext | src/ast/JavaDefinitions.ts:113-134 | a turn followed by the next pop continues the policy's run, or ends it on a failed load |
| Generation.DeclarationLoop | src/ast/JavaDefinitions.ts:111-135 | the loop ends as the module-declaration run from the current pop, with one declaration per descriptor in order |
| Generation.CreateModuleDeclarationForClass | src/ast/JavaDefinitions.ts:93-138 | the shared resolved list, the callback log and the result (declarations of the descriptors in order, or the name that failed) are exactly those of the module-declaration run |
| Generation.DeclarationsFollowResolution | src/ast/JavaDefinitions.ts:99-108 | a successful run declares, in order, exactly the names it resolved, each with its class converted |
| Generation.DeclaredOnce | src/ast/JavaDefinitions.ts:93-138 | with distinct new roots, no class is declared twice and none the caller had resolved already |
| OldGeneration.ConvertAnnounces | src/ast/definitions.ts:25-39 | `convert` returns one declaration per class in order, each holding its class converted, and the callback hears each declaration's name in the same order |
| OldGeneration.SyntaxTreeTurn | src/ast/definitions.ts:92-97 | one loop turn leaves the queue and trace of one step of the older converter's policy |
| OldGeneration.SyntaxTreeLoop | src/ast/definitions.ts:90-98 | the loop ends as the run of the older converter's policy from the current pop |
| OldGeneration.CreateSyntaxTree | src/ast/definitions.ts:83-101 | the callback log and the result (the root and the descriptors in resolution order, or the name that failed) are exactly those of the older converter's run from the root |
| OldGeneration.ResolveBatch | src/ast/definitions.ts:57-68 | the batch names are all recorded before any is loaded, then completed and converted in batch order up to the first failure |
| OldGeneration.ReadAndConvertTurn | src/ast/definitions.ts:56-77 | one turn, a batch when more than one name remains, leaves the queue and trace of one step of the `readAndConvert` policy, with a declaration per descriptor |
| OldGeneration.ReadAndConvertLoop | src/ast/definitions.ts:54-78 | the loop ends as the `readAndConvert` run from the current pop, with one declaration per descriptor in order |
| OldGeneration.ReadAndConvert | src/ast/definitions.ts:41-81 | the callback log and the result (declarations in resolution order, or the name that failed) are exactly those of the `readAndConvert` run from the root |
| JavaGeneration.DeliveriesSnoc | java-src/src/main/java/com/github/markusjx/ast/Definitions.java:37-40 | one more class appends what the consumer receives for it |
| JavaGeneration.DeliveriesAt | java-src/src/main/java/com/github/markusjx/ast/Definitions.java:37-40 | without a consumer nothing is delivered; a left consumer receives every class as JSON and a right one as the object, once each, in resolution order |
| JavaGeneration.CheckedAvoided | java-src/src/main/java/com/github/markusjx/ast/Definitions.java:42-45 | the Java filter rejects exactly the resolved names, the current one and the queued ones |
| JavaGeneration.ReadTurn | java-src/src/main/java/com/github/markusjx/ast/Definitions.java:34-47 | one loop turn leaves the queue, resolved set, classes and deliveries of one step of the Java policy |
| JavaGeneration.ReadLoop | java-src/src/main/java/com/github/markusjx/ast/Definitions.java:33-48 | the loop ends as the Java run from the polled name, with the consumer having received exactly the run's classes |
| JavaGeneration.CreateSyntaxTree | java-src/src/main/java/com/github/markusjx/ast/Definitions.java:24-51 | the result (roots and classes in resolution order, or the class that could not be read) and the consumer's deliveries are exactly those of the FIFO run seeded with the already resolved classes |
| JavaGeneration.CreateSyntaxTreeOf | java-src/src/main/java/com/github/markusjx/ast/Definitions.java:19-22 | the one-argument form is the run with nothing resolved and no consumer |
| Legacy.OutsideSpec | src/TypescriptDefinitionGenerator.ts:447-449 | a recorded class is an additional import exactly when it was not resolved when recorded |
| Legacy.OutsideSnoc | src/TypescriptDefinitionGenerator.ts:447-451 | recording one more class adds it to the additional imports exactly when it is not resolved |
| Legacy.MethodDeclAgrees | src/TypescriptDefinitionGenerator.ts:692-749 | a legacy method declaration equals the class converter's with default options, except the sync variant of `newInstanceAsync`, which the legacy generator alone names `newInstanceAsyncSync` |
| Legacy.ConvertedMethodSpec | src/TypescriptDefinitionGenerator.ts:751-768 | two declarations per overload, async then sync, both non-null exactly when the name is in the non-null list |
| Legacy.ConstructorDecls | src/TypescriptDefinitionGenerator.ts:300-333 | one constructor declaration per public parameter list |
| Legacy.NewInstanceMethods | src/TypescriptDefinitionGenerator.ts:335-348 | one `newInstanceAsync` factory per public parameter list |
| Legacy.FactorySpec | src/TypescriptDefinitionGenerator.ts:335-348 | a factory is public static, unsuffixed, takes the constructor's parameters and returns a promise of the class's own type |
| Legacy.ConstructorsSectionSpec | src/TypescriptDefinitionGenerator.ts:280-351 | with n public constructors: n factories first, then the n constructor declarations, in the same order |
| Legacy.DependenciesImported | src/TypescriptDefinitionGenerator.ts:1068-1087 | every class handed to a new generator is imported by the class's own declaration, and no import is listed twice |
| Legacy.Universe | src/TypescriptDefinitionGenerator.ts:1079-1087 | for any class and reference table, a finite set holding the class and closed under references exists, so the preconditions of `Gen` and `Generate` can always be met and the recursion has a finite bound |
| Legacy.Gen | src/TypescriptDefinitionGenerator.ts:958-1095 | `generate` only ever extends the shared list of resolved names |
| Legacy.GenMarked | src/TypescriptDefinitionGenerator.ts:959-966 | for an unresolved loadable class, the name is marked first, then its imports are generated, and its declaration comes last |
| Legacy.Imports | src/TypescriptDefinitionGenerator.ts:1078-1087 | the loop over the additional imports only extends the resolved list |
| Legacy.GenAll | src/TypescriptDefinitionGenerator.ts:1079-1087 | one generator per name, in order, stopping at the first rejection; the resolved list only grows |
| Legacy.GenFacts | src/TypescriptDefinitionGenerator.ts:958-1095 | a resolved name yields nothing; otherwise it is the first name marked; a rejection names an unloadable class among those marked; a success declares exactly the classes marked, none twice, its own last, after everything they refer to is resolved |
| Legacy.GenAllFacts | src/TypescriptDefinitionGenerator.ts:1078-1087 | after the loop every listed import is resolved and the declarations are exactly the classes marked, or the rejection names an unloadable class |
| Legacy.Entries | src/TypescriptDefinitionGenerator.ts:996-998 | the record's entries in key order, each with its overloads |
| Legacy.FieldModifiersOf | src/TypescriptDefinitionGenerator.ts:196-209 | the field's modifiers are those the class converter gives: public, then static, then readonly |
| Legacy.ProgressLog.constructor | src/TypescriptDefinitionGenerator.ts:38 | the callback has heard no class yet |
| Legacy.Generator.constructor | src/TypescriptDefinitionGenerator.ts:122-143 | a generator keeps its class, callback and shared resolved list and starts with every flag false and every list empty |
| Legacy.Generator.CreateTypeReferenceNode | src/TypescriptDefinitionGenerator.ts:424-462 | the reference node of the class (plus the proxy reference for an interface parameter), with the class recorded and its interface import added once |
| Legacy.Generator.RecordImport | src/TypescriptDefinitionGenerator.ts:447-451 | the class becomes an additional import unless it is resolved, is recorded for resolution, and nothing else changes |
| Legacy.Generator.CreateUnion | src/TypescriptDefinitionGenerator.ts:464-489 | the keyword union of the type mapping, with the boxed class recorded for a parameter |
| Legacy.Generator.JavaTypeToTypescriptType | src/TypescriptDefinitionGenerator.ts:389-529 | the node and bookkeeping of the shared type mapping, for every Java type name |
| Legacy.Generator.ConvertParameter | src/TypescriptDefinitionGenerator.ts:531-544 | parameter `var<i>` with the mapped parameter type |
| Legacy.Generator.ConvertParameters | src/TypescriptDefinitionGenerator.ts:546-548 | one parameter per Java parameter, in order, mapped in order |
| Legacy.Generator.CreateMethod | src/TypescriptDefinitionGenerator.ts:692-749 | the legacy method declaration, with the return type mapped before the parameters |
| Legacy.Generator.ConvertMethod | src/TypescriptDefinitionGenerator.ts:751-768 | the async and sync declaration of every overload, in order |
| Legacy.Generator.ConvertMethodGroups | src/TypescriptDefinitionGenerator.ts:994-998 | the declarations of every record entry, entry after entry |
| Legacy.Generator.ConvertFields | src/TypescriptDefinitionGenerator.ts:181-238 | one property per public field, in order; non-public fields are skipped and map no type |
| Legacy.Generator.ConvertField | src/TypescriptDefinitionGenerator.ts:189-233 | the property of one public field, its type mapped as a parameter type |
| Legacy.Generator.ConvertConstructors | src/TypescriptDefinitionGenerator.ts:280-351 | the factories then the constructors of the public constructors; constructor parameters are mapped before the factories' |
| Legacy.Generator.CreateConstructors | src/TypescriptDefinitionGenerator.ts:300-333 | one constructor declaration per parameter list |
| Legacy.Generator.CreateNewInstanceMethods | src/TypescriptDefinitionGenerator.ts:335-348 | one factory per parameter list |
| Legacy.Generator.ConvertMethods | src/TypescriptDefinitionGenerator.ts:145-179 | the public methods grouped by name, keys in first-seen order, overloads in reflection order |
| Legacy.Generator.CreateMethodSignature | src/TypescriptDefinitionGenerator.ts:564-607 | the interface signature of one overload, optional when the entry has a default method |
| Legacy.Generator.CreateGroupSignatures | src/TypescriptDefinitionGenerator.ts:613-626 | the signatures of one entry's non-static overloads, optional when any of them is default |
| Legacy.Generator.CreateInterfaceMethodSignatures | src/TypescriptDefinitionGenerator.ts:609-628 | the signatures of every entry, entry after entry |
| Legacy.Generator.CreateNewProxyMethod | src/TypescriptDefinitionGenerator.ts:630-690 | the `create<Name>Proxy` factory, which raises both proxy flags |
| Legacy.Generator.ConvertClass | src/TypescriptDefinitionGenerator.ts:968-1076 | the statements printed for one class and the bookkeeping the conversion leaves |
| Legacy.Generator.ConvertMembers | src/TypescriptDefinitionGenerator.ts:987-1007 | the properties, the method declarations, and the constructors unless the class is abstract or an interface |
| Legacy.Generator.ConvertInterface | src/TypescriptDefinitionGenerator.ts:1009-1039 | for an interface only: separator, interface of its signatures, separator, proxy factory |
| Legacy.Generator.Generate | src/TypescriptDefinitionGenerator.ts:958-1095 | the resolved list, the callback's log and the returned declarations are those `Gen` describes: nothing for a resolved class, a rejection for an unloadable one |
| Legacy.Generator.GenerateLoaded | src/TypescriptDefinitionGenerator.ts:968-1095 | for a marked loaded class: the imports' declarations, then its own |
| Legacy.Generator.GenerateImport | src/TypescriptDefinitionGenerator.ts:1080-1086 | a new generator sharing the resolved list and callback does what `Gen` describes for the import |
| Legacy.Generator.GenerateImports | src/TypescriptDefinitionGenerator.ts:1078-1087 | the declarations of every additional import, in order, stopping at the first rejection |

## Left out

- Worklist.FinishAll, Worklist.Step, Generation.ResolveBatch, OldGeneration.ResolveBatch: `Promise.all` runs a batch's continuations concurrently. The order of the callback, of the collected classes and of the queue pushes follows completion order, and after one rejection the other continuations keep running. The model runs the batch in batch order and stops at the first failure. The names are still marked resolved synchronously before the first `await`. This is one valid interleaving, not all of them.
- TypeMap.Env: `importClass(name).class.isInterfaceSync()` in `javaTypeToTypescriptType` is the total oracle `isInterface`. The exception it throws for a class that cannot be loaded is not modelled.
- Legacy.Jvm: the legacy `createTypeReferenceNode` uses the same total `isInterface` oracle, so its exception is not modelled either.
- JavaReaders.ReadClassMethods, JavaReaders.ReadClassFields, JavaDescriptor.ReadMembers: the Java readers fill a `HashMap`, whose iteration order Java leaves unspecified. The model keeps the maps and takes the iteration order as the caller-given `methodOrder`/`fieldOrder`, which must list each key once.
- Printing: `getText`/`printNode` and the TypeScript printer are not modelled. The model stops at the statement AST, and the fixed documentation texts of the class, interface and private constructor are left out of it.
- `checkAndMergeOptions` in `util/versions.ts`: it depends on `semver` and the package version. The converter receives already merged `GeneratorOptions`.
- JSON: the Gson serialisation of the Java descriptors is not modelled. `JavaGeneration` records which side of the `Either` consumer received each class instead of producing JSON text.
- `hashMapToRecord`: it calls methods on a foreign Java map, so it is treated as the identity on plain records.
- `TypescriptDefinitionGenerator.save`, the CLI, the worker threads, `jarScraper.ts`, the generator front-ends (`JavaDefinitionGenerator.ts`, `TsDefinitionGenerator.ts`, `DefinitionGenerator.ts`) and the dead `generator.ts`: these are file I/O, tooling or wiring around the core.
- `Modifier.*` and the reflection getters: they are the fields of the `Reflected*` input records, read without failure.
- The conversion callback of the drivers is a function parameter, and the progress callbacks are logs of the names they were called with.
- Resolver.ClassConverter.QueueLength, OldResolver.ClassConverter.QueueLength, Converter.Converter.GetImports, Converter.Converter.GetAdditionalImports: these are read-only accessors that the emitters' contracts describe; they carry no contract of their own.

## Findings

| source | as written | input that shows it | evidently intended | confidence | as-written member | corrected member |
|---|---|---|---|---|---|---|
| src/ast/classConverter.ts:22-24 | the older `createClassDefinitionTree` filters the imports only against `resolvedClasses`, so a class already waiting in the queue is queued again and resolved twice | root A importing B and C, C importing B: B is pushed by A and again by C, and `createSyntaxTree` resolves A, C, B, B | also skip names already queued, as `ClassConverter.ts` does, so that each class is resolved once (proved in general by `Runs.RunOnce`) | not executed | Runs.SyntaxTreeResolvesTwice | Runs.DefinitionTreeResolvesOnce |
