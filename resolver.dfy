/**
 * The current TypeScript `ClassConverter`: a stack of class names still to
 * load, and a list of resolved names that it shares with its caller and only
 * ever appends to. An import is queued only when it is neither resolved nor
 * already waiting.
 */
module Resolver {
  import opened Wrappers
  import opened Types
  import opened Worklist

  /** A list of class names shared between a caller and the converters it creates. */
  class Names {
    var items: seq<string>

    constructor(items: seq<string>)
      ensures this.items == items
    {
      this.items := items;
    }
  }

  /** What a resolver is started from: `string | string[]`. */
  datatype Roots = Single(name: string) | Several(names: seq<string>)

  /** `Array.isArray(initial) ? initial : [initial]`. */
  function RootList(roots: Roots): seq<string> {
    match roots
    case Single(name) => [name]
    case Several(names) => names
  }

  class ClassConverter {
    var queue: seq<string>
    const lookup: Lookup
    const resolvedClasses: Names
    /** The descriptors handed to the callback, in call order. */
    var reported: seq<JavaClass>

    /**
     * The queue starts as a copy of the roots, neither deduplicated nor
     * checked against the resolved list; the resolved list is the caller's.
     */
    constructor(initial: Roots, lookup: Lookup, resolvedClasses: Names)
      ensures queue == RootList(initial) && reported == []
      ensures this.lookup == lookup && this.resolvedClasses == resolvedClasses
    {
      queue := RootList(initial);
      this.lookup := lookup;
      this.resolvedClasses := resolvedClasses;
      reported := [];
    }

    /** The synchronous start of `createClassDefinitionTree`: the name joins the shared resolved list. */
    method Record(name: string)
      modifies resolvedClasses
      ensures resolvedClasses.items == old(resolvedClasses.items) + [name]
    {
      resolvedClasses.items := resolvedClasses.items + [name];
    }

    /**
     * The rest of `createClassDefinitionTree`, after the awaits: load the
     * class (or fail), hand its descriptor to the callback, and queue each
     * import that is neither resolved nor waiting.
     */
    method Complete(name: string) returns (r: Result<JavaClass>)
      modifies this
      ensures name in lookup ==>
        && r == Ok(lookup[name]) && reported == old(reported) + [lookup[name]]
        && queue == old(queue) + Fresh(lookup[name].imports, Elements(resolvedClasses.items) + Elements(old(queue)))
      ensures name !in lookup ==> r == Err(ClassNotFound(name)) && reported == old(reported) && queue == old(queue)
    {
      if name !in lookup {
        return Err(ClassNotFound(name));
      }
      var resolved := lookup[name];
      reported := reported + [resolved];
      queue := queue + Fresh(resolved.imports, Elements(resolvedClasses.items) + Elements(queue));
      r := Ok(resolved);
    }

    /** `createClassDefinitionTree`: record the name, then complete it. */
    method CreateClassDefinitionTree(name: string) returns (r: Result<JavaClass>)
      modifies this, resolvedClasses
      ensures resolvedClasses.items == old(resolvedClasses.items) + [name]
      ensures name in lookup ==>
        && r == Ok(lookup[name]) && reported == old(reported) + [lookup[name]]
        && queue == old(queue) + Fresh(lookup[name].imports, Elements(resolvedClasses.items) + Elements(old(queue)))
      ensures name !in lookup ==> r == Err(ClassNotFound(name)) && reported == old(reported) && queue == old(queue)
    {
      Record(name);
      r := Complete(name);
    }

    /** `popQueue`: the last name (the queue is a stack), or nothing when the queue is empty. */
    method PopQueue() returns (cur: Option<string>)
      modifies this
      ensures old(queue) == [] ==> cur == None && queue == []
      ensures old(queue) != [] ==> cur == Some(old(queue)[|old(queue)| - 1]) && queue == old(queue)[..|old(queue)| - 1]
      ensures reported == old(reported)
    {
      if |queue| == 0 {
        return None;
      }
      cur := Some(queue[|queue| - 1]);
      queue := queue[..|queue| - 1];
    }

    function QueueLength(): nat
      reads this
    {
      |queue|
    }

    /** `clearQueue`: the queue is emptied; the resolved list is left alone. */
    method ClearQueue()
      modifies this
      ensures queue == [] && reported == old(reported)
    {
      queue := [];
    }
  }
}
