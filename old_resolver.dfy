/**
 * The older TypeScript `ClassConverter`: one root, a private resolved list
 * that starts empty, and an enqueue filter that checks only that list, so the
 * queue can hold a name twice.
 */
module OldResolver {
  import opened Wrappers
  import opened Types
  import opened Worklist

  class ClassConverter {
    var queue: seq<string>
    var resolvedClasses: seq<string>
    const lookup: Lookup
    /** The descriptors handed to the callback, in call order. */
    var reported: seq<JavaClass>

    /** The queue starts as the one root, and nothing is resolved yet. */
    constructor(initial: string, lookup: Lookup)
      ensures queue == [initial] && resolvedClasses == [] && reported == [] && this.lookup == lookup
    {
      queue := [initial];
      resolvedClasses := [];
      this.lookup := lookup;
      reported := [];
    }

    /** The synchronous start of `createClassDefinitionTree`: the name joins the resolved list. */
    method Record(name: string)
      modifies this
      ensures resolvedClasses == old(resolvedClasses) + [name]
      ensures queue == old(queue) && reported == old(reported)
    {
      resolvedClasses := resolvedClasses + [name];
    }

    /**
     * The rest of `createClassDefinitionTree`, after the awaits: load the
     * class (or fail), hand its descriptor to the callback, and queue each
     * import that is not resolved, whether or not it is already waiting.
     */
    method Complete(name: string) returns (r: Result<JavaClass>)
      modifies this
      ensures resolvedClasses == old(resolvedClasses)
      ensures name in lookup ==>
        && r == Ok(lookup[name]) && reported == old(reported) + [lookup[name]]
        && queue == old(queue) + Fresh(lookup[name].imports, Elements(resolvedClasses))
      ensures name !in lookup ==> r == Err(ClassNotFound(name)) && reported == old(reported) && queue == old(queue)
    {
      if name !in lookup {
        return Err(ClassNotFound(name));
      }
      var resolved := lookup[name];
      reported := reported + [resolved];
      queue := queue + Fresh(resolved.imports, Elements(resolvedClasses));
      r := Ok(resolved);
    }

    /** `createClassDefinitionTree`: record the name, then complete it. */
    method CreateClassDefinitionTree(name: string) returns (r: Result<JavaClass>)
      modifies this
      ensures resolvedClasses == old(resolvedClasses) + [name]
      ensures name in lookup ==>
        && r == Ok(lookup[name]) && reported == old(reported) + [lookup[name]]
        && queue == old(queue) + Fresh(lookup[name].imports, Elements(resolvedClasses))
      ensures name !in lookup ==> r == Err(ClassNotFound(name)) && reported == old(reported) && queue == old(queue)
    {
      Record(name);
      r := Complete(name);
    }

    /** `popQueue`: the last name (the queue is a stack), or nothing when the queue is empty. */
    method PopQueue() returns (cur: Option<string>)
      modifies this
      ensures old(queue) == [] ==> cur == None && queue == []
      ensures old(queue) != [] ==> cur == Some(old(queue)[|old(queue)| - 1]) && queue == old(queue)[..|old(queue)| - 1]
      ensures resolvedClasses == old(resolvedClasses) && reported == old(reported)
    {
      if |queue| == 0 {
        return None;
      }
      cur := Some(queue[|queue| - 1]);
      queue := queue[..|queue| - 1];
    }

    function QueueLength(): nat
      reads this
    {
      |queue|
    }

    /** `clearQueue`: the queue is emptied; the resolved list is left alone. */
    method ClearQueue()
      modifies this
      ensures queue == [] && resolvedClasses == old(resolvedClasses) && reported == old(reported)
    {
      queue := [];
    }
  }
}
