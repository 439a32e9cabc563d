/**
 * The static entry points of the TypeScript `JavaDefinitions` class: build a
 * definition tree, or module declarations, for some classes and everything
 * they import, by driving a `ClassConverter` until its queue runs dry. Each
 * loop is proved to compute exactly the run `Worklist.Run` describes for
 * its policy.
 */
module Generation {
  import opened Wrappers
  import opened Types
  import opened TsAst
  import opened Worklist
  import opened Runs
  import opened Resolver
  import opened Turns
  import Util

  /** One generated module: a class name and the statements of its declaration file. */
  datatype ModuleDeclaration = ModuleDeclaration(name: string, contents: seq<Option<Statement>>)

  /**
   * What a resolved descriptor becomes: its name and `convert` applied to it,
   * where `convert` stands for the descriptor's own `convert(opts)` under the
   * caller's options (`Descriptor.ConvertedSource`).
   */
  function Declare(c: JavaClass, convert: JavaClass -> seq<Option<Statement>>): ModuleDeclaration {
    ModuleDeclaration(c.name, convert(c))
  }

  /** One declaration per descriptor, in order. */
  function Declared(cs: seq<JavaClass>, convert: JavaClass -> seq<Option<Statement>>): seq<ModuleDeclaration> {
    if |cs| == 0 then [] else Declared(cs[..|cs| - 1], convert) + [Declare(cs[|cs| - 1], convert)]
  }

  lemma DeclaredSnoc(cs: seq<JavaClass>, c: JavaClass, convert: JavaClass -> seq<Option<Statement>>)
    ensures Declared(cs + [c], convert) == Declared(cs, convert) + [Declare(c, convert)]
  {
    assert (cs + [c])[..|cs|] == cs;
  }

  /** The declaration of every descriptor is named after it and holds its converted source. */
  lemma {:induction false} DeclaredAt(cs: seq<JavaClass>, convert: JavaClass -> seq<Option<Statement>>)
    ensures |Declared(cs, convert)| == |cs|
    ensures forall i :: 0 <= i < |cs| ==> Declared(cs, convert)[i] == ModuleDeclaration(cs[i].name, convert(cs[i]))
  {
    if |cs| > 0 {
      var init := cs[..|cs| - 1];
      DeclaredAt(init, convert);
      assert forall i :: 0 <= i < |init| ==> init[i] == cs[i];
    }
  }

  /** What `fromJavaDefinitions` is given: an instance, or a plain record of the same shape. */
  datatype DefinitionsSource = Instance(defs: JavaDefinitions) | Plain(root: seq<string>, classes: seq<JavaClass>)

  /** `fromJavaDefinitions`: an instance is returned itself, a record is wrapped field by field. */
  function FromJavaDefinitions(src: DefinitionsSource): JavaDefinitions {
    match src
    case Instance(defs) => defs
    case Plain(root, classes) => JavaDefinitions(root, classes)
  }

  /** Wrapping is idempotent: an instance built from a record comes back unchanged. */
  lemma FromJavaDefinitionsIdempotent(src: DefinitionsSource)
    ensures var d := FromJavaDefinitions(src);
      FromJavaDefinitions(Instance(d)) == d
      && (src.Plain? ==> d.root == src.root && d.classes == src.classes)
  {
  }

  /** What `createModuleDeclaration` hands its callback: each class name, in order. */
  function Announced(cs: seq<JavaClass>): seq<Progress> {
    if |cs| == 0 then [] else Announced(cs[..|cs| - 1]) + [One(cs[|cs| - 1].name)]
  }

  /** `createModuleDeclaration`: every class of the definitions, converted in order; the callback hears each name. */
  function CreateModuleDeclaration(defs: JavaDefinitions, convert: JavaClass -> seq<Option<Statement>>): (seq<ModuleDeclaration>, seq<Progress>) {
    (Declared(defs.classes, convert), Announced(defs.classes))
  }

  /** The callback of `createModuleDeclaration` hears the name of each declaration it returns, in the same order. */
  lemma {:induction false} AnnouncedNames(defs: JavaDefinitions, convert: JavaClass -> seq<Option<Statement>>)
    ensures var (decls, heard) := CreateModuleDeclaration(defs, convert);
      |heard| == |decls| == |defs.classes|
      && forall i :: 0 <= i < |decls| ==> heard[i] == One(decls[i].name) && decls[i].name == defs.classes[i].name
  {
    DeclaredAt(defs.classes, convert);
    AnnouncedAt(defs.classes);
  }

  lemma {:induction false} AnnouncedAt(cs: seq<JavaClass>)
    ensures |Announced(cs)| == |cs|
    ensures forall i :: 0 <= i < |cs| ==> Announced(cs)[i] == One(cs[i].name)
  {
    if |cs| > 0 {
      var init := cs[..|cs| - 1];
      AnnouncedAt(init);
      assert forall i :: 0 <= i < |init| ==> init[i] == cs[i];
    }
  }

  /** The outcome of a run as the entry points report it: the descriptors, or the name that could not be loaded. */
  function Outcome<T>(t: Trace, success: T): Result<T> {
    if t.failed.Some? then Err(ClassNotFound(t.failed.value)) else Ok(success)
  }

  /** What an entry point leaves behind: the shared resolved list, the callback log, and its result. */
  function Effect<T>(t: Trace, success: T): (seq<string>, seq<Progress>, Result<T>) {
    (t.resolved, t.progress, Outcome(t, success))
  }

  /** One turn of the loop of `createDefinitionTree` on the popped name `x`: the callback hears of it, then it is resolved. */
  method DefinitionTreeTurn(converter: ClassConverter, x: string, progress: seq<Progress>)
    returns (progress': seq<Progress>, failed: Option<string>)
    modifies converter, converter.resolvedClasses
    ensures Step(DefinitionTree, converter.lookup, x, old(converter.queue),
                 Trace(old(converter.resolvedClasses.items), old(converter.reported), progress, None))
         == (converter.queue, Trace(converter.resolvedClasses.items, converter.reported, progress', failed))
  {
    SingleStep(DefinitionTree, converter.lookup, x, converter.queue,
               Trace(converter.resolvedClasses.items, converter.reported, progress, None));
    progress' := progress + [One(x)];
    var loaded := converter.CreateClassDefinitionTree(x);
    failed := if loaded.Err? then Some(x) else None;
  }

  /**
   * One pass of the loop of `createDefinitionTree`: the turn on the popped
   * name `x`, then the next pop. Where the turn fails the run ends there;
   * otherwise the run goes on from the new pop with a smaller measure.
   */
  method DefinitionTreeNext(converter: ClassConverter, x: string, progress: seq<Progress>, ghost u: set<string>)
    returns (next: Option<string>, progress': seq<Progress>, failed: Option<string>)
    requires Within(Some(x), converter.queue, u) && ImportsWithin(converter.lookup, u) && x != ""
    modifies converter, converter.resolvedClasses
    ensures var t := Trace(old(converter.resolvedClasses.items), old(converter.reported), progress, None);
      var t' := Trace(converter.resolvedClasses.items, converter.reported, progress', failed);
      && (failed.Some? ==> Drain(DefinitionTree, converter.lookup, u, Some(x), old(converter.queue), t) == t')
      && (failed.None? ==>
            && Within(next, converter.queue, u)
            && Drain(DefinitionTree, converter.lookup, u, Some(x), old(converter.queue), t)
               == Drain(DefinitionTree, converter.lookup, u, next, converter.queue, t')
            && Smaller(u, next, converter.queue, t', Some(x), old(converter.queue), t))
  {
    LoopTurn(DefinitionTree, converter.lookup, u, x, converter.queue,
             Trace(converter.resolvedClasses.items, converter.reported, progress, None));
    progress', failed := DefinitionTreeTurn(converter, x, progress);
    if failed.Some? {
      return None, progress', failed;
    }
    StackPop(DefinitionTree, converter.queue);
    next := converter.PopQueue();
  }

  /**
   * The loop of `createDefinitionTree` from the popped name `cur` on: the
   * converter ends where the run of the policy from that point says, and
   * the name that failed to load, if any, is returned.
   */
  method DefinitionTreeLoop(converter: ClassConverter, cur: Option<string>, progress: seq<Progress>, ghost u: set<string>)
    returns (progress': seq<Progress>, failed: Option<string>)
    requires Within(cur, converter.queue, u) && ImportsWithin(converter.lookup, u)
    modifies converter, converter.resolvedClasses
    ensures Drain(DefinitionTree, converter.lookup, u, cur, old(converter.queue),
                  Trace(old(converter.resolvedClasses.items), old(converter.reported), progress, None))
         == Trace(converter.resolvedClasses.items, converter.reported, progress', failed)
  {
    ghost var goal := Drain(DefinitionTree, converter.lookup, u, cur, converter.queue,
                            Trace(converter.resolvedClasses.items, converter.reported, progress, None));
    var next := cur;
    progress' := progress;
    ghost var t := Trace(converter.resolvedClasses.items, converter.reported, progress', None);
    ghost var q := converter.queue;
    while next.Some? && next.value != ""
      invariant t == Trace(converter.resolvedClasses.items, converter.reported, progress', None) && q == converter.queue
      invariant Within(next, q, u)
      invariant Drain(DefinitionTree, converter.lookup, u, next, q, t) == goal
      decreases Unresolved(u, t), Repeats(next, q, t)
    {
      ghost var t0, q0, x := t, q, next.value;
      next, progress', failed := DefinitionTreeNext(converter, next.value, progress', u);
      if failed.Some? {
        return;
      }
      t := Trace(converter.resolvedClasses.items, converter.reported, progress', None);
      q := converter.queue;
      assert Smaller(u, next, q, t, Some(x), q0, t0);
    }
    DrainStops(DefinitionTree, converter.lookup, u, next, q, t);
    failed := None;
  }

  /**
   * `createDefinitionTree`: pop a name, tell the callback, resolve it, until
   * the queue is empty or an empty name is popped. The shared resolved list
   * and the callback log end exactly as the run of its policy says, and the
   * result holds the roots and the descriptors in resolution order.
   */
  method CreateDefinitionTree(name: Roots, lookup: Lookup, resolvedClasses: Names)
    returns (r: Result<JavaDefinitions>, progress: seq<Progress>)
    modifies resolvedClasses
    ensures var t := Run(DefinitionTree, lookup, RootList(name), old(resolvedClasses.items));
      (resolvedClasses.items, progress, r) == Effect(t, JavaDefinitions(RootList(name), t.reported))
  {
    var converter := new ClassConverter(name, lookup, resolvedClasses);
    var cur := converter.PopQueue();
    RunStart(DefinitionTree, lookup, RootList(name), old(resolvedClasses.items));
    StackPop(DefinitionTree, RootList(name));
    var failed;
    progress, failed := DefinitionTreeLoop(converter, cur, [], Universe(RootList(name), lookup));
    r := if failed.Some? then Err(ClassNotFound(failed.value)) else Ok(JavaDefinitions(RootList(name), converter.reported));
  }

  /**
   * The batch branch of `createModuleDeclarationForClass`: every name of the
   * batch is recorded before any is loaded, then the continuations complete
   * in batch order, each converting its class, up to the first failure.
   */
  method ResolveBatch(converter: ClassConverter, names: seq<string>, declared: seq<ModuleDeclaration>,
                      convert: JavaClass -> seq<Option<Statement>>, ghost progress: seq<Progress>)
    returns (declared': seq<ModuleDeclaration>, failed: Option<string>)
    requires converter.queue == [] && declared == Declared(converter.reported, convert)
    modifies converter, converter.resolvedClasses
    ensures FinishAll(ModuleDeclarations, converter.lookup, names, [],
                      Trace(old(converter.resolvedClasses.items) + names, old(converter.reported), progress, None))
         == (converter.queue, Trace(converter.resolvedClasses.items, converter.reported, progress, failed))
    ensures declared' == Declared(converter.reported, convert)
  {
    var i := 0;
    while i < |names|
      invariant 0 <= i <= |names|
      invariant converter.resolvedClasses.items == old(converter.resolvedClasses.items) + names[..i]
      invariant converter.queue == [] && converter.reported == old(converter.reported)
    {
      converter.Record(names[i]);
      assert names[..i + 1] == names[..i] + [names[i]];
      i := i + 1;
    }
    assert names[..|names|] == names;
    ghost var resolved := converter.resolvedClasses.items;
    ghost var t := Trace(resolved, converter.reported, progress, None);
    ghost var q := converter.queue;
    ghost var goal := FinishAll(ModuleDeclarations, converter.lookup, names, q, t);
    declared' := declared;
    var j := 0;
    while j < |names|
      invariant 0 <= j <= |names|
      invariant t == Trace(converter.resolvedClasses.items, converter.reported, progress, None) && q == converter.queue
      invariant t.resolved == resolved
      invariant declared' == Declared(t.reported, convert)
      invariant FinishAll(ModuleDeclarations, converter.lookup, names[j..], q, t) == goal
    {
      FinishAllFrom(ModuleDeclarations, converter.lookup, names, j, q, t);
      var loaded := converter.Complete(names[j]);
      if loaded.Err? {
        return declared', Some(names[j]);
      }
      DeclaredSnoc(t.reported, loaded.value, convert);
      declared' := declared' + [ModuleDeclaration(loaded.value.name, convert(loaded.value))];
      t := Trace(converter.resolvedClasses.items, converter.reported, progress, None);
      q := converter.queue;
      j := j + 1;
    }
    failed := None;
  }

  /**
   * One turn of the loop of `createModuleDeclarationForClass` on the popped
   * name `x`: when a name is still queued, `x` and the whole queue go as one
   * batch; otherwise `x` alone. Either way the callback hears of it first,
   * and each loaded descriptor is converted.
   */
  method DeclarationTurn(converter: ClassConverter, x: string, declared: seq<ModuleDeclaration>,
                         convert: JavaClass -> seq<Option<Statement>>, progress: seq<Progress>)
    returns (declared': seq<ModuleDeclaration>, progress': seq<Progress>, failed: Option<string>)
    requires declared == Declared(converter.reported, convert)
    modifies converter, converter.resolvedClasses
    ensures Step(ModuleDeclarations, converter.lookup, x, old(converter.queue),
                 Trace(old(converter.resolvedClasses.items), old(converter.reported), progress, None))
         == (converter.queue, Trace(converter.resolvedClasses.items, converter.reported, progress', failed))
    ensures declared' == Declared(converter.reported, convert)
  {
    if converter.QueueLength() >= 1 {
      BatchStep(ModuleDeclarations, converter.lookup, x, converter.queue,
                Trace(converter.resolvedClasses.items, converter.reported, progress, None));
      var queueCopy := [x] + converter.queue;
      converter.ClearQueue();
      progress' := progress + [Batch(queueCopy)];
      declared', failed := ResolveBatch(converter, queueCopy, declared, convert, progress');
    } else {
      SingleStep(ModuleDeclarations, converter.lookup, x, converter.queue,
                 Trace(converter.resolvedClasses.items, converter.reported, progress, None));
      progress' := progress + [One(x)];
      var loaded := converter.CreateClassDefinitionTree(x);
      if loaded.Err? {
        return declared, progress', Some(x);
      }
      DeclaredSnoc(old(converter.reported), loaded.value, convert);
      declared' := declared + [ModuleDeclaration(loaded.value.name, convert(loaded.value))];
      failed := None;
    }
  }

  /**
   * One pass of the loop of `createModuleDeclarationForClass`: the turn on
   * the popped name `x`, then the next pop. Where the turn fails the run
   * ends there; otherwise the run goes on from the new pop with a smaller
   * measure, and the declarations still follow the descriptors.
   */
  method DeclarationNext(converter: ClassConverter, x: string, declared: seq<ModuleDeclaration>,
                         convert: JavaClass -> seq<Option<Statement>>, progress: seq<Progress>, ghost u: set<string>)
    returns (next: Option<string>, declared': seq<ModuleDeclaration>, progress': seq<Progress>, failed: Option<string>)
    requires Within(Some(x), converter.queue, u) && ImportsWithin(converter.lookup, u) && x != ""
    requires declared == Declared(converter.reported, convert)
    modifies converter, converter.resolvedClasses
    ensures var t := Trace(old(converter.resolvedClasses.items), old(converter.reported), progress, None);
      var t' := Trace(converter.resolvedClasses.items, converter.reported, progress', failed);
      && (failed.Some? ==> Drain(ModuleDeclarations, converter.lookup, u, Some(x), old(converter.queue), t) == t')
      && (failed.None? ==>
            && Within(next, converter.queue, u)
            && Drain(ModuleDeclarations, converter.lookup, u, Some(x), old(converter.queue), t)
               == Drain(ModuleDeclarations, converter.lookup, u, next, converter.queue, t')
            && Smaller(u, next, converter.queue, t', Some(x), old(converter.queue), t))
    ensures declared' == Declared(converter.reported, convert)
  {
    LoopTurn(ModuleDeclarations, converter.lookup, u, x, converter.queue,
             Trace(converter.resolvedClasses.items, converter.reported, progress, None));
    declared', progress', failed := DeclarationTurn(converter, x, declared, convert, progress);
    if failed.Some? {
      return None, declared', progress', failed;
    }
    StackPop(ModuleDeclarations, converter.queue);
    next := converter.PopQueue();
  }

  /**
   * The loop of `createModuleDeclarationForClass` from the popped name
   * `cur` on: the converter ends where the run of the policy from that
   * point says, and the declarations follow the descriptors reported.
   */
  method DeclarationLoop(converter: ClassConverter, cur: Option<string>, declared: seq<ModuleDeclaration>,
                         convert: JavaClass -> seq<Option<Statement>>, progress: seq<Progress>, ghost u: set<string>)
    returns (declared': seq<ModuleDeclaration>, progress': seq<Progress>, failed: Option<string>)
    requires Within(cur, converter.queue, u) && ImportsWithin(converter.lookup, u)
    requires declared == Declared(converter.reported, convert)
    modifies converter, converter.resolvedClasses
    ensures Drain(ModuleDeclarations, converter.lookup, u, cur, old(converter.queue),
                  Trace(old(converter.resolvedClasses.items), old(converter.reported), progress, None))
         == Trace(converter.resolvedClasses.items, converter.reported, progress', failed)
    ensures declared' == Declared(converter.reported, convert)
  {
    ghost var goal := Drain(ModuleDeclarations, converter.lookup, u, cur, converter.queue,
                            Trace(converter.resolvedClasses.items, converter.reported, progress, None));
    var next := cur;
    declared' := declared;
    progress' := progress;
    ghost var t := Trace(converter.resolvedClasses.items, converter.reported, progress', None);
    ghost var q := converter.queue;
    while next.Some? && next.value != ""
      invariant t == Trace(converter.resolvedClasses.items, converter.reported, progress', None) && q == converter.queue
      invariant Within(next, q, u)
      invariant declared' == Declared(t.reported, convert)
      invariant Drain(ModuleDeclarations, converter.lookup, u, next, q, t) == goal
      decreases Unresolved(u, t), Repeats(next, q, t)
    {
      ghost var t0, q0, x := t, q, next.value;
      next, declared', progress', failed := DeclarationNext(converter, next.value, declared', convert, progress', u);
      if failed.Some? {
        return;
      }
      t := Trace(converter.resolvedClasses.items, converter.reported, progress', None);
      q := converter.queue;
      assert Smaller(u, next, q, t, Some(x), q0, t0);
    }
    DrainStops(ModuleDeclarations, converter.lookup, u, next, q, t);
    failed := None;
  }

  /**
   * `createModuleDeclarationForClass`: like `createDefinitionTree`, but a
   * pop that leaves at least one name takes the whole queue as a batch, and
   * each descriptor is converted as it is handed over. The declarations
   * follow the descriptors of the run in order.
   */
  method CreateModuleDeclarationForClass(name: Roots, lookup: Lookup, convert: JavaClass -> seq<Option<Statement>>,
                                         resolvedClasses: Names)
    returns (r: Result<seq<ModuleDeclaration>>, progress: seq<Progress>)
    modifies resolvedClasses
    ensures var t := Run(ModuleDeclarations, lookup, RootList(name), old(resolvedClasses.items));
      (resolvedClasses.items, progress, r) == Effect(t, Declared(t.reported, convert))
  {
    var converter := new ClassConverter(name, lookup, resolvedClasses);
    var cur := converter.PopQueue();
    RunStart(ModuleDeclarations, lookup, RootList(name), old(resolvedClasses.items));
    StackPop(ModuleDeclarations, RootList(name));
    var res, failed;
    res, progress, failed := DeclarationLoop(converter, cur, [], convert, [], Universe(RootList(name), lookup));
    r := if failed.Some? then Err(ClassNotFound(failed.value)) else Ok(res);
  }

  /** Each descriptor the reflection layer builds carries the name it was read under (`readClass(cls, name)`). */
  ghost predicate NamesAgree(lookup: Lookup) {
    forall k :: k in lookup ==> lookup[k].name == k
  }

  /**
   * A successful run declares, in order, exactly the names it resolved: the
   * `i`-th declaration is named after the `i`-th name added to the resolved
   * list and holds that class converted.
   */
  lemma DeclarationsFollowResolution(p: Policy, lookup: Lookup, roots: seq<string>, resolved: seq<string>,
                                     convert: JavaClass -> seq<Option<Statement>>)
    requires NamesAgree(lookup)
    ensures var t := Run(p, lookup, roots, resolved);
      var added := Since(t.resolved, |resolved|);
      var decls := Declared(t.reported, convert);
      t.failed.None? ==>
        && (forall y :: y in added ==> y in lookup)
        && |decls| == |added|
        && forall i :: 0 <= i < |added| ==> decls[i] == ModuleDeclaration(added[i], convert(lookup[added[i]]))
  {
    var t := Run(p, lookup, roots, resolved);
    var added := Since(t.resolved, |resolved|);
    RunReports(p, lookup, roots, resolved);
    if t.failed.None? {
      DeclaredAt(t.reported, convert);
      forall i | 0 <= i < |added|
        ensures Declared(t.reported, convert)[i] == ModuleDeclaration(added[i], convert(lookup[added[i]]))
      {
        LoadedAt(lookup, added, i);
      }
    }
  }

  /**
   * `createModuleDeclarationForClass` declares no class twice, and none the
   * caller had resolved already, when its roots are distinct and new.
   */
  lemma DeclaredOnce(lookup: Lookup, roots: seq<string>, resolved: seq<string>, convert: JavaClass -> seq<Option<Statement>>)
    requires NamesAgree(lookup) && ImportsDistinct(lookup)
    requires Util.Distinct(roots) && forall x :: x in roots ==> x !in resolved
    ensures var t := Run(ModuleDeclarations, lookup, roots, resolved);
      var decls := Declared(t.reported, convert);
      t.failed.None? ==>
        && (forall i, j :: 0 <= i < j < |decls| ==> decls[i].name != decls[j].name)
        && forall i :: 0 <= i < |decls| ==> decls[i].name !in resolved
  {
    var t := Run(ModuleDeclarations, lookup, roots, resolved);
    DeclarationsFollowResolution(ModuleDeclarations, lookup, roots, resolved, convert);
    RunOnce(ModuleDeclarations, lookup, roots, resolved);
    assert Since(t.resolved, |resolved|) == t.resolved[|resolved|..];
  }
}
