/**
 * The older TypeScript `Definitions` class: the same drivers as
 * `JavaDefinitions`, over the older `ClassConverter` (one root, a private
 * resolved list that starts empty, and an enqueue filter that checks only
 * that list). Each loop is proved to compute exactly the run
 * `Worklist.Run` describes for its policy.
 */
module OldGeneration {
  import opened Wrappers
  import opened Types
  import opened TsAst
  import opened Worklist
  import Runs
  import opened OldResolver
  import opened Turns
  import Generation

  /** The older definitions record: a single root name and the descriptors. */
  datatype Definitions = Definitions(root: string, classes: seq<JavaClass>)

  /** What `fromJavaDefinitions` is given: an instance, or a plain record of the same shape. */
  datatype DefinitionsSource = Instance(defs: Definitions) | Plain(root: string, classes: seq<JavaClass>)

  /** `fromJavaDefinitions`: an instance is returned itself, a record is wrapped field by field. */
  function FromJavaDefinitions(src: DefinitionsSource): Definitions {
    match src
    case Instance(defs) => defs
    case Plain(root, classes) => Definitions(root, classes)
  }

  /** `convert`: every class of the definitions, converted in order; the callback hears each name. */
  function Convert(defs: Definitions, convert: JavaClass -> seq<Option<Statement>>): (seq<Generation.ModuleDeclaration>, seq<Progress>) {
    (Generation.Declared(defs.classes, convert), Generation.Announced(defs.classes))
  }

  /** The callback of `convert` hears the name of each declaration it returns, in the same order, and each declaration holds its class converted. */
  lemma ConvertAnnounces(defs: Definitions, convert: JavaClass -> seq<Option<Statement>>)
    ensures var (decls, heard) := Convert(defs, convert);
      |heard| == |decls| == |defs.classes|
      && forall i :: 0 <= i < |decls| ==>
           heard[i] == One(defs.classes[i].name) && decls[i] == Generation.ModuleDeclaration(defs.classes[i].name, convert(defs.classes[i]))
  {
    Generation.DeclaredAt(defs.classes, convert);
    Generation.AnnouncedAt(defs.classes);
  }

  /** One turn of the loop of `createSyntaxTree` on the popped name `x`: the callback hears of it, then it is resolved. */
  method SyntaxTreeTurn(converter: ClassConverter, x: string, progress: seq<Progress>)
    returns (progress': seq<Progress>, failed: Option<string>)
    modifies converter
    ensures Step(Runs.SyntaxTree, converter.lookup, x, old(converter.queue),
                 Trace(old(converter.resolvedClasses), old(converter.reported), progress, None))
         == (converter.queue, Trace(converter.resolvedClasses, converter.reported, progress', failed))
  {
    SingleStep(Runs.SyntaxTree, converter.lookup, x, converter.queue,
               Trace(converter.resolvedClasses, converter.reported, progress, None));
    progress' := progress + [One(x)];
    UncheckedAvoided(Runs.SyntaxTree, converter.resolvedClasses + [x], converter.queue);
    var loaded := converter.CreateClassDefinitionTree(x);
    failed := if loaded.Err? then Some(x) else None;
  }

  /**
   * The loop of `createSyntaxTree` from the popped name `cur` on: the
   * converter ends where the run of the policy from that point says, and
   * the name that failed to load, if any, is returned.
   */
  method SyntaxTreeLoop(converter: ClassConverter, cur: Option<string>, progress: seq<Progress>, ghost u: set<string>)
    returns (progress': seq<Progress>, failed: Option<string>)
    requires Within(cur, converter.queue, u) && ImportsWithin(converter.lookup, u)
    modifies converter
    ensures Drain(Runs.SyntaxTree, converter.lookup, u, cur, old(converter.queue),
                  Trace(old(converter.resolvedClasses), old(converter.reported), progress, None))
         == Trace(converter.resolvedClasses, converter.reported, progress', failed)
  {
    ghost var goal := Drain(Runs.SyntaxTree, converter.lookup, u, cur, converter.queue,
                            Trace(converter.resolvedClasses, converter.reported, progress, None));
    var next := cur;
    progress' := progress;
    ghost var t := Trace(converter.resolvedClasses, converter.reported, progress', None);
    ghost var q := converter.queue;
    while next.Some? && next.value != ""
      invariant t == Trace(converter.resolvedClasses, converter.reported, progress', None) && q == converter.queue
      invariant Within(next, q, u)
      invariant Drain(Runs.SyntaxTree, converter.lookup, u, next, q, t) == goal
      decreases Unresolved(u, t), Repeats(next, q, t)
    {
      LoopTurn(Runs.SyntaxTree, converter.lookup, u, next.value, q, t);
      progress', failed := SyntaxTreeTurn(converter, next.value, progress');
      if failed.Some? {
        return;
      }
      ghost var q' := converter.queue;
      next := converter.PopQueue();
      StackPop(Runs.SyntaxTree, q');
      t := Trace(converter.resolvedClasses, converter.reported, progress', None);
      q := converter.queue;
    }
    DrainStops(Runs.SyntaxTree, converter.lookup, u, next, q, t);
    failed := None;
  }

  /**
   * `createSyntaxTree`: pop a name, tell the callback, resolve it, until the
   * queue is empty or an empty name is popped. The resolved list starts
   * empty; the callback log ends as the run of its policy says, and the
   * result holds the root and the descriptors in resolution order.
   */
  method CreateSyntaxTree(name: string, lookup: Lookup) returns (r: Result<Definitions>, progress: seq<Progress>)
    ensures var t := Run(Runs.SyntaxTree, lookup, [name], []);
      (progress, r) == (t.progress, Generation.Outcome(t, Definitions(name, t.reported)))
  {
    var converter := new ClassConverter(name, lookup);
    var cur := converter.PopQueue();
    RunStart(Runs.SyntaxTree, lookup, [name], []);
    StackPop(Runs.SyntaxTree, [name]);
    var failed;
    progress, failed := SyntaxTreeLoop(converter, cur, [], Universe([name], lookup));
    r := if failed.Some? then Err(ClassNotFound(failed.value)) else Ok(Definitions(name, converter.reported));
  }

  /**
   * The batch branch of `readAndConvert`: every name of the batch is
   * recorded before any is loaded, then the continuations complete in
   * batch order, each converting its class, up to the first failure.
   */
  method ResolveBatch(converter: ClassConverter, names: seq<string>, declared: seq<Generation.ModuleDeclaration>,
                      convert: JavaClass -> seq<Option<Statement>>, ghost progress: seq<Progress>)
    returns (declared': seq<Generation.ModuleDeclaration>, failed: Option<string>)
    requires converter.queue == [] && declared == Generation.Declared(converter.reported, convert)
    modifies converter
    ensures FinishAll(Runs.ReadAndConvert, converter.lookup, names, [],
                      Trace(old(converter.resolvedClasses) + names, old(converter.reported), progress, None))
         == (converter.queue, Trace(converter.resolvedClasses, converter.reported, progress, failed))
    ensures declared' == Generation.Declared(converter.reported, convert)
  {
    var i := 0;
    while i < |names|
      invariant 0 <= i <= |names|
      invariant converter.resolvedClasses == old(converter.resolvedClasses) + names[..i]
      invariant converter.queue == [] && converter.reported == old(converter.reported)
    {
      converter.Record(names[i]);
      assert names[..i + 1] == names[..i] + [names[i]];
      i := i + 1;
    }
    assert names[..|names|] == names;
    ghost var resolved := converter.resolvedClasses;
    ghost var t := Trace(resolved, converter.reported, progress, None);
    ghost var q := converter.queue;
    ghost var goal := FinishAll(Runs.ReadAndConvert, converter.lookup, names, q, t);
    declared' := declared;
    var j := 0;
    while j < |names|
      invariant 0 <= j <= |names|
      invariant t == Trace(converter.resolvedClasses, converter.reported, progress, None) && q == converter.queue
      invariant t.resolved == resolved
      invariant declared' == Generation.Declared(t.reported, convert)
      invariant FinishAll(Runs.ReadAndConvert, converter.lookup, names[j..], q, t) == goal
    {
      FinishAllFrom(Runs.ReadAndConvert, converter.lookup, names, j, q, t);
      UncheckedAvoided(Runs.ReadAndConvert, t.resolved, q);
      var loaded := converter.Complete(names[j]);
      if loaded.Err? {
        return declared', Some(names[j]);
      }
      Generation.DeclaredSnoc(t.reported, loaded.value, convert);
      declared' := declared' + [Generation.ModuleDeclaration(loaded.value.name, convert(loaded.value))];
      t := Trace(converter.resolvedClasses, converter.reported, progress, None);
      q := converter.queue;
      j := j + 1;
    }
    failed := None;
  }

  /**
   * One turn of the loop of `readAndConvert` on the popped name `x`: when
   * more than one name is still queued, `x` and the whole queue go as one
   * batch; otherwise `x` alone. Either way the callback hears of it first,
   * and each loaded descriptor is converted.
   */
  method ReadAndConvertTurn(converter: ClassConverter, x: string, declared: seq<Generation.ModuleDeclaration>,
                            convert: JavaClass -> seq<Option<Statement>>, progress: seq<Progress>)
    returns (declared': seq<Generation.ModuleDeclaration>, progress': seq<Progress>, failed: Option<string>)
    requires declared == Generation.Declared(converter.reported, convert)
    modifies converter
    ensures Step(Runs.ReadAndConvert, converter.lookup, x, old(converter.queue),
                 Trace(old(converter.resolvedClasses), old(converter.reported), progress, None))
         == (converter.queue, Trace(converter.resolvedClasses, converter.reported, progress', failed))
    ensures declared' == Generation.Declared(converter.reported, convert)
  {
    if converter.QueueLength() > 1 {
      BatchStep(Runs.ReadAndConvert, converter.lookup, x, converter.queue,
                Trace(converter.resolvedClasses, converter.reported, progress, None));
      var queueCopy := [x] + converter.queue;
      converter.ClearQueue();
      progress' := progress + [Batch(queueCopy)];
      declared', failed := ResolveBatch(converter, queueCopy, declared, convert, progress');
    } else {
      SingleStep(Runs.ReadAndConvert, converter.lookup, x, converter.queue,
                 Trace(converter.resolvedClasses, converter.reported, progress, None));
      progress' := progress + [One(x)];
      UncheckedAvoided(Runs.ReadAndConvert, converter.resolvedClasses + [x], converter.queue);
      var loaded := converter.CreateClassDefinitionTree(x);
      if loaded.Err? {
        return declared, progress', Some(x);
      }
      Generation.DeclaredSnoc(old(converter.reported), loaded.value, convert);
      declared' := declared + [Generation.ModuleDeclaration(loaded.value.name, convert(loaded.value))];
      failed := None;
    }
  }

  /** The loop of `readAndConvert` from the popped name `cur` on, proved against the run of its policy from that point. */
  method ReadAndConvertLoop(converter: ClassConverter, cur: Option<string>, convert: JavaClass -> seq<Option<Statement>>,
                            progress: seq<Progress>, ghost u: set<string>)
    returns (declared: seq<Generation.ModuleDeclaration>, progress': seq<Progress>, failed: Option<string>)
    requires Within(cur, converter.queue, u) && ImportsWithin(converter.lookup, u) && converter.reported == []
    modifies converter
    ensures Drain(Runs.ReadAndConvert, converter.lookup, u, cur, old(converter.queue),
                  Trace(old(converter.resolvedClasses), [], progress, None))
         == Trace(converter.resolvedClasses, converter.reported, progress', failed)
    ensures declared == Generation.Declared(converter.reported, convert)
  {
    ghost var goal := Drain(Runs.ReadAndConvert, converter.lookup, u, cur, converter.queue,
                            Trace(converter.resolvedClasses, [], progress, None));
    var next := cur;
    progress' := progress;
    declared := [];
    ghost var t := Trace(converter.resolvedClasses, converter.reported, progress', None);
    ghost var q := converter.queue;
    while next.Some? && next.value != ""
      invariant t == Trace(converter.resolvedClasses, converter.reported, progress', None) && q == converter.queue
      invariant Within(next, q, u)
      invariant declared == Generation.Declared(t.reported, convert)
      invariant Drain(Runs.ReadAndConvert, converter.lookup, u, next, q, t) == goal
      decreases Unresolved(u, t), Repeats(next, q, t)
    {
      LoopTurn(Runs.ReadAndConvert, converter.lookup, u, next.value, q, t);
      declared, progress', failed := ReadAndConvertTurn(converter, next.value, declared, convert, progress');
      if failed.Some? {
        return;
      }
      ghost var q' := converter.queue;
      next := converter.PopQueue();
      StackPop(Runs.ReadAndConvert, q');
      t := Trace(converter.resolvedClasses, converter.reported, progress', None);
      q := converter.queue;
    }
    DrainStops(Runs.ReadAndConvert, converter.lookup, u, next, q, t);
    failed := None;
  }

  /**
   * `readAndConvert`: like `createSyntaxTree`, but a pop that leaves more
   * than one name takes the whole queue as a batch, and each descriptor is
   * converted as it is handed over. The declarations follow the
   * descriptors of the run in order.
   */
  method ReadAndConvert(name: string, lookup: Lookup, convert: JavaClass -> seq<Option<Statement>>)
    returns (r: Result<seq<Generation.ModuleDeclaration>>, progress: seq<Progress>)
    ensures var t := Run(Runs.ReadAndConvert, lookup, [name], []);
      (progress, r) == (t.progress, Generation.Outcome(t, Generation.Declared(t.reported, convert)))
  {
    var converter := new ClassConverter(name, lookup);
    var cur := converter.PopQueue();
    RunStart(Runs.ReadAndConvert, lookup, [name], []);
    StackPop(Runs.ReadAndConvert, [name]);
    var res, failed;
    res, progress, failed := ReadAndConvertLoop(converter, cur, convert, [], Universe([name], lookup));
    r := if failed.Some? then Err(ClassNotFound(failed.value)) else Ok(res);
  }
}
