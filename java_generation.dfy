/**
 * The Java `Definitions.createSyntaxTree`: a FIFO queue of class names, a
 * hash set of resolved names seeded by the caller, and an optional consumer
 * that receives each resolved class, as JSON or as the object. The loop is
 * proved to compute exactly the run `Worklist.Run` describes for its policy.
 */
module JavaGeneration {
  import opened Wrappers
  import opened Types
  import opened Worklist
  import opened Turns
  import Runs
  import Either
  import Generation

  /** What the consumer receives for one class: its JSON form (left consumer) or the object (right consumer). */
  datatype Delivery = AsJson(c: JavaClass) | AsObject(c: JavaClass)

  /**
   * A possibly absent consumer; when present it holds a consumer on its
   * left side (of JSON strings), on its right side (of classes), or both.
   */
  type Consumer = Option<Either.Either<(), ()>>

  /** What the consumer receives for one resolved class: `acceptLeftIfPresent`, then `acceptRightIfPresent`. */
  function Deliver(consumer: Consumer, c: JavaClass): seq<Delivery> {
    match consumer
    case None => []
    case Some(e) =>
      (if |Either.AcceptLeftIfPresent(e)| == 1 then [AsJson(c)] else [])
      + (if |Either.AcceptRightIfPresent(e)| == 1 then [AsObject(c)] else [])
  }

  /** What the consumer receives for each class in turn. */
  function Deliveries(consumer: Consumer, cs: seq<JavaClass>): seq<Delivery> {
    if |cs| == 0 then [] else Deliveries(consumer, cs[..|cs| - 1]) + Deliver(consumer, cs[|cs| - 1])
  }

  lemma DeliveriesSnoc(consumer: Consumer, cs: seq<JavaClass>, c: JavaClass)
    ensures Deliveries(consumer, cs + [c]) == Deliveries(consumer, cs) + Deliver(consumer, c)
  {
    assert (cs + [c])[..|cs|] == cs;
  }

  /**
   * Without a consumer nothing is delivered; a consumer built by `left` or
   * `right` receives every class exactly once, in resolution order, in the
   * form its side asks for.
   */
  lemma {:induction false} DeliveriesAt(consumer: Consumer, cs: seq<JavaClass>)
    ensures consumer.None? ==> Deliveries(consumer, cs) == []
    ensures consumer.Some? && Either.Constructed(consumer.value) ==>
      && |Deliveries(consumer, cs)| == |cs|
      && forall i :: 0 <= i < |cs| ==>
           Deliveries(consumer, cs)[i] == (if Either.IsLeft(consumer.value) then AsJson(cs[i]) else AsObject(cs[i]))
  {
    if |cs| > 0 {
      var init := cs[..|cs| - 1];
      DeliveriesAt(consumer, init);
      assert forall i :: 0 <= i < |init| ==> init[i] == cs[i];
    }
  }

  /** The filter of the Java loop: a name is rejected when it is in the resolved set or waiting in the queue. */
  lemma CheckedAvoided(resolved: seq<string>, x: string, queue: seq<string>, known: set<string>)
    requires known == Elements(resolved)
    ensures Avoided(Runs.JavaSyntaxTree, resolved + [x], queue) == known + {x} + Elements(queue)
  {
    assert Elements(resolved + [x]) == Elements(resolved) + {x};
  }

  /**
   * One turn of the Java loop on the polled name `x`: mark it resolved,
   * read its class (or fail), hand it to the consumer, queue its imports
   * that are neither resolved nor waiting, and keep it.
   */
  method ReadTurn(lookup: Lookup, x: string, queue: seq<string>, resolvedClasses: set<string>, res: seq<JavaClass>,
                  delivered: seq<Delivery>, consumer: Consumer, ghost t: Trace)
    returns (queue': seq<string>, resolvedClasses': set<string>, res': seq<JavaClass>, delivered': seq<Delivery>, failed: Option<string>)
    requires t.reported == res && t.failed.None? && Elements(t.resolved) == resolvedClasses && delivered == Deliveries(consumer, res)
    ensures Step(Runs.JavaSyntaxTree, lookup, x, queue, t) == (queue', Trace(t.resolved + [x], res', t.progress + [One(x)], failed))
    ensures Elements(t.resolved + [x]) == resolvedClasses' && delivered' == Deliveries(consumer, res')
  {
    SingleStep(Runs.JavaSyntaxTree, lookup, x, queue, t);
    CheckedAvoided(t.resolved, x, queue, resolvedClasses);
    resolvedClasses' := resolvedClasses + {x};
    if x !in lookup {
      return queue, resolvedClasses', res, delivered, Some(x);
    }
    var resolved := lookup[x];
    DeliveriesSnoc(consumer, res, resolved);
    delivered' := delivered + Deliver(consumer, resolved);
    queue' := queue + Fresh(resolved.imports, resolvedClasses' + Elements(queue));
    res' := res + [resolved];
    failed := None;
  }

  /** The Java loop from the polled name `cur` on, proved against the run of its policy from that point. */
  method ReadLoop(lookup: Lookup, cur: Option<string>, queue: seq<string>, resolvedClasses: set<string>,
                  consumer: Consumer, ghost u: set<string>, ghost t0: Trace)
    returns (res: seq<JavaClass>, delivered: seq<Delivery>, failed: Option<string>)
    requires Within(cur, queue, u) && ImportsWithin(lookup, u)
    requires t0.reported == [] && t0.failed.None? && Elements(t0.resolved) == resolvedClasses
    ensures var t := Drain(Runs.JavaSyntaxTree, lookup, u, cur, queue, t0);
      (res, delivered, failed) == (t.reported, Deliveries(consumer, t.reported), t.failed)
  {
    ghost var goal := Drain(Runs.JavaSyntaxTree, lookup, u, cur, queue, t0);
    res := [];
    delivered := [];
    var next, rest, resolved := cur, queue, resolvedClasses;
    ghost var t := t0;
    while next.Some?
      invariant t.reported == res && t.failed.None? && Elements(t.resolved) == resolved
      invariant Within(next, rest, u)
      invariant delivered == Deliveries(consumer, res)
      invariant Drain(Runs.JavaSyntaxTree, lookup, u, next, rest, t) == goal
      decreases Unresolved(u, t), Repeats(next, rest, t)
    {
      LoopTurn(Runs.JavaSyntaxTree, lookup, u, next.value, rest, t);
      var q;
      q, resolved, res, delivered, failed := ReadTurn(lookup, next.value, rest, resolved, res, delivered, consumer, t);
      if failed.Some? {
        return;
      }
      t := Trace(t.resolved + [next.value], res, t.progress + [One(next.value)], None);
      QueuePoll(Runs.JavaSyntaxTree, q);
      if |q| > 0 {
        next, rest := Some(q[0]), q[1..];
      } else {
        next, rest := None, [];
      }
    }
    DrainStops(Runs.JavaSyntaxTree, lookup, u, next, rest, t);
    failed := None;
  }

  /**
   * `createSyntaxTree(name, alreadyResolvedClasses, consumer)`: poll a name,
   * mark it resolved, read its class (a class that cannot be read ends the
   * call with `ClassNotFoundException`), hand it to the consumer, queue its
   * imports that are neither resolved nor waiting, and keep it. The result
   * holds the roots and the classes of the run in order, and the consumer
   * receives exactly those classes.
   */
  method CreateSyntaxTree(name: seq<string>, alreadyResolvedClasses: seq<string>, consumer: Consumer, lookup: Lookup)
    returns (r: Result<JavaDefinitions>, delivered: seq<Delivery>)
    ensures var t := Run(Runs.JavaSyntaxTree, lookup, name, alreadyResolvedClasses);
      (r, delivered) == (Generation.Outcome(t, JavaDefinitions(name, t.reported)), Deliveries(consumer, t.reported))
  {
    var queue := name;
    var resolvedClasses := Elements(alreadyResolvedClasses);
    RunStart(Runs.JavaSyntaxTree, lookup, name, alreadyResolvedClasses);
    QueuePoll(Runs.JavaSyntaxTree, name);
    var cur: Option<string> := None;
    if |queue| > 0 {
      cur, queue := Some(queue[0]), queue[1..];
    }
    var res, failed;
    res, delivered, failed := ReadLoop(lookup, cur, queue, resolvedClasses, consumer, Universe(name, lookup),
                                       Trace(alreadyResolvedClasses, [], [], None));
    r := if failed.Some? then Err(ClassNotFound(failed.value)) else Ok(JavaDefinitions(name, res));
  }

  /** `createSyntaxTree(String... name)`: nothing resolved beforehand and no consumer. */
  method CreateSyntaxTreeOf(name: seq<string>, lookup: Lookup) returns (r: Result<JavaDefinitions>)
    ensures var t := Run(Runs.JavaSyntaxTree, lookup, name, []);
      r == Generation.Outcome(t, JavaDefinitions(name, t.reported))
  {
    var delivered;
    r, delivered := CreateSyntaxTree(name, [], None, lookup);
  }
}
