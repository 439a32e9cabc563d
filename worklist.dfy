/**
 * The class-graph worklist that every resolver of the generator runs: pop a
 * name, record it as resolved, load its descriptor, hand the descriptor to
 * the caller and queue the imports not yet known. The resolvers differ only
 * in a few choices, gathered in a `Policy`: whether a queued name blocks a
 * second enqueue, whether the queue is a stack or a FIFO, whether the rest of
 * the queue is taken as a batch, and whether an empty name ends the loop.
 */
module Worklist {
  import opened Wrappers
  import opened Types
  import Util

  /** What the reflection layer yields for each name it can load: the descriptor `readClass` builds. */
  type Lookup = map<string, JavaClass>

  function Elements(s: seq<string>): set<string> {
    set x | x in s
  }

  /** Every name bound to be met is one of these. */
  ghost predicate ImportsWithin(lookup: Lookup, u: set<string>) {
    forall k, x :: k in lookup && x in lookup[k].imports ==> x in u
  }

  /** The roots and every import of every loadable class: a finite set, which is why every run ends. */
  function Universe(roots: seq<string>, lookup: Lookup): (u: set<string>)
    ensures forall r :: r in roots ==> r in u
    ensures ImportsWithin(lookup, u)
  {
    Elements(roots) + set k, x | k in lookup && x in lookup[k].imports :: x
  }

  /** How a resolver differs from the others. */
  datatype Policy = Policy(
    checksQueue: bool,        // an import already waiting in the queue is not queued again
    fifo: bool,               // the queue is polled at the front (otherwise popped at the back)
    batchFrom: Option<nat>,   // with `Some(n)`, a pop that leaves at least `n` names takes them all as one batch
    stopsOnEmpty: bool)       // `while (cur)`: a popped empty name ends the loop like an empty queue

  /** What the caller's progress callback receives: one name, or a whole batch. */
  datatype Progress = One(name: string) | Batch(names: seq<string>)

  /** The observable effect of a run: the resolved list, the descriptors handed over, the callback log, and the name that failed to load. */
  datatype Trace = Trace(resolved: seq<string>, reported: seq<JavaClass>, progress: seq<Progress>, failed: Option<string>)

  /** The names still to be processed: the popped one, then the queue. */
  function Pending(cur: Option<string>, queue: seq<string>): seq<string> {
    (if cur.Some? then [cur.value] else []) + queue
  }

  /** The imports that pass the enqueue filter, in import order. */
  function Fresh(imports: seq<string>, known: set<string>): (r: seq<string>)
    ensures forall x :: x in r <==> x in imports && x !in known
    ensures |r| <= |imports|
  {
    if |imports| == 0 then []
    else (if imports[0] in known then [] else [imports[0]]) + Fresh(imports[1..], known)
  }

  /** The names the enqueue filter rejects: the resolved ones and, when the policy says so, the queued ones. */
  function Avoided(p: Policy, resolved: seq<string>, queue: seq<string>): set<string> {
    Elements(resolved) + (if p.checksQueue then Elements(queue) else {})
  }

  /** `popQueue` (or `poll`): the next name and the rest, or nothing when the queue is empty. */
  function Pop(p: Policy, queue: seq<string>): (r: (Option<string>, seq<string>))
    ensures r.0.None? <==> |queue| == 0
    ensures r.0.Some? ==> r.0.value == (if p.fifo then queue[0] else queue[|queue| - 1])
  {
    if |queue| == 0 then (None, [])
    else if p.fifo then (Some(queue[0]), queue[1..])
    else (Some(queue[|queue| - 1]), queue[..|queue| - 1])
  }

  /** Popping loses no name and adds none: the popped name and the rest are the queue, reordered. */
  lemma PopPending(p: Policy, queue: seq<string>)
    ensures multiset(Pending(Pop(p, queue).0, Pop(p, queue).1)) == multiset(queue)
  {
    if |queue| > 0 {
      if p.fifo {
        assert queue == [queue[0]] + queue[1..];
      } else {
        assert queue == queue[..|queue| - 1] + [queue[|queue| - 1]];
      }
    }
  }

  /**
   * The part of `createClassDefinitionTree` after the name is recorded: load
   * the descriptor (or fail), hand it over, and queue its imports that pass
   * the filter.
   */
  function Finish(p: Policy, lookup: Lookup, x: string, queue: seq<string>, t: Trace): (seq<string>, Trace) {
    if x in lookup then
      (queue + Fresh(lookup[x].imports, Avoided(p, t.resolved, queue)), t.(reported := t.reported + [lookup[x]]))
    else
      (queue, t.(failed := Some(x)))
  }

  /** The continuations of a batch, one after another, up to the first name that fails to load. */
  function FinishAll(p: Policy, lookup: Lookup, names: seq<string>, queue: seq<string>, t: Trace): (seq<string>, Trace)
    decreases |names|
  {
    if |names| == 0 then (queue, t)
    else
      var (q, t') := Finish(p, lookup, names[0], queue, t);
      if t'.failed.Some? then (q, t') else FinishAll(p, lookup, names[1..], q, t')
  }

  /**
   * One turn of the loop for the popped name `x`: either `x` and the whole
   * rest of the queue as a batch, every name recorded before any is loaded,
   * or `x` alone.
   */
  function Step(p: Policy, lookup: Lookup, x: string, queue: seq<string>, t: Trace): (seq<string>, Trace) {
    if p.batchFrom.Some? && |queue| >= p.batchFrom.value then
      var names := [x] + queue;
      FinishAll(p, lookup, names, [], t.(resolved := t.resolved + names, progress := t.progress + [Batch(names)]))
    else
      Finish(p, lookup, x, queue, t.(resolved := t.resolved + [x], progress := t.progress + [One(x)]))
  }

  ghost predicate Within(cur: Option<string>, queue: seq<string>, u: set<string>) {
    (cur.Some? ==> cur.value in u) && forall q :: q in queue ==> q in u
  }

  /** How many pending names are already resolved. */
  function CountIn(s: seq<string>, known: set<string>): nat {
    if |s| == 0 then 0 else (if s[0] in known then 1 else 0) + CountIn(s[1..], known)
  }

  /**
   * The loop from a popped name `cur` on, until the queue runs dry, an empty
   * name is popped under `while (cur)`, or a name fails to load. It ends
   * because every turn either resolves a name of the finite universe for the
   * first time or removes a name that was resolved already.
   */
  function Drain(p: Policy, lookup: Lookup, u: set<string>, cur: Option<string>, queue: seq<string>, t: Trace): Trace
    requires Within(cur, queue, u) && ImportsWithin(lookup, u) && t.failed.None?
    decreases |u - Elements(t.resolved)|, CountIn(Pending(cur, queue), Elements(t.resolved))
  {
    if cur.None? || (p.stopsOnEmpty && cur.value == "") then t
    else
      var (q, t') := Step(p, lookup, cur.value, queue, t);
      if t'.failed.Some? then t'
      else
        var (c, rest) := Pop(p, q);
        StepDecreases(p, lookup, u, cur.value, queue, t);
        Drain(p, lookup, u, c, rest, t')
  }

  /** A whole run from the initial queue. */
  function Run(p: Policy, lookup: Lookup, roots: seq<string>, resolved: seq<string>): Trace {
    var (c, rest) := Pop(p, roots);
    Drain(p, lookup, Universe(roots, lookup), c, rest, Trace(resolved, [], [], None))
  }

  // ---------------------------------------------------------------------
  // Facts about one turn
  // ---------------------------------------------------------------------

  /** `Finish` leaves the resolved list and the callback log alone and only appends names that are neither resolved nor outside the universe. */
  lemma FinishPushes(p: Policy, lookup: Lookup, u: set<string>, x: string, queue: seq<string>, t: Trace)
    requires ImportsWithin(lookup, u)
    ensures var (q, t') := Finish(p, lookup, x, queue, t);
      && t'.resolved == t.resolved && t'.progress == t.progress && t.reported <= t'.reported
      && |q| >= |queue| && q == queue + q[|queue|..]
      && (forall y :: y in q[|queue|..] ==> y !in Elements(t.resolved) && y in u)
  {
    if x in lookup {
      var f := Fresh(lookup[x].imports, Avoided(p, t.resolved, queue));
      assert (queue + f)[|queue|..] == f;
    } else {
      assert queue[|queue|..] == [];
    }
  }

  /** The same for a whole batch of continuations. */
  lemma {:induction false} FinishAllPushes(p: Policy, lookup: Lookup, u: set<string>, names: seq<string>, queue: seq<string>, t: Trace)
    requires ImportsWithin(lookup, u)
    ensures var (q, t') := FinishAll(p, lookup, names, queue, t);
      && t'.resolved == t.resolved && t'.progress == t.progress && t.reported <= t'.reported
      && |q| >= |queue| && q == queue + q[|queue|..]
      && (forall y :: y in q[|queue|..] ==> y !in Elements(t.resolved) && y in u)
    decreases |names|
  {
    if |names| == 0 {
      assert queue[|queue|..] == [];
    } else {
      var (q1, t1) := Finish(p, lookup, names[0], queue, t);
      FinishPushes(p, lookup, u, names[0], queue, t);
      if t1.failed.None? {
        FinishAllPushes(p, lookup, u, names[1..], q1, t1);
        var (q2, t2) := FinishAll(p, lookup, names[1..], q1, t1);
        PushesCompose(queue, q1, q2, Elements(t.resolved), u);
      }
    }
  }

  /** Two rounds of appending names that are neither resolved nor outside the universe are one such round. */
  lemma PushesCompose(q0: seq<string>, q1: seq<string>, q2: seq<string>, r: set<string>, u: set<string>)
    requires |q1| >= |q0| && q1 == q0 + q1[|q0|..] && (forall y :: y in q1[|q0|..] ==> y !in r && y in u)
    requires |q2| >= |q1| && q2 == q1 + q2[|q1|..] && (forall y :: y in q2[|q1|..] ==> y !in r && y in u)
    ensures |q2| >= |q0| && q2 == q0 + q2[|q0|..] && (forall y :: y in q2[|q0|..] ==> y !in r && y in u)
  {
    assert q2[|q0|..] == q1[|q0|..] + q2[|q1|..];
  }

  lemma {:induction false} CountInAppend(a: seq<string>, b: seq<string>, known: set<string>)
    ensures CountIn(a + b, known) == CountIn(a, known) + CountIn(b, known)
    decreases |a|
  {
    if |a| > 0 {
      assert (a + b)[0] == a[0];
      assert (a + b)[1..] == a[1..] + b;
      CountInAppend(a[1..], b, known);
    } else {
      assert a + b == b;
    }
  }

  lemma {:induction false} CountInNone(s: seq<string>, known: set<string>)
    requires forall i :: 0 <= i < |s| ==> s[i] !in known
    ensures CountIn(s, known) == 0
    decreases |s|
  {
    if |s| > 0 {
      CountInNone(s[1..], known);
    }
  }

  /** Popping neither adds nor removes a resolved name from the pending ones. */
  lemma PopKeepsCount(p: Policy, q: seq<string>, known: set<string>)
    ensures CountIn(Pending(Pop(p, q).0, Pop(p, q).1), known) == CountIn(q, known)
  {
    if |q| > 0 && !p.fifo {
      var last := q[|q| - 1];
      assert q == q[..|q| - 1] + [last];
      CountInAppend(q[..|q| - 1], [last], known);
      CountInAppend([last], q[..|q| - 1], known);
    }
  }

  /** Popping keeps every pending name within the universe. */
  lemma PopWithin(p: Policy, q: seq<string>, u: set<string>)
    requires forall y :: y in q ==> y in u
    ensures Within(Pop(p, q).0, Pop(p, q).1, u)
  {
    var (c, rest) := Pop(p, q);
    PopPending(p, q);
    forall y | y in rest ensures y in u {
      assert y in multiset(Pending(c, rest));
    }
  }

  /** Taking names from the universe into the resolved list shrinks what is left of it. */
  lemma ResolvingShrinks(u: set<string>, r: set<string>, r': set<string>, n: string)
    requires r <= r' && n in u && n in r' && n !in r
    ensures |u - r'| < |u - r|
  {
    var gone := (u - r) - (u - r');
    assert u - r == (u - r') + gone;
    assert (u - r') * gone == {};
    assert n in gone;
    assert |{n}| <= |gone|;
  }

  /** One turn decreases the measure of `Drain` and keeps the pending names within the universe. */
  lemma StepDecreases(p: Policy, lookup: Lookup, u: set<string>, x: string, queue: seq<string>, t: Trace)
    requires x in u && (forall y :: y in queue ==> y in u) && ImportsWithin(lookup, u)
    ensures var (q, t') := Step(p, lookup, x, queue, t);
      var (c, rest) := Pop(p, q);
      && Within(c, rest, u)
      && (|u - Elements(t'.resolved)| < |u - Elements(t.resolved)|
          || (|u - Elements(t'.resolved)| == |u - Elements(t.resolved)|
              && CountIn(Pending(c, rest), Elements(t'.resolved)) < CountIn(Pending(Some(x), queue), Elements(t.resolved))))
  {
    var (q, t') := Step(p, lookup, x, queue, t);
    PopKeepsCount(p, q, Elements(t'.resolved));
    if p.batchFrom.Some? && |queue| >= p.batchFrom.value {
      BatchDecreases(p, lookup, u, x, queue, t);
    } else {
      SingleDecreases(p, lookup, u, x, queue, t);
    }
    PopWithin(p, q, u);
  }

  /** A batch turn leaves no resolved name pending, and resolves a new name unless every batch name was resolved already. */
  lemma BatchDecreases(p: Policy, lookup: Lookup, u: set<string>, x: string, queue: seq<string>, t: Trace)
    requires x in u && (forall y :: y in queue ==> y in u) && ImportsWithin(lookup, u)
    ensures var names := [x] + queue;
      var (q, t') := FinishAll(p, lookup, names, [], t.(resolved := t.resolved + names, progress := t.progress + [Batch(names)]));
      && (forall y :: y in q ==> y in u)
      && (|u - Elements(t'.resolved)| < |u - Elements(t.resolved)|
          || (|u - Elements(t'.resolved)| == |u - Elements(t.resolved)|
              && CountIn(q, Elements(t'.resolved)) < CountIn(Pending(Some(x), queue), Elements(t.resolved))))
  {
    var names := [x] + queue;
    var t1 := t.(resolved := t.resolved + names, progress := t.progress + [Batch(names)]);
    var (q, t') := FinishAll(p, lookup, names, [], t1);
    FinishAllPushes(p, lookup, u, names, [], t1);
    var r := Elements(t.resolved);
    var r' := Elements(t'.resolved);
    assert r' == r + Elements(names);
    assert q[0..] == q;
    CountInNone(q, r');
    if n :| n in names && n !in r {
      ResolvingShrinks(u, r, r', n);
    } else {
      assert r' == r;
      assert Pending(Some(x), queue)[0] == x;
    }
  }

  /** A single turn leaves the pending count unchanged or lower, and lower when the name was resolved already. */
  lemma SingleDecreases(p: Policy, lookup: Lookup, u: set<string>, x: string, queue: seq<string>, t: Trace)
    requires x in u && (forall y :: y in queue ==> y in u) && ImportsWithin(lookup, u)
    ensures var (q, t') := Finish(p, lookup, x, queue, t.(resolved := t.resolved + [x], progress := t.progress + [One(x)]));
      && (forall y :: y in q ==> y in u)
      && (|u - Elements(t'.resolved)| < |u - Elements(t.resolved)|
          || (|u - Elements(t'.resolved)| == |u - Elements(t.resolved)|
              && CountIn(q, Elements(t'.resolved)) < CountIn(Pending(Some(x), queue), Elements(t.resolved))))
  {
    var t1 := t.(resolved := t.resolved + [x], progress := t.progress + [One(x)]);
    var (q, t') := Finish(p, lookup, x, queue, t1);
    FinishPushes(p, lookup, u, x, queue, t1);
    assert Elements(t'.resolved) == Elements(t.resolved) + {x};
    assert Pending(Some(x), queue) == [x] + queue;
    SingleMeasure(u, Elements(t.resolved), x, queue, q[|queue|..]);
  }

  /** The measure step of a single turn, on plain values. */
  lemma SingleMeasure(u: set<string>, r: set<string>, x: string, queue: seq<string>, added: seq<string>)
    requires x in u && forall y :: y in added ==> y !in r + {x}
    ensures |u - (r + {x})| < |u - r|
         || (|u - (r + {x})| == |u - r| && CountIn(queue + added, r + {x}) < CountIn([x] + queue, r))
  {
    CountInAppend(queue, added, r + {x});
    CountInNone(added, r + {x});
    if x !in r {
      ResolvingShrinks(u, r, r + {x}, x);
    } else {
      assert r + {x} == r;
      assert ([x] + queue)[1..] == queue;
    }
  }

  // ---------------------------------------------------------------------
  // What a run promises
  // ---------------------------------------------------------------------

  /** Every turn only appends to the resolved list, the descriptors handed over and the callback log. */
  lemma StepGrows(p: Policy, lookup: Lookup, u: set<string>, x: string, queue: seq<string>, t: Trace)
    requires ImportsWithin(lookup, u)
    ensures var t' := Step(p, lookup, x, queue, t).1;
      t.resolved < t'.resolved && t.reported <= t'.reported && t.progress < t'.progress
  {
    if p.batchFrom.Some? && |queue| >= p.batchFrom.value {
      var names := [x] + queue;
      FinishAllPushes(p, lookup, u, names, [], t.(resolved := t.resolved + names, progress := t.progress + [Batch(names)]));
      ProperPrefix(t.resolved, names);
      ProperPrefix(t.progress, [Batch(names)]);
    } else {
      FinishPushes(p, lookup, u, x, queue, t.(resolved := t.resolved + [x], progress := t.progress + [One(x)]));
      ProperPrefix(t.resolved, [x]);
      ProperPrefix(t.progress, [One(x)]);
    }
  }

  lemma ProperPrefix<T>(a: seq<T>, b: seq<T>)
    requires |b| > 0
    ensures a < a + b
  {
    assert (a + b)[..|a|] == a;
  }

  /**
   * `resolvedClasses` only grows: a run appends to the list it is given and
   * never removes or reorders a name; the descriptors and callback calls
   * only accumulate too.
   */
  lemma {:induction false} DrainGrows(p: Policy, lookup: Lookup, u: set<string>, cur: Option<string>, queue: seq<string>, t: Trace)
    requires Within(cur, queue, u) && ImportsWithin(lookup, u) && t.failed.None?
    ensures var r := Drain(p, lookup, u, cur, queue, t);
      t.resolved <= r.resolved && t.reported <= r.reported && t.progress <= r.progress
    decreases |u - Elements(t.resolved)|, CountIn(Pending(cur, queue), Elements(t.resolved))
  {
    if cur.Some? && !(p.stopsOnEmpty && cur.value == "") {
      var (q, t') := Step(p, lookup, cur.value, queue, t);
      StepGrows(p, lookup, u, cur.value, queue, t);
      if t'.failed.None? {
        var (c, rest) := Pop(p, q);
        StepDecreases(p, lookup, u, cur.value, queue, t);
        DrainGrows(p, lookup, u, c, rest, t');
      }
    }
  }

  /** Every import of every descriptor handed over is resolved or still pending. */
  ghost predicate Closed(reported: seq<JavaClass>, known: set<string>, pending: seq<string>) {
    forall c, i :: c in reported && i in c.imports ==> i in known || i in pending
  }

  lemma FinishClosed(p: Policy, lookup: Lookup, x: string, queue: seq<string>, t: Trace)
    requires Closed(t.reported, Elements(t.resolved), queue)
    ensures var (q, t') := Finish(p, lookup, x, queue, t);
      Closed(t'.reported, Elements(t'.resolved), q)
  {
  }

  lemma {:induction false} FinishAllClosed(p: Policy, lookup: Lookup, names: seq<string>, queue: seq<string>, t: Trace)
    requires Closed(t.reported, Elements(t.resolved), queue)
    ensures var (q, t') := FinishAll(p, lookup, names, queue, t);
      Closed(t'.reported, Elements(t'.resolved), q)
    decreases |names|
  {
    if |names| > 0 {
      var (q1, t1) := Finish(p, lookup, names[0], queue, t);
      FinishClosed(p, lookup, names[0], queue, t);
      if t1.failed.None? {
        FinishAllClosed(p, lookup, names[1..], q1, t1);
      }
    }
  }

  /** A turn keeps every handed-over descriptor's imports resolved or pending. */
  lemma StepClosed(p: Policy, lookup: Lookup, x: string, queue: seq<string>, t: Trace)
    requires Closed(t.reported, Elements(t.resolved), Pending(Some(x), queue))
    ensures var (q, t') := Step(p, lookup, x, queue, t);
      var (c, rest) := Pop(p, q);
      Closed(t'.reported, Elements(t'.resolved), Pending(c, rest))
  {
    var (q, t') := Step(p, lookup, x, queue, t);
    if p.batchFrom.Some? && |queue| >= p.batchFrom.value {
      var names := [x] + queue;
      var t1 := t.(resolved := t.resolved + names, progress := t.progress + [Batch(names)]);
      forall c, i | c in t1.reported && i in c.imports ensures i in Elements(t1.resolved) {
        assert i in Elements(t.resolved) || i in names;
      }
      FinishAllClosed(p, lookup, names, [], t1);
    } else {
      var t1 := t.(resolved := t.resolved + [x], progress := t.progress + [One(x)]);
      forall c, i | c in t1.reported && i in c.imports ensures i in Elements(t1.resolved) || i in queue {
        assert i in Elements(t.resolved) || i in [x] + queue;
        if i !in queue && i !in Elements(t.resolved) {
          assert i == x;
          assert t1.resolved[|t.resolved|] == x;
        }
      }
      FinishClosed(p, lookup, x, queue, t1);
    }
    var (c, rest) := Pop(p, q);
    PopPending(p, q);
    forall y | y in q ensures y in Pending(c, rest) {
      assert y in multiset(q);
    }
  }

  /**
   * The transitive closure: when a run ends with the queue drained and no
   * load failure, every import of every descriptor handed over has been
   * resolved. Under `while (cur)` this needs that no name met is empty.
   */
  lemma {:induction false} DrainClosed(p: Policy, lookup: Lookup, u: set<string>, cur: Option<string>, queue: seq<string>, t: Trace)
    requires Within(cur, queue, u) && ImportsWithin(lookup, u) && t.failed.None?
    requires cur.None? ==> queue == []
    requires p.stopsOnEmpty ==> "" !in u
    requires Closed(t.reported, Elements(t.resolved), Pending(cur, queue))
    ensures var r := Drain(p, lookup, u, cur, queue, t);
      r.failed.None? ==> forall c, i :: c in r.reported && i in c.imports ==> i in r.resolved
    decreases |u - Elements(t.resolved)|, CountIn(Pending(cur, queue), Elements(t.resolved))
  {
    if cur.Some? {
      var (q, t') := Step(p, lookup, cur.value, queue, t);
      if t'.failed.None? {
        var (c, rest) := Pop(p, q);
        StepDecreases(p, lookup, u, cur.value, queue, t);
        StepClosed(p, lookup, cur.value, queue, t);
        assert Drain(p, lookup, u, cur, queue, t) == Drain(p, lookup, u, c, rest, t');
        assert c.None? ==> rest == [];
        DrainClosed(p, lookup, u, c, rest, t');
        var r := Drain(p, lookup, u, c, rest, t');
        assert r.failed.None? ==> forall c, i :: c in r.reported && i in c.imports ==> i in r.resolved;
      }
    } else {
      forall c, i | c in t.reported && i in c.imports ensures i in t.resolved {
        assert i in Elements(t.resolved);
      }
    }
  }

  /** Each loadable class lists every import once (as `readClass` guarantees). */
  ghost predicate ImportsDistinct(lookup: Lookup) {
    forall k :: k in lookup ==> Util.Distinct(lookup[k].imports)
  }

  lemma DistinctConcat(a: seq<string>, b: seq<string>)
    requires Util.Distinct(a) && Util.Distinct(b) && (forall y :: y in a ==> y !in b)
    ensures Util.Distinct(a + b)
  {
    forall i, j | 0 <= i < j < |a + b| ensures (a + b)[i] != (a + b)[j] {
      if j < |a| {
        assert (a + b)[i] == a[i] && (a + b)[j] == a[j];
      } else if i >= |a| {
        assert (a + b)[i] == b[i - |a|] && (a + b)[j] == b[j - |a|];
      } else {
        assert (a + b)[i] == a[i] && (a + b)[j] == b[j - |a|];
        assert a[i] in a;
      }
    }
  }

  lemma DistinctParts(a: seq<string>, b: seq<string>)
    requires Util.Distinct(a + b)
    ensures Util.Distinct(a) && Util.Distinct(b) && (forall y :: y in a ==> y !in b)
  {
    forall i, j | 0 <= i < j < |a| ensures a[i] != a[j] {
      assert a[i] == (a + b)[i] && a[j] == (a + b)[j];
    }
    forall i, j | 0 <= i < j < |b| ensures b[i] != b[j] {
      assert b[i] == (a + b)[|a| + i] && b[j] == (a + b)[|a| + j];
    }
    forall y | y in a ensures y !in b {
      var i :| 0 <= i < |a| && a[i] == y;
      assert (a + b)[i] == y;
      forall j | 0 <= j < |b| ensures b[j] != y {
        assert b[j] == (a + b)[|a| + j];
      }
    }
  }

  lemma {:induction false} FreshDistinct(imports: seq<string>, known: set<string>)
    requires Util.Distinct(imports)
    ensures Util.Distinct(Fresh(imports, known))
    decreases |imports|
  {
    if |imports| > 0 {
      assert imports == [imports[0]] + imports[1..];
      DistinctParts([imports[0]], imports[1..]);
      FreshDistinct(imports[1..], known);
      DistinctConcat(if imports[0] in known then [] else [imports[0]], Fresh(imports[1..], known));
    }
  }

  /** The queue stays free of repeats and of resolved names. */
  ghost predicate QueueFresh(queue: seq<string>, resolved: seq<string>) {
    Util.Distinct(queue) && forall y :: y in queue ==> y !in resolved
  }

  lemma FinishOnce(p: Policy, lookup: Lookup, x: string, queue: seq<string>, t: Trace)
    requires p.checksQueue && ImportsDistinct(lookup) && QueueFresh(queue, t.resolved)
    ensures var (q, t') := Finish(p, lookup, x, queue, t);
      QueueFresh(q, t'.resolved) && t'.resolved == t.resolved
  {
    if x in lookup {
      var f := Fresh(lookup[x].imports, Avoided(p, t.resolved, queue));
      FreshDistinct(lookup[x].imports, Avoided(p, t.resolved, queue));
      DistinctConcat(queue, f);
    }
  }

  lemma {:induction false} FinishAllOnce(p: Policy, lookup: Lookup, names: seq<string>, queue: seq<string>, t: Trace)
    requires p.checksQueue && ImportsDistinct(lookup) && QueueFresh(queue, t.resolved)
    ensures var (q, t') := FinishAll(p, lookup, names, queue, t);
      QueueFresh(q, t'.resolved) && t'.resolved == t.resolved
    decreases |names|
  {
    if |names| > 0 {
      var (q1, t1) := Finish(p, lookup, names[0], queue, t);
      FinishOnce(p, lookup, names[0], queue, t);
      if t1.failed.None? {
        FinishAllOnce(p, lookup, names[1..], q1, t1);
      }
    }
  }

  /** The names a run has added since position `n` are new and distinct, and none of them is pending. */
  ghost predicate OnceSince(resolved: seq<string>, n: nat, pending: seq<string>) {
    && n <= |resolved|
    && Util.Distinct(resolved[n..]) && (forall y :: y in resolved[n..] ==> y !in resolved[..n])
    && QueueFresh(pending, resolved)
  }

  lemma PopFresh(p: Policy, q: seq<string>, resolved: seq<string>)
    requires QueueFresh(q, resolved)
    ensures QueueFresh(Pending(Pop(p, q).0, Pop(p, q).1), resolved)
  {
    if |q| > 0 && !p.fifo {
      var last := q[|q| - 1];
      assert q == q[..|q| - 1] + [last];
      DistinctParts(q[..|q| - 1], [last]);
      DistinctConcat([last], q[..|q| - 1]);
    }
  }

  /** Appending pending names, none of them resolved, keeps the added part new and distinct. */
  lemma ResolveOnce(resolved: seq<string>, n: nat, names: seq<string>)
    requires n <= |resolved| && Util.Distinct(resolved[n..]) && (forall y :: y in resolved[n..] ==> y !in resolved[..n])
    requires QueueFresh(names, resolved)
    ensures var r' := resolved + names;
      Util.Distinct(r'[n..]) && (forall y :: y in r'[n..] ==> y !in r'[..n])
  {
    var r' := resolved + names;
    assert r'[n..] == resolved[n..] + names;
    assert r'[..n] == resolved[..n];
    assert resolved == resolved[..n] + resolved[n..];
    DistinctConcat(resolved[n..], names);
  }

  lemma StepOnce(p: Policy, lookup: Lookup, x: string, queue: seq<string>, t: Trace, n: nat)
    requires p.checksQueue && ImportsDistinct(lookup) && OnceSince(t.resolved, n, Pending(Some(x), queue))
    ensures var (q, t') := Step(p, lookup, x, queue, t);
      var (c, rest) := Pop(p, q);
      OnceSince(t'.resolved, n, Pending(c, rest))
  {
    var (q, t') := Step(p, lookup, x, queue, t);
    DistinctParts([x], queue);
    if p.batchFrom.Some? && |queue| >= p.batchFrom.value {
      var names := [x] + queue;
      var t1 := t.(resolved := t.resolved + names, progress := t.progress + [Batch(names)]);
      ResolveOnce(t.resolved, n, names);
      FinishAllOnce(p, lookup, names, [], t1);
    } else {
      var t1 := t.(resolved := t.resolved + [x], progress := t.progress + [One(x)]);
      ResolveOnce(t.resolved, n, [x]);
      FinishOnce(p, lookup, x, queue, t1);
    }
    PopFresh(p, q, t'.resolved);
  }

  /**
   * When enqueueing checks the queue too, a run never resolves a name twice
   * nor one that was resolved before it began, provided the roots are
   * distinct and not yet resolved.
   */
  lemma {:induction false} DrainOnce(p: Policy, lookup: Lookup, u: set<string>, cur: Option<string>, queue: seq<string>, t: Trace, n: nat)
    requires Within(cur, queue, u) && ImportsWithin(lookup, u) && t.failed.None?
    requires p.checksQueue && ImportsDistinct(lookup) && OnceSince(t.resolved, n, Pending(cur, queue))
    ensures var r := Drain(p, lookup, u, cur, queue, t);
      n <= |r.resolved| && Util.Distinct(r.resolved[n..]) && (forall y :: y in r.resolved[n..] ==> y !in r.resolved[..n])
    decreases |u - Elements(t.resolved)|, CountIn(Pending(cur, queue), Elements(t.resolved))
  {
    if cur.Some? && !(p.stopsOnEmpty && cur.value == "") {
      var (q, t') := Step(p, lookup, cur.value, queue, t);
      StepOnce(p, lookup, cur.value, queue, t, n);
      if t'.failed.None? {
        var (c, rest) := Pop(p, q);
        StepDecreases(p, lookup, u, cur.value, queue, t);
        DrainOnce(p, lookup, u, c, rest, t', n);
      }
    }
  }
}
