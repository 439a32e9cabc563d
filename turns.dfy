/**
 * One turn of a resolver loop, stated in the terms a loop invariant uses:
 * the rest of the run from the popped name, the turn's effect on the queue
 * and the trace, and the termination measure.
 */
module Turns {
  import opened Wrappers
  import opened Types
  import opened Worklist

  /** The first half of the loop's termination measure: names of the universe not resolved yet. */
  function Unresolved(u: set<string>, t: Trace): nat {
    |u - Elements(t.resolved)|
  }

  /** The second half: pending names that are resolved already. */
  function Repeats(cur: Option<string>, queue: seq<string>, t: Trace): nat {
    CountIn(Pending(cur, queue), Elements(t.resolved))
  }

  /** The loop's termination measure went down, lexicographically. */
  ghost predicate Smaller(u: set<string>, cur': Option<string>, queue': seq<string>, t': Trace,
                          cur: Option<string>, queue: seq<string>, t: Trace) {
    || Unresolved(u, t') < Unresolved(u, t)
    || (Unresolved(u, t') == Unresolved(u, t) && Repeats(cur', queue', t') < Repeats(cur, queue, t))
  }

  /** `popQueue` of a stack resolver: the last name, and the rest. */
  lemma StackPop(p: Policy, q: seq<string>)
    requires !p.fifo
    ensures Pop(p, q) == if |q| == 0 then (None, []) else (Some(q[|q| - 1]), q[..|q| - 1])
  {
  }

  /** `poll` of a FIFO resolver: the first name, and the rest. */
  lemma QueuePoll(p: Policy, q: seq<string>)
    requires p.fifo
    ensures Pop(p, q) == if |q| == 0 then (None, []) else (Some(q[0]), q[1..])
  {
  }

  /** Where a run starts: the first pop of the roots, inside the universe, with nothing reported yet. */
  lemma RunStart(p: Policy, l: Lookup, roots: seq<string>, resolved: seq<string>)
    ensures var u := Universe(roots, l);
      && ImportsWithin(l, u) && Within(Pop(p, roots).0, Pop(p, roots).1, u)
      && Run(p, l, roots, resolved) == Drain(p, l, u, Pop(p, roots).0, Pop(p, roots).1, Trace(resolved, [], [], None))
  {
    PopWithin(p, roots, Universe(roots, l));
  }

  /** The loop has stopped: the rest of the run is the trace as it stands. */
  lemma DrainStops(p: Policy, l: Lookup, u: set<string>, cur: Option<string>, queue: seq<string>, t: Trace)
    requires Within(cur, queue, u) && ImportsWithin(l, u) && t.failed.None?
    requires cur.None? || (p.stopsOnEmpty && cur.value == "")
    ensures Drain(p, l, u, cur, queue, t) == t
  {
  }

  /**
   * One turn of a resolver loop on a popped name: the run ends where the
   * turn fails to load a name, and otherwise goes on from the next pop with
   * a smaller measure.
   */
  lemma LoopTurn(p: Policy, l: Lookup, u: set<string>, x: string, queue: seq<string>, t: Trace)
    requires Within(Some(x), queue, u) && ImportsWithin(l, u) && t.failed.None? && !(p.stopsOnEmpty && x == "")
    ensures var (q, t') := Step(p, l, x, queue, t);
      && (t'.failed.Some? ==> Drain(p, l, u, Some(x), queue, t) == t')
      && (t'.failed.None? ==>
            && Within(Pop(p, q).0, Pop(p, q).1, u)
            && Drain(p, l, u, Some(x), queue, t) == Drain(p, l, u, Pop(p, q).0, Pop(p, q).1, t')
            && Smaller(u, Pop(p, q).0, Pop(p, q).1, t', Some(x), queue, t))
  {
    StepDecreases(p, l, u, x, queue, t);
  }

  /**
   * A turn that takes the popped name alone: it is recorded and logged, and
   * then either loaded, handed over and its imports that pass the filter
   * queued, or reported as the failure.
   */
  lemma SingleStep(p: Policy, l: Lookup, x: string, queue: seq<string>, t: Trace)
    requires !(p.batchFrom.Some? && |queue| >= p.batchFrom.value)
    ensures Step(p, l, x, queue, t)
         == if x in l then
              (queue + Fresh(l[x].imports, Avoided(p, t.resolved + [x], queue)),
               Trace(t.resolved + [x], t.reported + [l[x]], t.progress + [One(x)], t.failed))
            else
              (queue, Trace(t.resolved + [x], t.reported, t.progress + [One(x)], Some(x)))
  {
  }

  /** A turn that takes the popped name and the whole queue: all recorded and logged as one batch, then completed in order from an empty queue. */
  lemma BatchStep(p: Policy, l: Lookup, x: string, queue: seq<string>, t: Trace)
    requires p.batchFrom.Some? && |queue| >= p.batchFrom.value
    ensures Step(p, l, x, queue, t)
         == FinishAll(p, l, [x] + queue, [], Trace(t.resolved + ([x] + queue), t.reported, t.progress + [Batch([x] + queue)], t.failed))
  {
  }

  /** A resolver that does not check its queue avoids exactly the resolved names. */
  lemma UncheckedAvoided(p: Policy, resolved: seq<string>, queue: seq<string>)
    requires !p.checksQueue
    ensures Avoided(p, resolved, queue) == Elements(resolved)
  {
  }

  /** One continuation of a batch, seen from position `j` of the batch. */
  lemma FinishAllFrom(p: Policy, l: Lookup, names: seq<string>, j: nat, queue: seq<string>, t: Trace)
    requires j < |names| && t.failed.None?
    ensures FinishAll(p, l, names[j..], queue, t)
         == if names[j] !in l then (queue, t.(failed := Some(names[j])))
            else FinishAll(p, l, names[j + 1..], queue + Fresh(l[names[j]].imports, Avoided(p, t.resolved, queue)),
                           t.(reported := t.reported + [l[names[j]]]))
  {
    assert names[j..][0] == names[j] && names[j..][1..] == names[j + 1..];
  }
}
