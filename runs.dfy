/**
 * What a whole resolver run promises, stated on `Worklist.Run`: the resolved
 * list only grows, the classes handed over are the loaded ones in resolution
 * order, a failure names a class that was recorded but cannot be loaded, a
 * successful run is closed under imports, and a run that checks the queue
 * resolves no class twice. It ends with the concrete runs that set the
 * resolver variants apart.
 */
module Runs {
  import opened Wrappers
  import opened Types
  import opened Worklist
  import Util

  /** The descriptors of `names`, in order. */
  function Loaded(lookup: Lookup, names: seq<string>): (r: seq<JavaClass>)
    requires forall x :: x in names ==> x in lookup
    ensures |r| == |names|
  {
    if |names| == 0 then [] else [lookup[names[0]]] + Loaded(lookup, names[1..])
  }

  /** The names appended to `s` after its first `n`. */
  function Since(s: seq<string>, n: nat): seq<string> {
    if n <= |s| then s[n..] else []
  }

  /** The `i`-th descriptor handed over belongs to the `i`-th name. */
  lemma {:induction false} LoadedAt(lookup: Lookup, names: seq<string>, i: nat)
    requires forall x :: x in names ==> x in lookup
    requires i < |names|
    ensures Loaded(lookup, names)[i] == lookup[names[i]]
    decreases i
  {
    if i > 0 {
      LoadedAt(lookup, names[1..], i - 1);
    }
  }

  lemma {:induction false} LoadedAppend(lookup: Lookup, a: seq<string>, b: seq<string>)
    requires forall x :: x in a + b ==> x in lookup
    ensures Loaded(lookup, a + b) == Loaded(lookup, a) + Loaded(lookup, b)
    decreases |a|
  {
    if |a| == 0 {
      assert a + b == b;
    } else {
      assert (a + b)[1..] == a[1..] + b;
      LoadedAppend(lookup, a[1..], b);
    }
  }

  // ---------------------------------------------------------------------
  // What is handed over, and what fails
  // ---------------------------------------------------------------------

  /** The continuations of a batch hand over the descriptor of each name, in batch order, when every name loads. */
  lemma {:induction false} FinishAllLoads(p: Policy, lookup: Lookup, names: seq<string>, queue: seq<string>, t: Trace)
    requires t.failed.None?
    ensures var t' := FinishAll(p, lookup, names, queue, t).1;
      t'.failed.None? ==> (forall x :: x in names ==> x in lookup) && t'.reported == t.reported + Loaded(lookup, names)
    decreases |names|
  {
    if |names| > 0 {
      var (q1, t1) := Finish(p, lookup, names[0], queue, t);
      if t1.failed.None? {
        FinishAllLoads(p, lookup, names[1..], q1, t1);
        var t' := FinishAll(p, lookup, names[1..], q1, t1).1;
        if t'.failed.None? {
          assert forall x :: x in names ==> x == names[0] || x in names[1..];
          assert Loaded(lookup, names) == [lookup[names[0]]] + Loaded(lookup, names[1..]);
          assert t'.reported == t.reported + [lookup[names[0]]] + Loaded(lookup, names[1..]);
        }
      }
    } else {
      assert t.reported + [] == t.reported;
    }
  }

  /** The continuations of a batch stop at a name of the batch that cannot be loaded, and leave the resolved list alone. */
  lemma {:induction false} FinishAllFails(p: Policy, lookup: Lookup, names: seq<string>, queue: seq<string>, t: Trace)
    requires t.failed.None?
    ensures var t' := FinishAll(p, lookup, names, queue, t).1;
      && t'.resolved == t.resolved
      && (t'.failed.Some? ==> t'.failed.value in names && t'.failed.value !in lookup)
    decreases |names|
  {
    if |names| > 0 {
      var (q1, t1) := Finish(p, lookup, names[0], queue, t);
      if t1.failed.None? {
        FinishAllFails(p, lookup, names[1..], q1, t1);
      }
    }
  }

  /** A turn hands over the descriptors of the names it records, or fails on one of them. */
  lemma StepReports(p: Policy, lookup: Lookup, x: string, queue: seq<string>, t: Trace)
    requires t.failed.None?
    ensures var t' := Step(p, lookup, x, queue, t).1;
      var added := Since(t'.resolved, |t.resolved|);
      && |t.resolved| <= |t'.resolved| && t'.resolved[..|t.resolved|] == t.resolved
      && (t'.failed.None? ==> (forall y :: y in added ==> y in lookup) && t'.reported == t.reported + Loaded(lookup, added))
      && (t'.failed.Some? ==> t'.failed.value in added && t'.failed.value !in lookup)
  {
    if p.batchFrom.Some? && |queue| >= p.batchFrom.value {
      var names := [x] + queue;
      var t1 := t.(resolved := t.resolved + names, progress := t.progress + [Batch(names)]);
      FinishAllLoads(p, lookup, names, [], t1);
      FinishAllFails(p, lookup, names, [], t1);
      assert t1.resolved[|t.resolved|..] == names;
    } else {
      var t1 := t.(resolved := t.resolved + [x], progress := t.progress + [One(x)]);
      assert t1.resolved[|t.resolved|..] == [x];
    }
  }

  /**
   * Exactly one descriptor is handed over per name a successful run
   * records, in the order the names were recorded.
   */
  lemma {:induction false} DrainLoads(p: Policy, lookup: Lookup, u: set<string>, cur: Option<string>, queue: seq<string>, t: Trace)
    requires Within(cur, queue, u) && ImportsWithin(lookup, u) && t.failed.None?
    ensures var r := Drain(p, lookup, u, cur, queue, t);
      var added := Since(r.resolved, |t.resolved|);
      r.failed.None? ==> (forall y :: y in added ==> y in lookup) && r.reported == t.reported + Loaded(lookup, added)
    decreases |u - Elements(t.resolved)|, CountIn(Pending(cur, queue), Elements(t.resolved))
  {
    var r := Drain(p, lookup, u, cur, queue, t);
    DrainGrows(p, lookup, u, cur, queue, t);
    if cur.Some? && !(p.stopsOnEmpty && cur.value == "") {
      var (q, t') := Step(p, lookup, cur.value, queue, t);
      StepReports(p, lookup, cur.value, queue, t);
      if t'.failed.None? {
        var (c, rest) := Pop(p, q);
        StepDecreases(p, lookup, u, cur.value, queue, t);
        assert r == Drain(p, lookup, u, c, rest, t');
        DrainLoads(p, lookup, u, c, rest, t');
        DrainGrows(p, lookup, u, c, rest, t');
        if r.failed.None? {
          LoadsCompose(lookup, t.resolved, t'.resolved, r.resolved, t.reported, t'.reported, r.reported);
        }
      }
    } else {
      assert r.resolved[|t.resolved|..] == [];
      assert t.reported + [] == t.reported;
    }
  }

  /** Two stretches of a run that each hand over the descriptors of the names they record are one such stretch. */
  lemma LoadsCompose(lookup: Lookup, a: seq<string>, b: seq<string>, c: seq<string>,
                     ra: seq<JavaClass>, rb: seq<JavaClass>, rc: seq<JavaClass>)
    requires |a| <= |b| && b[..|a|] == a && b <= c
    requires forall y :: y in b[|a|..] ==> y in lookup
    requires forall y :: y in c[|b|..] ==> y in lookup
    requires rb == ra + Loaded(lookup, b[|a|..])
    requires rc == rb + Loaded(lookup, c[|b|..])
    ensures forall y :: y in c[|a|..] ==> y in lookup
    ensures rc == ra + Loaded(lookup, c[|a|..])
  {
    var x := b[|a|..];
    var y := c[|b|..];
    SuffixSplit(a, b, c);
    LoadedAppend(lookup, x, y);
  }

  /** A failed run names one of the names it recorded, which cannot be loaded. */
  lemma {:induction false} DrainFails(p: Policy, lookup: Lookup, u: set<string>, cur: Option<string>, queue: seq<string>, t: Trace)
    requires Within(cur, queue, u) && ImportsWithin(lookup, u) && t.failed.None?
    ensures var r := Drain(p, lookup, u, cur, queue, t);
      r.failed.Some? ==> r.failed.value in Since(r.resolved, |t.resolved|) && r.failed.value !in lookup
    decreases |u - Elements(t.resolved)|, CountIn(Pending(cur, queue), Elements(t.resolved))
  {
    var r := Drain(p, lookup, u, cur, queue, t);
    if cur.Some? && !(p.stopsOnEmpty && cur.value == "") {
      var (q, t') := Step(p, lookup, cur.value, queue, t);
      StepReports(p, lookup, cur.value, queue, t);
      if t'.failed.None? {
        var (c, rest) := Pop(p, q);
        StepDecreases(p, lookup, u, cur.value, queue, t);
        assert r == Drain(p, lookup, u, c, rest, t');
        DrainFails(p, lookup, u, c, rest, t');
        DrainGrows(p, lookup, u, c, rest, t');
        if r.failed.Some? {
          SuffixSplit(t.resolved, t'.resolved, r.resolved);
        }
      }
    }
  }

  /** What `c` adds to `a` is what `b` adds to `a` followed by what `c` adds to `b`. */
  lemma SuffixSplit(a: seq<string>, b: seq<string>, c: seq<string>)
    requires |a| <= |b| && b[..|a|] == a && b <= c
    ensures c[|a|..] == b[|a|..] + c[|b|..]
  {
    assert c[..|b|] == b;
  }

  // ---------------------------------------------------------------------
  // Whole runs
  // ---------------------------------------------------------------------

  /** `resolvedClasses` only grows: a run keeps the names it was given, in order, at the front. */
  lemma RunGrows(p: Policy, lookup: Lookup, roots: seq<string>, resolved: seq<string>)
    ensures resolved <= Run(p, lookup, roots, resolved).resolved
  {
    var (c, rest) := Pop(p, roots);
    PopWithin(p, roots, Universe(roots, lookup));
    DrainGrows(p, lookup, Universe(roots, lookup), c, rest, Trace(resolved, [], [], None));
  }

  /**
   * A successful run hands over, in order, the descriptor of every name it
   * recorded and no other; a failed run names a recorded name that cannot
   * be loaded.
   */
  lemma RunReports(p: Policy, lookup: Lookup, roots: seq<string>, resolved: seq<string>)
    ensures var r := Run(p, lookup, roots, resolved);
      var added := Since(r.resolved, |resolved|);
      && |resolved| <= |r.resolved|
      && (r.failed.None? ==> (forall y :: y in added ==> y in lookup) && r.reported == Loaded(lookup, added))
      && (r.failed.Some? ==> r.failed.value in added && r.failed.value !in lookup)
  {
    var (c, rest) := Pop(p, roots);
    PopWithin(p, roots, Universe(roots, lookup));
    var t := Trace(resolved, [], [], None);
    DrainGrows(p, lookup, Universe(roots, lookup), c, rest, t);
    DrainLoads(p, lookup, Universe(roots, lookup), c, rest, t);
    DrainFails(p, lookup, Universe(roots, lookup), c, rest, t);
  }

  /**
   * The transitive closure: when a run succeeds, every import of every
   * descriptor handed over has been resolved, provided no name met is empty
   * under `while (cur)`.
   */
  lemma RunClosed(p: Policy, lookup: Lookup, roots: seq<string>, resolved: seq<string>)
    requires p.stopsOnEmpty ==> "" !in Universe(roots, lookup)
    ensures var r := Run(p, lookup, roots, resolved);
      r.failed.None? ==> forall c, i :: c in r.reported && i in c.imports ==> i in r.resolved
  {
    var (c, rest) := Pop(p, roots);
    PopWithin(p, roots, Universe(roots, lookup));
    assert c.None? ==> rest == [];
    DrainClosed(p, lookup, Universe(roots, lookup), c, rest, Trace(resolved, [], [], None));
  }

  /**
   * A resolver that checks the queue as well as the resolved list never
   * resolves a class twice, nor one that was resolved before the run, as
   * long as the roots are distinct and not yet resolved.
   */
  lemma RunOnce(p: Policy, lookup: Lookup, roots: seq<string>, resolved: seq<string>)
    requires p.checksQueue && ImportsDistinct(lookup)
    requires Util.Distinct(roots) && forall x :: x in roots ==> x !in resolved
    ensures var r := Run(p, lookup, roots, resolved);
      |resolved| <= |r.resolved| && Util.Distinct(r.resolved[|resolved|..])
      && forall y :: y in r.resolved[|resolved|..] ==> y !in resolved
  {
    var (c, rest) := Pop(p, roots);
    var t := Trace(resolved, [], [], None);
    PopWithin(p, roots, Universe(roots, lookup));
    PopFresh(p, roots, resolved);
    assert resolved[|resolved|..] == [] && resolved[..|resolved|] == resolved;
    DrainOnce(p, lookup, Universe(roots, lookup), c, rest, t, |resolved|);
    RunGrows(p, lookup, roots, resolved);
  }

  // ---------------------------------------------------------------------
  // The resolver variants side by side
  // ---------------------------------------------------------------------

  /** `createDefinitionTree` of the current TypeScript resolver: a stack, checked against queue and resolved list, one name per turn. */
  const DefinitionTree := Policy(true, false, None, true)

  /** `createSyntaxTree` over the older converter: the same, but the queue is not checked before enqueueing. */
  const SyntaxTree := Policy(false, false, None, true)

  /** `createModuleDeclarationForClass`: the current resolver, taking the rest of the queue along whenever one name remains. */
  const ModuleDeclarations := Policy(true, false, Some(1), true)

  /** `readAndConvert` over the older converter: a batch only when more than one name remains. */
  const ReadAndConvert := Policy(false, false, Some(2), true)

  /** The Java `createSyntaxTree`: a FIFO queue checked like the current resolver, ended only by an empty queue. */
  const JavaSyntaxTree := Policy(true, true, None, false)

  /** A descriptor with no members that imports `imports`. */
  function Bare(name: string, imports: seq<string>): JavaClass {
    JavaClass(name, name, false, false, [], [], [], imports)
  }

  /** `A` imports `B` and `C`, and `C` imports `B` too. */
  function Diamond(): Lookup {
    map["A" := Bare("A", ["B", "C"]), "B" := Bare("B", []), "C" := Bare("C", ["B"])]
  }

  lemma DiamondEntries()
    ensures IsDiamond(Diamond())
  {
    assert "A"[0] != "B"[0] && "A"[0] != "C"[0] && "B"[0] != "C"[0];
  }

  lemma FreshOne(x: string, known: set<string>)
    ensures Fresh([x], known) == if x in known then [] else [x]
  {
    assert [x][1..] == [];
  }

  lemma FreshTwo(x: string, y: string, known: set<string>)
    ensures Fresh([x, y], known) == (if x in known then [] else [x]) + (if y in known then [] else [y])
  {
    assert [x, y][1..] == [y];
    FreshOne(y, known);
  }

  /** A one-name turn on a loadable name: recorded, reported, logged, and its imports that pass the filter queued. */
  lemma SingleTurn(p: Policy, l: Lookup, x: string, queue: seq<string>, t: Trace)
    requires p.batchFrom.None? && x in l
    ensures Step(p, l, x, queue, t)
         == (queue + Fresh(l[x].imports, Avoided(p, t.resolved + [x], queue)),
             Trace(t.resolved + [x], t.reported + [l[x]], t.progress + [One(x)], t.failed))
  {
  }

  /** The import edges of the diamond, in any lookup. */
  ghost predicate IsDiamond(l: Lookup) {
    && "A" in l && "B" in l && "C" in l
    && l["A"].imports == ["B", "C"] && l["B"].imports == [] && l["C"].imports == ["B"]
  }

  /** What `A` queues: both of its imports, whatever the rule. */
  lemma DiamondFreshA(p: Policy, l: Lookup)
    requires IsDiamond(l)
    ensures Fresh(l["A"].imports, Avoided(p, [] + ["A"], [])) == ["B", "C"]
  {
    assert "A"[0] != "B"[0] && "A"[0] != "C"[0];
    assert Avoided(p, [] + ["A"], []) == {"A"};
    FreshTwo("B", "C", {"A"});
  }

  /** What `C` queues while `B` waits: nothing when the queue is checked, `B` again otherwise. */
  lemma DiamondFreshC(p: Policy, l: Lookup, resolved: seq<string>)
    requires IsDiamond(l) && "B" !in resolved
    ensures Fresh(l["C"].imports, Avoided(p, resolved, ["B"])) == if p.checksQueue then [] else ["B"]
  {
    FreshOne("B", Avoided(p, resolved, ["B"]));
  }

  /** One turn of `Drain` on a popped name that does not fail to load. */
  lemma DrainTurn(p: Policy, l: Lookup, u: set<string>, x: string, queue: seq<string>, t: Trace)
    requires Within(Some(x), queue, u) && ImportsWithin(l, u) && t.failed.None? && !(p.stopsOnEmpty && x == "")
    requires Step(p, l, x, queue, t).1.failed.None?
    ensures var (q, t') := Step(p, l, x, queue, t);
      && Within(Pop(p, q).0, Pop(p, q).1, u)
      && Drain(p, l, u, Some(x), queue, t) == Drain(p, l, u, Pop(p, q).0, Pop(p, q).1, t')
  {
    StepDecreases(p, l, u, x, queue, t);
  }

  /** A stack pop of a two-name queue, of a one-name queue, of the empty queue. */
  lemma PopSmall(p: Policy, x: string, y: string)
    requires !p.fifo
    ensures Pop(p, [x, y]) == (Some(y), [x])
    ensures Pop(p, [x]) == (Some(x), [])
    ensures Pop(p, []) == (None, [])
  {
    assert [x, y][..1] == [x];
  }

  /** A popped name without imports, with nothing else queued, is the last one resolved. */
  lemma LeafLast(p: Policy, l: Lookup, u: set<string>, x: string, t: Trace)
    requires p.batchFrom.None? && !p.fifo && x != "" && x in l && l[x].imports == []
    requires Within(Some(x), [], u) && ImportsWithin(l, u) && t.failed.None?
    ensures Drain(p, l, u, Some(x), [], t).resolved == t.resolved + [x]
  {
    SingleTurn(p, l, x, [], t);
    assert Fresh([], Avoided(p, t.resolved + [x], [])) == [];
    DrainTurn(p, l, u, x, [], t);
    PopSmall(p, x, x);
  }

  /** The same name popped twice in a row, with nothing else queued, is resolved twice. */
  lemma LeafTwice(p: Policy, l: Lookup, u: set<string>, x: string, t: Trace)
    requires p.batchFrom.None? && !p.fifo && x != "" && x in l && l[x].imports == []
    requires Within(Some(x), [x], u) && ImportsWithin(l, u) && t.failed.None?
    ensures Drain(p, l, u, Some(x), [x], t).resolved == t.resolved + [x, x]
  {
    SingleTurn(p, l, x, [x], t);
    assert Fresh([], Avoided(p, t.resolved + [x], [x])) == [];
    assert [x] + [] == [x];
    DrainTurn(p, l, u, x, [x], t);
    PopSmall(p, x, x);
    var t' := Step(p, l, x, [x], t).1;
    LeafLast(p, l, u, x, t');
    assert t.resolved + [x] + [x] == t.resolved + [x, x];
  }

  /** `C`, popped while `B` waits, under a rule that checks the queue: `C` and then `B`, once. */
  lemma DiamondFromCChecked(p: Policy, l: Lookup, u: set<string>, t: Trace)
    requires p.batchFrom.None? && !p.fifo && p.checksQueue && IsDiamond(l)
    requires Within(Some("C"), ["B"], u) && ImportsWithin(l, u) && t.failed.None? && "B" !in t.resolved
    ensures Drain(p, l, u, Some("C"), ["B"], t).resolved == t.resolved + ["C", "B"]
  {
    assert "C"[0] != "B"[0];
    SingleTurn(p, l, "C", ["B"], t);
    DiamondFreshC(p, l, t.resolved + ["C"]);
    assert ["B"] + [] == ["B"];
    DrainTurn(p, l, u, "C", ["B"], t);
    PopSmall(p, "B", "B");
    LeafLast(p, l, u, "B", Step(p, l, "C", ["B"], t).1);
    assert t.resolved + ["C"] + ["B"] == t.resolved + ["C", "B"];
  }

  /** `C`, popped while `B` waits, under a rule that checks only the resolved list: `C`, then `B` twice. */
  lemma DiamondFromCUnchecked(p: Policy, l: Lookup, u: set<string>, t: Trace)
    requires p.batchFrom.None? && !p.fifo && !p.checksQueue && IsDiamond(l)
    requires Within(Some("C"), ["B"], u) && ImportsWithin(l, u) && t.failed.None? && "B" !in t.resolved
    ensures Drain(p, l, u, Some("C"), ["B"], t).resolved == t.resolved + ["C", "B", "B"]
  {
    assert "C"[0] != "B"[0];
    SingleTurn(p, l, "C", ["B"], t);
    DiamondFreshC(p, l, t.resolved + ["C"]);
    assert ["B"] + ["B"] == ["B", "B"];
    DrainTurn(p, l, u, "C", ["B"], t);
    PopSmall(p, "B", "B");
    LeafTwice(p, l, u, "B", Step(p, l, "C", ["B"], t).1);
    assert t.resolved + ["C"] + ["B", "B"] == t.resolved + ["C", "B", "B"];
  }

  /** The first turn: `A` is recorded and handed over, and queues `B` and then `C`. */
  lemma DiamondTurnA(p: Policy, l: Lookup)
    requires p.batchFrom.None? && IsDiamond(l)
    ensures Step(p, l, "A", [], Trace([], [], [], None)) == (["B", "C"], AfterA(l))
  {
    SingleTurn(p, l, "A", [], Trace([], [], [], None));
    DiamondFreshA(p, l);
    assert [] + ["B", "C"] == ["B", "C"] && [] + ["A"] == ["A"];
    assert [] + [l["A"]] == [l["A"]] && [] + [One("A")] == [One("A")];
  }

  /** The trace after the first turn. */
  function AfterA(l: Lookup): Trace
    requires "A" in l
  {
    Trace(["A"], [l["A"]], [One("A")], None)
  }

  /** A run from `A`: `A` queues `B` and `C`, and `C`, on top of the stack, comes next. */
  lemma DiamondFromA(p: Policy, l: Lookup, u: set<string>)
    requires p.batchFrom.None? && !p.fifo && IsDiamond(l)
    requires u == Universe(["A"], l)
    ensures Within(Some("C"), ["B"], u)
    ensures Run(p, l, ["A"], []) == Drain(p, l, u, Some("C"), ["B"], AfterA(l))
  {
    assert "B" in l["A"].imports && "C" in l["A"].imports;
    PopSmall(p, "A", "A");
    DiamondTurnA(p, l);
    DrainTurn(p, l, u, "A", [], Trace([], [], [], None));
    PopSmall(p, "B", "C");
  }

  /** A run of the diamond from `A` that checks the queue: `A`, then `C` (the last import queued), then `B`. */
  lemma DiamondRunChecked(p: Policy, l: Lookup)
    requires p.batchFrom.None? && !p.fifo && p.checksQueue && IsDiamond(l)
    ensures Run(p, l, ["A"], []).resolved == ["A", "C", "B"]
  {
    var u := Universe(["A"], l);
    DiamondFromA(p, l, u);
    assert "A"[0] != "B"[0];
    DiamondFromCChecked(p, l, u, AfterA(l));
    assert ["A"] + ["C", "B"] == ["A", "C", "B"];
  }

  /** A run of the diamond from `A` that checks only the resolved list: `A`, then `C`, then `B` twice. */
  lemma DiamondRunUnchecked(p: Policy, l: Lookup)
    requires p.batchFrom.None? && !p.fifo && !p.checksQueue && IsDiamond(l)
    ensures Run(p, l, ["A"], []).resolved == ["A", "C", "B", "B"]
  {
    var u := Universe(["A"], l);
    DiamondFromA(p, l, u);
    assert "A"[0] != "B"[0];
    DiamondFromCUnchecked(p, l, u, AfterA(l));
    assert ["A"] + ["C", "B", "B"] == ["A", "C", "B", "B"];
  }

  /**
   * The older converter resolves `B` twice from the diamond: after `A`, the
   * queue holds `B` and `C`; `C` queues `B` again since only the resolved
   * list is checked, and both copies of `B` are then resolved and handed over.
   */
  lemma SyntaxTreeResolvesTwice()
    ensures Run(SyntaxTree, Diamond(), ["A"], []).resolved == ["A", "C", "B", "B"]
  {
    DiamondEntries();
    DiamondRunUnchecked(SyntaxTree, Diamond());
  }

  /** The current converter resolves each class of the diamond once: `C` does not queue the `B` already waiting. */
  lemma DefinitionTreeResolvesOnce()
    ensures Run(DefinitionTree, Diamond(), ["A"], []).resolved == ["A", "C", "B"]
  {
    DiamondEntries();
    DiamondRunChecked(DefinitionTree, Diamond());
  }

  /** A turn logs one progress entry: the batch it takes, or the single name. */
  lemma StepProgress(p: Policy, l: Lookup, u: set<string>, x: string, queue: seq<string>, t: Trace)
    requires ImportsWithin(l, u)
    ensures Step(p, l, x, queue, t).1.progress
         == t.progress + [if p.batchFrom.Some? && |queue| >= p.batchFrom.value then Batch([x] + queue) else One(x)]
  {
    if p.batchFrom.Some? && |queue| >= p.batchFrom.value {
      var names := [x] + queue;
      FinishAllPushes(p, l, u, names, [], t.(resolved := t.resolved + names, progress := t.progress + [Batch(names)]));
    } else {
      FinishPushes(p, l, u, x, queue, t.(resolved := t.resolved + [x], progress := t.progress + [One(x)]));
    }
  }

  /**
   * With two roots, the first turn is a batch of both, last root first,
   * exactly when the policy batches from one remaining name; otherwise it is
   * the last root alone.
   */
  lemma FirstTurnOfTwo(p: Policy, l: Lookup, x: string, y: string)
    requires !p.fifo && y != ""
    ensures var r := Run(p, l, [x, y], []);
      |r.progress| > 0
      && r.progress[0] == if p.batchFrom.Some? && p.batchFrom.value <= 1 then Batch([y, x]) else One(y)
  {
    var u := Universe([x, y], l);
    var t := Trace([], [], [], None);
    PopSmall(p, x, y);
    StepProgress(p, l, u, y, [x], t);
    var (q, t') := Step(p, l, y, [x], t);
    assert [y] + [x] == [y, x];
    if t'.failed.None? {
      DrainTurn(p, l, u, y, [x], t);
      DrainGrows(p, l, u, Pop(p, q).0, Pop(p, q).1, t');
    }
  }

  /** On the same two roots, `createModuleDeclarationForClass` starts with a batch where `readAndConvert` starts with one name. */
  lemma BatchThresholdsDiffer(l: Lookup)
    ensures var r := Run(ModuleDeclarations, l, ["X", "Y"], []);
      |r.progress| > 0 && r.progress[0] == Batch(["Y", "X"])
    ensures var r := Run(ReadAndConvert, l, ["X", "Y"], []);
      |r.progress| > 0 && r.progress[0] == One("Y")
  {
    FirstTurnOfTwo(ModuleDeclarations, l, "X", "Y");
    FirstTurnOfTwo(ReadAndConvert, l, "X", "Y");
  }
}
