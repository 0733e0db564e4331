/** Finding or improving a linearization (`Linearize`). */
module Linearization {
  import opened FeeFracs
  import opened TxSets
  import opened Partitions
  import opened Diagrams
  import opened Forests
  import opened ForestStates
  import opened ForestGraphs
  import opened MergeSearch
  import opened ForestWork
  import opened ForestRuns
  import opened Ancestry
  import opened Orders
  import opened DepGraphs
  import opened Loading
  import opened Outputs
  import opened Linearizing
  import opened SpanningForests
  import OptimalStates

  /** The forest's dependencies are the reduced parents of every transaction. */
  ghost predicate ReducedGraph(anc: Anc, g: Graph) {
    && GraphOk(g) && g.txs == anc.Keys && IsClosure(anc) && Acyclic(anc)
    && AllReduced(anc, g)
  }

  lemma {:induction false} ParentOf(anc: Anc, g: Graph, e: Dep)
    requires ReducedGraph(anc, g) && e in g.deps
    ensures e.parent in anc && e.child in anc && e.parent != e.child && e.parent in anc[e.child]
  {
    assert ReducedAt(anc, g, e.child);
    assert ParentsAt(g.deps, g.parents, e.child);
  }

  lemma {:induction false} ParentsFirstFrom(anc: Anc, g: Graph, lin: seq<Tx>)
    requires ReducedGraph(anc, g) && AncestorsFirst(anc, lin)
    ensures ParentsFirst(DepSet(g.deps), lin)
  {
    forall e, k | e in DepSet(g.deps) && 0 <= k < |lin| && lin[k] == e.child ensures e.parent in lin[..k] {
      ParentOf(anc, g, e);
      assert HasBefore(anc, lin, k);
      assert lin[..k + 1] == lin[..k] + [lin[k]];
    }
  }

  lemma {:induction false} AncestorsFirstFrom(anc: Anc, g: Graph, lin: seq<Tx>)
    requires ReducedGraph(anc, g) && IsPermutation(lin, g.txs) && ParentsFirst(DepSet(g.deps), lin)
    ensures AncestorsFirst(anc, lin)
  {
    assert forall t :: t in anc ==> ReducedAt(anc, g, t);
    var reduced := map t | t in anc :: g.parents[t];
    forall k | 0 <= k < |lin| ensures HasBefore(anc, lin, k) {
      var s := Elems(lin[..k + 1]);
      assert lin[k] in Elems(lin);
      forall i, p | i in s && i in anc && p in reduced[i] ensures p in s {
        ParentBefore(g, lin, k, i, p);
      }
      forall i | i in anc ensures IsReduced(anc, i, reduced[i]) {
        assert ReducedAt(anc, g, i);
      }
      ClosedUnderAncestors(anc, reduced, s, lin[k]);
    }
  }

  lemma {:induction false} ParentBefore(g: Graph, lin: seq<Tx>, k: nat, i: Tx, p: Tx)
    requires GraphOk(g) && ParentsFirst(DepSet(g.deps), lin) && k < |lin| && i in lin[..k + 1] && i in g.txs && i in g.parents && p in g.parents[i]
    ensures p in lin[..k + 1]
  {
    assert ParentsAt(g.deps, g.parents, i);
    var j :| 0 <= j <= k && lin[j] == i;
    assert Dep(p, i) in DepSet(g.deps);
    assert p in lin[..j];
  }

  lemma {:induction false} ClosedFrom(anc: Anc, g: Graph, s: set<Tx>)
    requires ReducedGraph(anc, g) && AncestorClosed(anc, s)
    ensures Closed(g.deps, s)
  {
    forall d | 0 <= d < |g.deps| && g.deps[d].child in s ensures g.deps[d].parent in s {
      ParentOf(anc, g, g.deps[d]);
    }
  }

  /** In an acyclic graph, a child has more ancestors than its parents. */
  lemma {:induction false} RankedByAncestors(anc: Anc, g: Graph)
    requires ReducedGraph(anc, g)
    ensures Ranked(g.deps, map t | t in anc :: |anc[t]|)
  {
    forall e | e in g.deps ensures e.parent in anc && e.child in anc && |anc[e.parent]| < |anc[e.child]| {
      ParentOf(anc, g, e);
      assert Inherits(anc, e.child, e.parent);
      assert e.child in anc[e.child] && e.child !in anc[e.parent];
      Smaller(anc[e.parent], anc[e.child]);
    }
  }

  /** A state without improvable dependencies gives an optimal linearization. */
  lemma {:induction false} OptimalFrom(anc: Anc, g: Graph, fees: Fees, f: Forest, lin: seq<Tx>)
    requires ReducedGraph(anc, g) && f.part.Keys == g.txs && IsForest(g.deps, f) && NoImprovable(g.deps, fees, f)
    requires forall r: FeeFrac :: r.size > 0 ==> Best(fees, lin, r) >= Potential(fees, Chunks(f.part), r)
    ensures IsOptimal(anc, fees, lin)
  {
    forall s | AncestorClosed(anc, s) ensures NotAbove(fees, s, lin) {
      ClosedFrom(anc, g, s);
      forall r: FeeFrac | r.size > 0 ensures SetExcess(fees, s, r) <= Best(fees, lin, r) {
        OptimalState(g.deps, fees, f, s, r);
      }
    }
  }

  /** Every graph has an optimal state. */
  lemma {:induction false} OptimalExists(anc: Anc, g: Graph, fees: Fees) returns (f: Forest)
    requires ReducedGraph(anc, g)
    ensures f.part.Keys == g.txs && IsForest(g.deps, f) && IsTopological(g, fees, f) && NoImprovable(g.deps, fees, f)
  {
    RankedByAncestors(anc, g);
    f := OptimalStates.OptimalStateExists(g.deps, g.txs, fees, map t | t in anc :: |anc[t]|);
  }

  /** `lin` consists of the chunks, by non-increasing feerate. */
  ghost predicate WrittenFrom(fees: Fees, part: Partition, lin: seq<Tx>) {
    exists groups :: GroupsOk(fees, part, groups) && lin == Flatten(groups)
  }

  /** How a result came about: `hs[0]` made separate transactions into a topological state, by merging upward if a
      linearization was given; then improvements followed, each begun below the budget; and the last state was written. */
  ghost predicate Obtained(anc: Anc, g: Graph, fees: Fees, budget: nat, given: seq<Tx>, hs: seq<History>, lin: seq<Tx>, cost: nat) {
    && ReducedGraph(anc, g) && Rounds(g, fees, budget, hs)
    && Merges(g, fees, if given == [] then {false, true} else {false}, Begun(Singletons(g.txs)), hs[0])
    && Recorded(g, Last(hs[|hs| - 1]), cost, hs[|hs| - 1]) && WrittenFrom(fees, Last(hs[|hs| - 1]).part, lin)
  }

  /** Find a linearization, or improve `given`. The last three results say how it came about, which chunks were
      still to be looked at, and on which dependencies. */
  method Linearize(depgraph: DepGraph, maxIterations: nat, given: seq<Tx>)
    returns (lin: seq<Tx>, optimal: bool, cost: nat, ghost hs: seq<History>, ghost left: seq<Tx>, ghost g: Graph)
    requires depgraph.Valid() && Acyclic(depgraph.Ancestors())
    requires given == [] || IsLinearization(depgraph.Ancestors(), given)
    ensures IsLinearization(depgraph.Ancestors(), lin)
    ensures NowhereBelow(depgraph.FeeMap(), lin, given)
    ensures optimal ==> IsOptimal(depgraph.Ancestors(), depgraph.FeeMap(), lin)
    ensures !optimal ==> cost >= maxIterations
    ensures Obtained(depgraph.Ancestors(), g, depgraph.FeeMap(), maxIterations, given, hs, lin, cost)
    ensures optimal <==> Work(hs[0]) < maxIterations && left == []
  {
    ghost var anc := depgraph.Ancestors();
    var forest := new SpanningForest(depgraph);
    assert depgraph.Ancestors() == anc;
    lin, optimal, cost, hs, left := LinearizeForest(forest, maxIterations, given, anc);
    g := forest.g;
  }

  method LinearizeForest(forest: SpanningForest, maxIterations: nat, given: seq<Tx>, ghost anc: Anc)
    returns (lin: seq<Tx>, optimal: bool, cost: nat, ghost hs: seq<History>, ghost left: seq<Tx>)
    requires forest.Valid() && forest.f == Singletons(forest.g.txs) && forest.h == Begun(forest.f) && ReducedGraph(anc, forest.g)
    requires given == [] || IsLinearization(anc, given)
    modifies forest
    ensures IsLinearization(anc, lin) && NowhereBelow(forest.fees, lin, given)
    ensures optimal ==> IsOptimal(anc, forest.fees, lin)
    ensures !optimal ==> cost >= maxIterations
    ensures Obtained(anc, forest.g, forest.fees, maxIterations, given, hs, lin, cost)
    ensures optimal <==> Work(hs[0]) < maxIterations && left == []
  {
    Start(forest, given, anc);
    optimal, hs := Optimize(forest, maxIterations);
    lin := Finish(forest, anc);
    if optimal {
      OptimalFrom(anc, forest.g, forest.fees, forest.f, lin);
    }
    cost, left := forest.s.cost, forest.s.suboptimal;
  }

  method Finish(forest: SpanningForest, ghost anc: Anc) returns (lin: seq<Tx>)
    requires forest.Valid() && IsTopological(forest.g, forest.fees, forest.f) && ReducedGraph(anc, forest.g)
    ensures IsLinearization(anc, lin) && WrittenFrom(forest.fees, forest.f.part, lin)
    ensures forall r: FeeFrac :: r.size > 0 ==> Best(forest.fees, lin, r) >= Potential(forest.fees, Chunks(forest.f.part), r)
  {
    RankedByAncestors(anc, forest.g);
    ghost var groups;
    lin, groups := forest.GetLinearization(map t | t in anc :: |anc[t]|);
    AncestorsFirstFrom(anc, forest.g, lin);
  }

  /** Begin with the given linearization, or with any topological state. */
  method Start(forest: SpanningForest, given: seq<Tx>, ghost anc: Anc)
    requires forest.Valid() && forest.f == Singletons(forest.g.txs) && ReducedGraph(anc, forest.g)
    requires given == [] || IsLinearization(anc, given)
    modifies forest
    ensures forest.Valid() && IsTopological(forest.g, forest.fees, forest.f) && AtLeastBest(forest.fees, forest.f.part, given)
    ensures Merges(forest.g, forest.fees, if given == [] then {false, true} else {false}, old(forest.h), forest.h)
  {
    if given != [] {
      ParentsFirstFrom(anc, forest.g, given);
      forest.LoadLinearization(given);
    } else {
      forest.MakeTopological();
    }
  }

  /** Improve until the state is optimal or the budget is used up. */
  method Optimize(forest: SpanningForest, maxIterations: nat) returns (optimal: bool, ghost hs: seq<History>)
    requires forest.Valid() && IsTopological(forest.g, forest.fees, forest.f)
    modifies forest
    ensures forest.Valid() && IsTopological(forest.g, forest.fees, forest.f)
    ensures NeverWorse(forest.fees, old(forest.f).part, forest.f.part)
    ensures optimal ==> NoImprovable(forest.g.deps, forest.fees, forest.f)
    ensures !optimal ==> forest.s.cost >= maxIterations
    ensures optimal <==> old(forest.s.cost) < maxIterations && forest.s.suboptimal == []
    ensures RoundsTo(forest.g, forest.fees, maxIterations, old(forest.h), hs, forest.h)
  {
    optimal, hs := false, [forest.h];
    FirstRound(forest.g, forest.fees, maxIterations, forest.h);
    NeverWorseRefl(forest.fees, forest.f.part);
    if forest.s.cost < maxIterations {
      forest.StartOptimizing();
      var more := true;
      while more
        invariant forest.Valid() && IsTopological(forest.g, forest.fees, forest.f)
        invariant more ==> QueueOk(forest.g, forest.fees, forest.f, forest.s) && forest.s.cost < maxIterations
        invariant NeverWorse(forest.fees, old(forest.f).part, forest.f.part)
        invariant optimal ==> NoImprovable(forest.g.deps, forest.fees, forest.f)
        invariant !more && !optimal ==> forest.s.cost >= maxIterations
        invariant !more ==> (optimal <==> forest.s.suboptimal == [])
        invariant RoundsTo(forest.g, forest.fees, maxIterations, old(forest.h), hs, forest.h)
        decreases more, maxIterations - forest.s.cost, |forest.s.suboptimal|
      {
        more, hs := OptimizeRound(forest, maxIterations, old(forest.h), hs);
        optimal := !more;
        more := more && forest.s.cost < maxIterations;
      }
    }
  }

  /** One optimization step, entered into the rounds if it was an improvement. */
  method OptimizeRound(forest: SpanningForest, ghost budget: nat, ghost h0: History, ghost hs: seq<History>)
    returns (more: bool, ghost hs2: seq<History>)
    requires forest.Valid() && IsTopological(forest.g, forest.fees, forest.f) && QueueOk(forest.g, forest.fees, forest.f, forest.s)
    requires RoundsTo(forest.g, forest.fees, budget, h0, hs, forest.h) && forest.s.cost < budget
    modifies forest
    ensures forest.Valid() && IsTopological(forest.g, forest.fees, forest.f) && QueueOk(forest.g, forest.fees, forest.f, forest.s)
    ensures NeverWorse(forest.fees, old(forest.f).part, forest.f.part)
    ensures more <==> forest.s.suboptimal != []
    ensures !more ==> NoImprovable(forest.g.deps, forest.fees, forest.f)
    ensures more && forest.s.cost <= old(forest.s.cost) ==>
      forest.s.cost == old(forest.s.cost) && |forest.s.suboptimal| < |old(forest.s.suboptimal)|
    ensures RoundsTo(forest.g, forest.fees, budget, h0, hs2, forest.h)
  {
    ghost var h := forest.h;
    more := forest.OptimizeStep();
    hs2 := hs;
    if forest.h != h {
      NextRound(forest.g, forest.fees, budget, h0, hs, h, forest.h);
      hs2 := hs + [forest.h];
    }
  }
}
