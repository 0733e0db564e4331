/** The spanning-forest linearization state (`SpanningForestState`), updated in place. */
module SpanningForests {
  import opened FeeFracs
  import opened TxSets
  import opened Partitions
  import opened Improvement
  import opened Forests
  import opened ForestStates
  import opened Chunking
  import opened ForestData
  import opened ForestGraphs
  import opened MergeSearch
  import opened DepPicking
  import opened ForestWork
  import opened ForestRuns
  import opened Diagrams
  import opened Ancestry
  import opened DepGraphs
  import opened Orders
  import opened Loading
  import opened Outputs
  import opened Linearizing

  class SpanningForest {
    const g: Graph
    ghost const fees: Fees
    var s: State
    /** The forest state that the fields represent. */
    ghost var f: Forest
    /** The activations and deactivations that led to it. */
    ghost var h: History

    ghost predicate Valid()
      reads this
    {
      Good(g, fees, f, s) && Recorded(g, f, s.cost, h)
    }

    /** A forest for the given graph, with every transaction in its own chunk. */
    constructor (depgraph: DepGraph)
      requires depgraph.Valid()
      ensures Valid() && g.txs == depgraph.used && fees == depgraph.FeeMap() && f == Singletons(g.txs)
      ensures s.suboptimal == [] && s.cost == 0 && h == Begun(f)
      ensures AllReduced(depgraph.Ancestors(), g)
    {
      var gr := BuildGraph(depgraph);
      var feerates := map t | t in depgraph.used :: depgraph.entries[t].feerate;
      InitialGood(gr, feerates);
      RecordStart(gr);
      g, fees := gr, feerates;
      f, s, h := Singletons(gr.txs), InitialState(gr.txs, feerates, |gr.deps|), Begun(Singletons(gr.txs));
    }

    /** Take the first entry off the queue of chunks. */
    method Dequeue() returns (chunk: Tx)
      requires Valid() && s.suboptimal != []
      modifies this`s
      ensures Valid() && chunk == old(s).suboptimal[0] && chunk in g.txs && s == old(s).(suboptimal := old(s).suboptimal[1..])
    {
      chunk := s.suboptimal[0];
      s := s.(suboptimal := s.suboptimal[1..]);
    }

    /** Append an entry to the queue of chunks. */
    method Enqueue(chunk: Tx)
      requires Valid() && chunk in g.txs
      modifies this`s
      ensures Valid() && s == old(s).(suboptimal := old(s).suboptimal + [chunk])
    {
      s := s.(suboptimal := s.suboptimal + [chunk]);
    }

    /** Take over another state. */
    method Replace(ghost f2: Forest, s2: State, ghost h2: History)
      requires Good(g, fees, f2, s2) && Recorded(g, f2, s2.cost, h2)
      modifies this
      ensures Valid() && f == f2 && s == s2 && h == h2
    {
      f, s, h := f2, s2, h2;
    }

    /** Make an inactive dependency active, merging two chunks. */
    method Activate(d: DepIdx) returns (rep: Tx)
      requires Valid() && d < |g.deps|
      requires f.part[g.deps[d].parent] != f.part[g.deps[d].child]
      modifies this
      ensures Valid() && Joined(g, old(f), old(s), d, f, s, rep) && Entered(old(h), old(s), Activation(d), f, s, h)
    {
      var st: State;
      ghost var f2, h2;
      st, rep, f2, h2 := ActivateRecorded(g, s, d, fees, f, h);
      Replace(f2, st, h2);
    }

    /** Make an active dependency inactive, splitting its chunk. */
    method Deactivate(d: DepIdx)
      requires Valid() && d in f.act
      modifies this
      ensures Valid() && f == Deactivated(g.deps, old(f), d)
      ensures Entered(old(h), old(s), Deactivation(d), f, s, h)
      ensures s.suboptimal == old(s.suboptimal) && s.cost == old(s.cost) + |old(f).part[g.deps[d].parent]| > old(s.cost)
      ensures s.chunkRep == SplitRedirected(old(s.chunkRep), g.deps[d].parent, g.deps[d].child, old(f).top[d],
                                            old(f).part[g.deps[d].parent] - old(f).top[d])
    {
      var st, h2 := DeactivateRecorded(g, s, d, fees, f, h);
      Replace(Deactivated(g.deps, f, d), st, h2);
    }

    /** Merge the chunk of `rep` once, upward or downward, if possible. `x` is any transaction of the
        chunk, `y` one of the chunk it was merged with. */
    method MergeStep(rep: Tx, down: bool, ghost x: Tx) returns (merged: bool, newRep: Tx, ghost y: Tx)
      requires Valid() && RepOf(f, s, rep, x)
      modifies this
      ensures Valid()
      ensures !merged ==> s == old(s) && f == old(f) && Stuck(g, fees, down, f, x)
      ensures merged ==> StepRel(g, fees, down, old(f), old(s), f, s, x, y) && RepOf(f, s, newRep, x)
      ensures (!merged ==> h == old(h)) && Merges(g, fees, {down}, old(h), h)
    {
      y := x;
      newRep := rep;
      var other: Tx;
      merged, other := FindMergePartner(g, s, rep, down, fees, f);
      if !merged {
        return;
      }
      y := other;
      var d := PartnerDependency(g, s, rep, other, down, fees, f);
      PartnerMerges(g, fees, down, f, d, rep, other);
      newRep := Activate(d);
      MergesNext(g, fees, {down}, old(h), old(h), d, down, f, s.cost - old(s).cost);
      StepOutcome(g, fees, old(f), old(s), f, s, d, x, y, newRep);
    }

    /** Merge the chunk of `tx` as often as possible, upward or downward, and queue the result. */
    method MergeSequence(tx: Tx, down: bool) returns (ghost ys: seq<Tx>, ghost s1: State)
      requires Valid() && tx in g.txs
      modifies this
      ensures Valid() && RunRel(g, fees, down, old(f), old(s), f, s1, tx, ys) && Stuck(g, fees, down, f, tx)
      ensures tx in s1.chunkRep && s == s1.(suboptimal := s1.suboptimal + [s1.chunkRep[tx]])
      ensures Merges(g, fees, {down}, old(h), h)
    {
      var rep;
      rep, ys := MergeWhilePossible(tx, down);
      SameRep(fees, f.part, s.chunkRep, s.chunkInfo, tx, rep);
      s1 := s;
      Enqueue(rep);
    }

    method MergeWhilePossible(tx: Tx, down: bool) returns (rep: Tx, ghost ys: seq<Tx>)
      requires Valid() && tx in g.txs
      modifies this
      ensures Valid() && RunRel(g, fees, down, old(f), old(s), f, s, tx, ys) && Stuck(g, fees, down, f, tx)
      ensures RepOf(f, s, rep, tx) && Merges(g, fees, {down}, old(h), h)
    {
      RunRelStart(g, fees, down, f, s, tx);
      rep := s.chunkRep[tx];
      ys := [];
      var going := true;
      while going
        invariant Valid() && RepOf(f, s, rep, tx) && RunRel(g, fees, down, old(f), old(s), f, s, tx, ys)
        invariant Merges(g, fees, {down}, old(h), h)
        invariant !going ==> Stuck(g, fees, down, f, tx)
        decreases |Chunks(f.part)|, going
      {
        ghost var f0, s0, h0 := f, s, h;
        var merged, newRep, y := MergeStep(rep, down, tx);
        MergesTrans(g, fees, {down}, old(h), h0, h);
        if merged {
          rep := newRep;
          RunRelStep(g, fees, down, old(f), old(s), f0, s0, f, s, tx, ys, y);
          ys := ys + [y];
        } else {
          going := false;
        }
      }
    }

    /** Split a chunk at an eligible dependency, then merge the two parts upward and downward. */
    method Improve(d: DepIdx)
      requires Valid() && IsTopological(g, fees, f) && d in f.act
      requires Higher(Total(fees, f.top[d]), Total(fees, f.part[g.deps[d].parent]))
      modifies this
      ensures Valid() && ImproveRel(g, fees, old(f), old(s), f, s, old(f).part[g.deps[d].parent])
      ensures Improves(g, fees, old(h), h)
    {
      var p, c := g.deps[d].parent, g.deps[d].child;
      TreeEnds(g.deps, f, d);
      Deactivate(d);
      ghost var s1 := s;
      var ys, m2 := MergeSequence(p, false);
      ghost var f2, s2, h2 := f, s, h;
      var zs, m3 := MergeSequence(c, true);
      assert ImprovesBy(g, fees, old(h), d, h2, h);
      ImprovePartition(g, fees, old(f), d, s1, f2, m2, s2, ys, f, m3, zs);
      ImproveQueues(g, fees, old(f), old(s), d, s1, f2, m2, s2, ys, f, m3, s, zs);
    }

    /** Load an existing linearization, right after construction. If it has parents before their
        children, the result is a topological state whose diagram is nowhere below it. */
    method LoadLinearization(lin: seq<Tx>)
      requires Valid() && f == Singletons(g.txs) && IsPermutation(lin, g.txs)
      modifies this
      ensures Valid() && s.suboptimal == old(s).suboptimal
      ensures ParentsFirst(DepSet(g.deps), lin) ==> IsTopological(g, fees, f)
      ensures ParentsFirst(DepSet(g.deps), lin) ==> AtLeastBest(fees, f.part, lin)
      ensures Merges(g, fees, {false}, old(h), h)
    {
      LoadStart(DepSet(g.deps), fees, g.txs, lin);
      for k := 0 to |lin|
        invariant Valid() && s.suboptimal == old(s).suboptimal
        invariant Merges(g, fees, {false}, old(h), h)
        invariant ParentsFirst(DepSet(g.deps), lin) ==> LoadedPrefix(DepSet(g.deps), fees, f.part, lin, k)
      {
        assert lin[k] in Elems(lin);
        ghost var part, h0 := f.part, h;
        var rep, ys := MergeWhilePossible(lin[k], false);
        MergesTrans(g, fees, {false}, old(h), h0, h);
        if ParentsFirst(DepSet(g.deps), lin) {
          LoadNext(DepSet(g.deps), fees, part, lin, k, ys);
        }
      }
      if ParentsFirst(DepSet(g.deps), lin) {
        LoadEnd(DepSet(g.deps), fees, f.part, lin);
      }
    }

    /** Merge a chunk once, upward or downward, trying a random direction first. */
    method MergeEitherWay(chunk: Tx) returns (merged: bool, rep: Tx, ghost down: bool, ghost y: Tx)
      requires Valid() && RepOf(f, s, chunk, chunk)
      modifies this
      ensures Valid()
      ensures !merged ==> s == old(s) && f == old(f) && Stuck(g, fees, false, f, chunk) && Stuck(g, fees, true, f, chunk)
      ensures merged ==> StepRel(g, fees, down, old(f), old(s), f, s, chunk, y) && RepOf(f, s, rep, chunk)
      ensures Merges(g, fees, {false, true}, old(h), h)
    {
      var first: bool := *;
      merged, rep, y := MergeStep(chunk, first, chunk);
      down := first;
      if !merged {
        merged, rep, y := MergeStep(chunk, !first, chunk);
        down := !first;
      }
      MergesEither(g, fees, down, old(h), h);
    }

    /** Take a chunk off the queue and merge it once, if possible. */
    method MergeNext()
      requires Valid() && PendingOk(g, fees, f, s) && s.suboptimal != []
      modifies this
      ensures Valid() && PendingOk(g, fees, f, s)
      ensures |Chunks(f.part)| < |Chunks(old(f).part)| || (f == old(f) && |s.suboptimal| < |old(s).suboptimal|)
      ensures Merges(g, fees, {false, true}, old(h), h)
    {
      var chunk := Dequeue();
      ghost var s1 := s;
      if s.chunkRep[chunk] != chunk {
        PendingStale(g, fees, f, old(s), s);
        return;
      }
      var merged, rep, down, y := MergeEitherWay(chunk);
      if merged {
        ghost var m1 := s;
        Enqueue(rep);
        PendingMerged(g, fees, down, old(f), old(s), s1, f, m1, s, chunk, y, rep);
      } else {
        PendingSettled(g, fees, f, old(s), chunk, s);
      }
    }

    /** Merge chunks until the state is topological. */
    method MakeTopological()
      requires Valid()
      modifies this
      ensures Valid() && IsTopological(g, fees, f) && s.suboptimal == []
      ensures Merges(g, fees, {false, true}, old(h), h)
    {
      QueueAll();
      PendingStart(g, fees, f, s);
      while s.suboptimal != []
        invariant Valid() && PendingOk(g, fees, f, s)
        invariant Merges(g, fees, {false, true}, old(h), h)
        decreases |Chunks(f.part)|, |s.suboptimal|
      {
        ghost var h0 := h;
        MergeNext();
        MergesTrans(g, fees, {false, true}, old(h), h0, h);
      }
      PendingDone(g, fees, f, s);
    }

    method StartOptimizing()
      requires Valid()
      modifies this
      ensures Valid() && f == old(f) && h == old(h) && QueueOk(g, fees, f, s) && s.cost == old(s).cost
    {
      QueueAll();
      AllQueued(g, fees, f, s);
    }

    /** Queue every chunk, in arbitrary order. */
    method QueueAll()
      requires Valid()
      modifies this
      ensures Valid() && f == old(f) && h == old(h) && s.cost == old(s).cost && s.chunkRep == old(s).chunkRep
      ensures forall t :: t in g.txs && s.chunkRep[t] == t ==> t in s.suboptimal
    {
      var todo := g.txs;
      while todo != {}
        invariant todo <= g.txs && Valid() && f == old(f) && h == old(h)
        invariant s.chunkRep == old(s).chunkRep && s.cost == old(s).cost
        invariant forall t :: t in g.txs - todo && s.chunkRep[t] == t ==> t in s.suboptimal
        decreases todo
      {
        var tx :| tx in todo;
        todo := todo - {tx};
        if s.chunkRep[tx] == tx {
          var j: nat :| j <= |s.suboptimal|;
          s := s.(suboptimal := Shuffled(s.suboptimal, tx, j));
        }
      }
    }

    /** Try to improve one chunk. The result says whether chunks remain to be looked at. */
    method OptimizeStep() returns (more: bool)
      requires Valid() && IsTopological(g, fees, f) && QueueOk(g, fees, f, s)
      modifies this
      ensures Valid() && IsTopological(g, fees, f) && QueueOk(g, fees, f, s)
      ensures NeverWorse(fees, old(f).part, f.part)
      ensures more <==> s.suboptimal != []
      ensures !more ==> NoImprovable(g.deps, fees, f)
      ensures more ==> s.cost > old(s).cost || (s.cost == old(s).cost && |s.suboptimal| < |old(s).suboptimal|)
      ensures h == old(h) || Improves(g, fees, old(h), h)
    {
      NeverWorseRefl(fees, f.part);
      while s.suboptimal != []
        invariant Valid() && QueueOk(g, fees, f, s) && f == old(f) && h == old(h)
        invariant s.cost == old(s).cost && |s.suboptimal| <= |old(s).suboptimal|
        decreases |s.suboptimal|
      {
        ghost var s0 := s;
        var chunk := Dequeue();
        if s.chunkRep[chunk] != chunk {
          DropStale(g, fees, f, s0, chunk, s);
          continue;
        }
        PopEntry(g, fees, f, s0, chunk, s);
        var found, dep := FindImprovable(g, s, chunk, fees, f);
        if found {
          ghost var f1, s1 := f, s;
          SameChunk(f.part, chunk, g.deps[dep].parent);
          Improve(dep);
          ImproveKeepsQueue(g, fees, f1, s1, f, s, f1.part[chunk]);
        } else {
          GoodIsHandled(g, fees, f, s, chunk);
        }
        more := s.suboptimal != [];
        if !more {
          EmptyQueueOptimal(g, fees, f, s);
        }
        return;
      }
      EmptyQueueOptimal(g, fees, f, s);
      more := false;
    }

    /** The linearization of a topological state: a permutation, parents first, made of the chunks by
        non-increasing feerate, and nowhere below the diagram of the state. */
    method GetLinearization(ghost rank: map<Tx, nat>) returns (ret: seq<Tx>, ghost groups: seq<seq<Tx>>)
      requires Valid() && IsTopological(g, fees, f) && Ranked(g.deps, rank) && rank.Keys == g.txs
      ensures IsPermutation(ret, g.txs) && ParentsFirst(DepSet(g.deps), ret)
      ensures ret == Flatten(groups) && GroupsOk(fees, f.part, groups)
      ensures forall r: FeeFrac :: r.size > 0 ==> Best(fees, ret, r) >= Potential(fees, Chunks(f.part), r)
    {
      ret, groups := WriteLinearization(g, s, fees, f, rank);
    }
  }
}
