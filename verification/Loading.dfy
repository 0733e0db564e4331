/** Value-level arguments for building a forest, for loading an existing linearization, and for
    making a state topological. */
module Loading {
  import opened FeeFracs
  import opened TxSets
  import opened Partitions
  import opened Improvement
  import opened Diagrams
  import opened Forests
  import opened ForestStates
  import opened Chunking
  import opened ForestData
  import opened ForestGraphs
  import opened MergeSearch
  import opened ForestRuns
  import opened Ancestry
  import opened Orders
  import opened DepGraphs

  // ---------- Construction ----------

  ghost predicate HasEntries(g: Graph, t: Tx) {
    t in g.parents && t in g.children && t in g.childDeps
  }

  function Unconnected(txs: set<Tx>): Graph {
    Graph(txs, [], map t | t in txs :: {}, map t | t in txs :: {}, map t | t in txs :: [])
  }

  /** The graph with one more dependency. */
  function WithDep(g: Graph, par: Tx, tx: Tx): Graph
    requires tx in g.parents && par in g.children && par in g.childDeps
  {
    Graph(g.txs, g.deps + [Dep(par, tx)],
          g.parents[tx := g.parents[tx] + {par}],
          g.children[par := g.children[par] + {tx}],
          g.childDeps[par := g.childDeps[par] + [|g.deps|]])
  }

  lemma {:induction false} UnconnectedOk(txs: set<Tx>)
    ensures GraphOk(Unconnected(txs))
  {
    var g := Unconnected(txs);
    forall t | t in txs
      ensures ParentsAt(g.deps, g.parents, t) && ChildrenAt(g.deps, g.children, t) && ChildDepsAt(g.deps, g.childDeps, t)
    {}
  }

  lemma {:induction false} WithDepOk(g: Graph, par: Tx, tx: Tx)
    requires GraphOk(g) && par in g.txs && tx in g.txs && HasEntries(g, par) && HasEntries(g, tx)
    requires par !in g.parents[tx]
    ensures GraphOk(WithDep(g, par, tx))
  {
    var h := WithDep(g, par, tx);
    assert Dep(par, tx) !in g.deps by { assert ParentsAt(g.deps, g.parents, tx); }
    forall t | t in g.txs ensures ParentsAt(h.deps, h.parents, t) {
      assert ParentsAt(g.deps, g.parents, t);
      MoreParents(g, par, tx, t);
    }
    forall t | t in g.txs ensures ChildrenAt(h.deps, h.children, t) {
      assert ChildrenAt(g.deps, g.children, t);
      MoreChildren(g, par, tx, t);
    }
    forall t | t in g.txs ensures ChildDepsAt(h.deps, h.childDeps, t) {
      assert ChildDepsAt(g.deps, g.childDeps, t);
      MoreChildDeps(g, par, tx, t);
    }
  }

  lemma {:induction false} MoreParents(g: Graph, par: Tx, tx: Tx, t: Tx)
    requires HasEntries(g, par) && HasEntries(g, tx) && ParentsAt(g.deps, g.parents, t)
    ensures ParentsAt(WithDep(g, par, tx).deps, WithDep(g, par, tx).parents, t)
  {}

  lemma {:induction false} MoreChildren(g: Graph, par: Tx, tx: Tx, t: Tx)
    requires HasEntries(g, par) && HasEntries(g, tx) && ChildrenAt(g.deps, g.children, t)
    ensures ChildrenAt(WithDep(g, par, tx).deps, WithDep(g, par, tx).children, t)
  {}

  lemma {:induction false} MoreChildDeps(g: Graph, par: Tx, tx: Tx, t: Tx)
    requires HasEntries(g, par) && HasEntries(g, tx) && ChildDepsAt(g.deps, g.childDeps, t)
    ensures ChildDepsAt(WithDep(g, par, tx).deps, WithDep(g, par, tx).childDeps, t)
  {}

  ghost predicate ReducedAt(anc: Anc, g: Graph, t: Tx) {
    t in anc && t in g.parents && IsReduced(anc, t, g.parents[t])
  }

  ghost predicate AllReduced(anc: Anc, g: Graph) {
    forall t {:trigger ReducedAt(anc, g, t)} :: t in g.txs ==> ReducedAt(anc, g, t)
  }

  /** List all dependencies of a graph, by reduced parents. */
  method BuildGraph(depgraph: DepGraph) returns (g: Graph)
    requires depgraph.Valid()
    ensures GraphOk(g) && g.txs == depgraph.used
    ensures AllReduced(depgraph.Ancestors(), g)
  {
    ghost var anc := depgraph.Ancestors();
    g := Unconnected(depgraph.used);
    UnconnectedOk(depgraph.used);
    var todo := depgraph.used;
    while todo != {}
      invariant todo <= g.txs == depgraph.used && GraphOk(g) && Complete(g)
      invariant forall t :: t in todo ==> g.parents[t] == {}
      invariant forall t {:trigger ReducedAt(anc, g, t)} :: t in g.txs - todo ==> ReducedAt(anc, g, t)
      decreases todo
    {
      var tx :| tx in todo;
      todo := todo - {tx};
      var parents := depgraph.GetReducedParents(tx);
      ghost var h := g;
      g := AddParents(g, tx, parents);
      ReducedNext(anc, h, g, tx, parents, todo);
    }
  }

  lemma {:induction false} ReducedNext(anc: Anc, h: Graph, g: Graph, tx: Tx, parents: set<Tx>, todo: set<Tx>)
    requires g.txs == h.txs && g.parents == h.parents[tx := parents] && tx in anc && IsReduced(anc, tx, parents)
    requires forall t {:trigger ReducedAt(anc, h, t)} :: t in h.txs - todo - {tx} ==> ReducedAt(anc, h, t)
    ensures forall t {:trigger ReducedAt(anc, g, t)} :: t in g.txs - todo ==> ReducedAt(anc, g, t)
  {
    forall t | t in g.txs - todo ensures ReducedAt(anc, g, t) {
      assert t != tx ==> ReducedAt(anc, h, t);
    }
  }

  ghost predicate Complete(g: Graph) {
    forall t :: t in g.txs ==> HasEntries(g, t)
  }

  /** Add the dependencies of one child. */
  method AddParents(g: Graph, tx: Tx, parents: set<Tx>) returns (h: Graph)
    requires GraphOk(g) && Complete(g) && tx in g.txs && parents <= g.txs && g.parents[tx] == {}
    ensures GraphOk(h) && Complete(h) && h.txs == g.txs && h.parents == g.parents[tx := parents]
  {
    h := g;
    var todo := parents;
    assert parents - todo == {};
    assert g.parents == g.parents[tx := {}];
    while todo != {}
      invariant todo <= parents && GraphOk(h) && Complete(h) && h.txs == g.txs
      invariant h.parents == g.parents[tx := parents - todo]
      decreases todo
    {
      var par :| par in todo;
      todo := todo - {par};
      WithDepOk(h, par, tx);
      assert parents - todo == h.parents[tx] + {par};
      h := WithDep(h, par, tx);
    }
    assert parents - todo == parents;
  }

  /** The fields right after construction. */
  function InitialState(txs: set<Tx>, feerates: map<Tx, FeeFrac>, n: nat): State
    requires txs <= feerates.Keys
  {
    State(map t | t in txs :: t, map t | t in txs :: SetInfo({t}, feerates[t]),
          seq(n, i => false), seq(n, i => SetInfo({}, Placeholder(n))), [], 0)
  }

  lemma {:induction false} InitialGood(g: Graph, fees: Fees)
    requires GraphOk(g) && fees.Keys == g.txs
    ensures Good(g, fees, Singletons(g.txs), InitialState(g.txs, fees, |g.deps|))
  {
    var f, s := Singletons(g.txs), InitialState(g.txs, fees, |g.deps|);
    SingletonsForest(g.deps, g.txs);
    forall t | t in f.part ensures ChunkAt(fees, f.part, s.chunkRep, s.chunkInfo, t) {
      TotalSingle(fees, t);
    }
    forall d | 0 <= d < |s.active| ensures TopAt(fees, f, s.active, s.topInfo, d) {}
  }

  // ---------- Loading a linearization ----------

  /** Every parent comes before its children. */
  ghost predicate ParentsFirst(deps: set<Dep>, lin: seq<Tx>) {
    forall e, k :: e in deps && 0 <= k < |lin| && lin[k] == e.child ==> e.parent in lin[..k]
  }

  /** After loading `lin[..k]`: the loaded transactions are settled, and the rest are alone. */
  ghost predicate Loaded(deps: set<Dep>, fees: Fees, part: Partition, lin: seq<Tx>, k: nat)
    requires k <= |lin|
  {
    && ValidPartition(part) && DepsWithin(deps, part.Keys)
    && Settled(deps, fees, part, Elems(lin[..k]))
    && forall t :: t in part && t !in Elems(lin[..k]) ==> part[t] == {t}
  }

  /** The diagram of the loaded chunks is at least that of the loaded part of the linearization. */
  ghost predicate LoadedWell(fees: Fees, part: Partition, lin: seq<Tx>, k: nat, r: FeeFrac)
    requires k <= |lin|
  {
    Potential(fees, ChunksIn(part, Elems(lin[..k])), r) >= Best(fees, lin[..k], r)
  }

  lemma {:induction false} LoadReady(deps: set<Dep>, fees: Fees, part: Partition, lin: seq<Tx>, k: nat)
    requires IsPermutation(lin, part.Keys) && ParentsFirst(deps, lin) && k < |lin| && Loaded(deps, fees, part, lin, k)
    ensures lin[k] in part && part[lin[k]] == {lin[k]} && Elems(lin[..k + 1]) == Elems(lin[..k]) + {lin[k]}
    ensures UpReady(deps, fees, part, Elems(lin[..k]), lin[k])
  {
    var x := lin[k];
    assert lin[..k + 1] == lin[..k] + [x];
    ElemsAppend(lin[..k], x);
    assert x in Elems(lin);
    assert x !in Elems(lin[..k]);
    forall e | e in deps && e.child in part[x] ensures e.parent in part[x] + Elems(lin[..k]) {
      assert lin[k] == e.child;
    }
  }

  /** Loading one more transaction by an upward run. */
  lemma {:induction false} LoadOne(deps: set<Dep>, fees: Fees, part: Partition, lin: seq<Tx>, k: nat, ys: seq<Tx>)
    requires IsPermutation(lin, part.Keys) && ParentsFirst(deps, lin) && k < |lin| && Loaded(deps, fees, part, lin, k)
    requires UpRun(deps, fees, part, lin[k], ys)
    ensures Loaded(deps, fees, RunEnd(part, lin[k], ys), lin, k + 1)
  {
    LoadReady(deps, fees, part, lin, k);
    var x, done := lin[k], Elems(lin[..k]);
    UpRunSettles(deps, fees, part, done, x, ys);
  }

  lemma {:induction false} LoadOneWell(deps: set<Dep>, fees: Fees, part: Partition, lin: seq<Tx>, k: nat, ys: seq<Tx>, r: FeeFrac)
    requires IsPermutation(lin, part.Keys) && ParentsFirst(deps, lin) && k < |lin| && Loaded(deps, fees, part, lin, k)
    requires UpRun(deps, fees, part, lin[k], ys) && r.size > 0 && LoadedWell(fees, part, lin, k, r)
    ensures LoadedWell(fees, RunEnd(part, lin[k], ys), lin, k + 1, r)
  {
    LoadReady(deps, fees, part, lin, k);
    var x, done := lin[k], Elems(lin[..k]);
    var q := RunEnd(part, x, ys);
    UpRunPotential(deps, fees, part, done, x, ys, r);
    BestExtends(fees, lin, k, r);
    assert Potential(fees, ChunksIn(q, done + {x}), r) >= SetExcess(fees, done + {x}, r) by {
      UpRunSettles(deps, fees, part, done, x, ys);
      ChunksOfUnion(fees, q, done + {x}, r);
    }
  }

  /** A longer prefix does better only by its own excess. */
  lemma {:induction false} BestExtends(fees: Fees, lin: seq<Tx>, k: nat, r: FeeFrac)
    requires k < |lin| && Distinct(lin)
    ensures Best(fees, lin[..k + 1], r) <= Best(fees, lin[..k], r) ||
            Best(fees, lin[..k + 1], r) == SetExcess(fees, Elems(lin[..k + 1]), r)
  {
    assert lin[..k + 1][..k] == lin[..k];
    SeqAsSet(fees, lin[..k + 1], r);
  }

  /** Chunks are worth at least the plain excess of their union. */
  lemma {:induction false} ChunksOfUnion(fees: Fees, part: Partition, s: set<Tx>, r: FeeFrac)
    requires ValidPartition(part) && forall t :: t in s ==> t in part && part[t] <= s
    ensures Potential(fees, ChunksIn(part, s), r) >= SetExcess(fees, s, r)
  {
    var cs := ChunksIn(part, s);
    assert Flat(cs) == s by {
      forall t | t in s ensures t in Flat(cs) {
        assert part[t] in cs && t in part[t];
      }
    }
    PotentialAtLeast(fees, cs, r);
  }

  lemma {:induction false} PotentialAtLeast(fees: Fees, cs: set<set<Tx>>, r: FeeFrac)
    requires Disjoint(cs)
    ensures Potential(fees, cs, r) >= SetExcess(fees, Flat(cs), r)
  {
    if cs == {} {
      assert Flat(cs) == {};
    } else {
      var c :| c in cs;
      assert Flat(cs) == c + Flat(cs - {c});
      PotentialAtLeast(fees, cs - {c}, r);
      PotentialPick(fees, cs, c, r);
      ExcessUnion(fees, c, Flat(cs - {c}), r);
    }
  }

  /** The loaded prefix is settled, and its diagram nowhere below that of the linearization's prefix. */
  ghost predicate LoadedPrefix(deps: set<Dep>, fees: Fees, part: Partition, lin: seq<Tx>, k: nat)
    requires k <= |lin|
  {
    Loaded(deps, fees, part, lin, k) && forall r: FeeFrac :: r.size > 0 ==> LoadedWell(fees, part, lin, k, r)
  }

  /** The diagram of the chunks is nowhere below that of the linearization. */
  ghost predicate AtLeastBest(fees: Fees, part: Partition, lin: seq<Tx>) {
    forall r: FeeFrac :: r.size > 0 ==> Potential(fees, Chunks(part), r) >= Best(fees, lin, r)
  }

  lemma {:induction false} LoadStart(deps: set<Dep>, fees: Fees, txs: set<Tx>, lin: seq<Tx>)
    requires DepsWithin(deps, txs)
    ensures LoadedPrefix(deps, fees, Singletons(txs).part, lin, 0)
  {
    assert lin[..0] == [];
    assert Elems(lin[..0]) == {};
  }

  lemma {:induction false} LoadNext(deps: set<Dep>, fees: Fees, part: Partition, lin: seq<Tx>, k: nat, ys: seq<Tx>)
    requires IsPermutation(lin, part.Keys) && ParentsFirst(deps, lin) && k < |lin| && LoadedPrefix(deps, fees, part, lin, k)
    requires UpRun(deps, fees, part, lin[k], ys)
    ensures LoadedPrefix(deps, fees, RunEnd(part, lin[k], ys), lin, k + 1)
  {
    LoadOne(deps, fees, part, lin, k, ys);
    forall r: FeeFrac | r.size > 0 ensures LoadedWell(fees, RunEnd(part, lin[k], ys), lin, k + 1, r) {
      LoadOneWell(deps, fees, part, lin, k, ys, r);
    }
  }

  /** A fully loaded topological linearization: a topological state, nowhere below it. */
  lemma {:induction false} LoadEnd(deps: set<Dep>, fees: Fees, part: Partition, lin: seq<Tx>)
    requires IsPermutation(lin, part.Keys) && LoadedPrefix(deps, fees, part, lin, |lin|)
    ensures Topological(deps, fees, part) && AtLeastBest(fees, part, lin)
  {
    assert lin[..|lin|] == lin;
    forall r: FeeFrac | r.size > 0 ensures Potential(fees, Chunks(part), r) >= Best(fees, lin, r) {
      assert LoadedWell(fees, part, lin, |lin|, r);
    }
  }

  // ---------- Making a state topological ----------

  /** A dependency between two chunks that is in order, or has one of them queued. */
  ghost predicate OrderedOrQueued(fees: Fees, f: Forest, s: State, e: Dep) {
    && e.parent in f.part && e.child in f.part && e.parent in s.chunkRep && e.child in s.chunkRep
    && (f.part[e.child] != f.part[e.parent] ==>
          || Higher(Total(fees, f.part[e.parent]), Total(fees, f.part[e.child]))
          || s.chunkRep[e.child] in s.suboptimal || s.chunkRep[e.parent] in s.suboptimal)
  }

  ghost predicate PendingOk(g: Graph, fees: Fees, f: Forest, s: State) {
    forall e {:trigger OrderedOrQueued(fees, f, s, e)} :: e in g.deps ==> OrderedOrQueued(fees, f, s, e)
  }

  lemma {:induction false} PendingDone(g: Graph, fees: Fees, f: Forest, s: State)
    requires Good(g, fees, f, s) && PendingOk(g, fees, f, s) && s.suboptimal == []
    ensures IsTopological(g, fees, f)
  {
    forall e | e in DepSet(g.deps) && e.child in f.part
      ensures e.parent in f.part &&
        (f.part[e.child] != f.part[e.parent] ==> Higher(Total(fees, f.part[e.parent]), Total(fees, f.part[e.child])))
    {
      assert OrderedOrQueued(fees, f, s, e);
    }
  }

  lemma {:induction false} PendingStart(g: Graph, fees: Fees, f: Forest, s: State)
    requires Good(g, fees, f, s)
    requires forall t :: t in g.txs && s.chunkRep[t] == t ==> t in s.suboptimal
    ensures PendingOk(g, fees, f, s)
  {
    forall e | e in g.deps ensures OrderedOrQueued(fees, f, s, e) {
      SameRep(fees, f.part, s.chunkRep, s.chunkInfo, e.child, e.parent);
    }
  }

  /** Dropping a queue entry that is no representative. */
  lemma {:induction false} PendingStale(g: Graph, fees: Fees, f: Forest, s: State, s1: State)
    requires Good(g, fees, f, s) && PendingOk(g, fees, f, s) && s.suboptimal != []
    requires s.chunkRep[s.suboptimal[0]] != s.suboptimal[0] && s1 == s.(suboptimal := s.suboptimal[1..])
    ensures PendingOk(g, fees, f, s1)
  {
    forall e | e in g.deps ensures OrderedOrQueued(fees, f, s1, e) {
      assert OrderedOrQueued(fees, f, s, e);
      SameRep(fees, f.part, s.chunkRep, s.chunkInfo, e.child, e.parent);
      SameRep(fees, f.part, s.chunkRep, s.chunkInfo, e.parent, e.child);
    }
  }

  /** Dropping the entry of a chunk that can be merged neither way. */
  lemma {:induction false} PendingSettled(g: Graph, fees: Fees, f: Forest, s: State, c: Tx, s1: State)
    requires Good(g, fees, f, s) && PendingOk(g, fees, f, s) && s.suboptimal != [] && s.suboptimal[0] == c
    requires s.chunkRep[c] == c && s1 == s.(suboptimal := s.suboptimal[1..])
    requires Stuck(g, fees, false, f, c) && Stuck(g, fees, true, f, c)
    ensures PendingOk(g, fees, f, s1)
  {
    forall e | e in g.deps ensures OrderedOrQueued(fees, f, s1, e) {
      assert OrderedOrQueued(fees, f, s, e);
      SameRep(fees, f.part, s.chunkRep, s.chunkInfo, e.child, c);
      SameRep(fees, f.part, s.chunkRep, s.chunkInfo, e.parent, c);
      StuckBothWays(g, fees, f, c, e);
    }
  }

  lemma {:induction false} StuckBothWays(g: Graph, fees: Fees, f: Forest, c: Tx, e: Dep)
    requires GraphOk(g) && IsForest(g.deps, f) && f.part.Keys == fees.Keys == g.txs
    requires Stuck(g, fees, false, f, c) && Stuck(g, fees, true, f, c) && e in g.deps
    ensures e.parent in f.part && e.child in f.part
    ensures f.part[e.child] != f.part[e.parent] && (f.part[c] == f.part[e.child] || f.part[c] == f.part[e.parent]) ==>
              Higher(Total(fees, f.part[e.parent]), Total(fees, f.part[e.child]))
  {
    assert e in DepSet(g.deps);
    if f.part[e.child] != f.part[e.parent] {
      if f.part[c] == f.part[e.child] {
        assert DependsOn(DepSet(g.deps), f.part[c], f.part[e.parent]);
      } else if f.part[c] == f.part[e.parent] {
        assert FlippedDep(e) in Flipped(DepSet(g.deps));
        assert DependsOn(Flipped(DepSet(g.deps)), f.part[c], f.part[e.child]);
        ChunkWithin(f.part, e.child);
        ChunkWithin(f.part, e.parent);
        HigherFlipped(fees, f.part[e.parent], f.part[e.child]);
      }
    }
  }

  /** Merging the popped chunk and queueing the result. */
  lemma {:induction false} PendingMerged(g: Graph, fees: Fees, down: bool, f0: Forest, s0: State, m0: State, f1: Forest, m1: State, s1: State, c: Tx, y: Tx, r: Tx)
    requires Good(g, fees, f0, s0) && PendingOk(g, fees, f0, s0) && s0.suboptimal != [] && s0.suboptimal[0] == c
    requires s0.chunkRep[c] == c && m0 == s0.(suboptimal := s0.suboptimal[1..])
    requires StepRel(g, fees, down, f0, m0, f1, m1, c, y) && RepOf(f1, m1, r, c) && Good(g, fees, f1, m1)
    requires s1 == m1.(suboptimal := m1.suboptimal + [r])
    ensures PendingOk(g, fees, f1, s1) && |Chunks(f1.part)| < |Chunks(f0.part)|
  {
    FewerChunks(f0.part, c, y);
    forall e | e in g.deps ensures OrderedOrQueued(fees, f1, s1, e) {
      assert OrderedOrQueued(fees, f0, s0, e);
      PendingEnd(g, fees, down, f0, s0, m0, f1, m1, c, y, r, e.child);
      PendingEnd(g, fees, down, f0, s0, m0, f1, m1, c, y, r, e.parent);
      SameRep(fees, f1.part, m1.chunkRep, m1.chunkInfo, e.child, e.parent);
    }
  }

  /** Either end of a dependency is now in the queued result, or as it was before. */
  lemma {:induction false} PendingEnd(g: Graph, fees: Fees, down: bool, f0: Forest, s0: State, m0: State, f1: Forest, m1: State, c: Tx, y: Tx, r: Tx, t: Tx)
    requires Good(g, fees, f0, s0) && s0.suboptimal != [] && s0.suboptimal[0] == c
    requires s0.chunkRep[c] == c && m0 == s0.(suboptimal := s0.suboptimal[1..])
    requires StepRel(g, fees, down, f0, m0, f1, m1, c, y) && RepOf(f1, m1, r, c) && Good(g, fees, f1, m1) && t in g.txs
    ensures t in f1.part && t in m1.chunkRep && t in f0.part && t in s0.chunkRep
    ensures t in f1.part[c] ==> m1.chunkRep[t] == r
    ensures t !in f1.part[c] ==> f1.part[t] == f0.part[t] && m1.chunkRep[t] == s0.chunkRep[t]
                                 && (s0.chunkRep[t] in s0.suboptimal ==> m1.chunkRep[t] in m1.suboptimal)
  {
    if t in f1.part[c] {
      SameChunk(f1.part, c, t);
      SameRep(fees, f1.part, m1.chunkRep, m1.chunkInfo, t, r);
    } else {
      assert SameAt(g.deps, f0, f1, t);
      SameRep(fees, f0.part, s0.chunkRep, s0.chunkInfo, t, c);
    }
  }
}
