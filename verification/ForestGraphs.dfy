/** The fixed graph and the mutable fields of a `SpanningForestState`, and the field updates of
    activation and deactivation. */
module ForestGraphs {
  import opened FeeFracs
  import opened TxSets
  import opened Partitions
  import opened Improvement
  import opened Forests
  import opened ForestStates
  import opened Chunking
  import opened ForestData

  ghost predicate ParentsAt(deps: seq<Dep>, parents: map<Tx, set<Tx>>, t: Tx) {
    t in parents && forall p :: p in parents[t] <==> Dep(p, t) in deps
  }

  ghost predicate ChildrenAt(deps: seq<Dep>, children: map<Tx, set<Tx>>, t: Tx) {
    t in children && forall c :: c in children[t] <==> Dep(t, c) in deps
  }

  /** The list of dependencies to the children of `t`, each of them once. */
  ghost predicate ChildDepsAt(deps: seq<Dep>, childDeps: map<Tx, seq<DepIdx>>, t: Tx) {
    && t in childDeps
    && (forall k :: 0 <= k < |childDeps[t]| ==> childDeps[t][k] < |deps| && deps[childDeps[t][k]].parent == t)
    && (forall d :: 0 <= d < |deps| && deps[d].parent == t ==> d in childDeps[t])
    && forall j, k :: 0 <= j < k < |childDeps[t]| ==> childDeps[t][j] != childDeps[t][k]
  }

  /** What is fixed at construction: the transactions, the list of dependencies, and for each
      transaction its parents, its children, and the dependencies to its children. */
  datatype Graph = Graph(txs: set<Tx>, deps: seq<Dep>, parents: map<Tx, set<Tx>>, children: map<Tx, set<Tx>>,
                         childDeps: map<Tx, seq<DepIdx>>)

  ghost predicate GraphOk(g: Graph) {
    && EndsIn(g.deps, g.txs)
    && (forall i, j :: 0 <= i < j < |g.deps| ==> g.deps[i] != g.deps[j])
    && (forall t {:trigger ParentsAt(g.deps, g.parents, t)} :: t in g.txs ==> ParentsAt(g.deps, g.parents, t))
    && (forall t {:trigger ChildrenAt(g.deps, g.children, t)} :: t in g.txs ==> ChildrenAt(g.deps, g.children, t))
    && (forall t {:trigger ChildDepsAt(g.deps, g.childDeps, t)} :: t in g.txs ==> ChildDepsAt(g.deps, g.childDeps, t))
  }

  /** What changes: for each transaction the representative of its chunk; for each representative the
      chunk's transactions and feerate; which dependencies are active, and for each active one the
      would-be top chunk; the queue of chunks that may be improved still; and the number of updated
      transactions so far. */
  datatype State = State(chunkRep: Reps, chunkInfo: Infos, active: seq<bool>, topInfo: seq<SetInfo>,
                         suboptimal: seq<Tx>, cost: nat)

  /** The fields represent the forest `f`. */
  ghost predicate StateOk(g: Graph, fees: Fees, f: Forest, s: State) {
    DataOk(fees, g.deps, f, s.chunkRep, s.chunkInfo, s.active, s.topInfo)
  }

  /** All transactions of `chunk` get the representative `rep`, and all active dependencies that have
      `query` in their top get `change` added to it or removed from it. */
  method UpdateChunk(txs: set<Tx>, deps: seq<Dep>, childDeps: map<Tx, seq<DepIdx>>, active: seq<bool>,
                     reps: Reps, tops: seq<SetInfo>, chunk: set<Tx>, query: Tx, rep: Tx, change: SetInfo, subtract: bool)
    returns (newReps: Reps, newTops: seq<SetInfo>)
    requires forall t {:trigger ChildDepsAt(deps, childDeps, t)} :: t in txs ==> ChildDepsAt(deps, childDeps, t)
    requires chunk <= txs && reps.Keys == txs && |active| == |tops| == |deps|
    requires forall d :: 0 <= d < |deps| ==>
      MayChange(active[d], deps[d].parent, tops[d], chunk, query, change, subtract)
    ensures newReps == Redirected(reps, chunk, rep)
    ensures TopsUpdated(deps, active, tops, chunk, query, change, subtract, newTops)
  {
    newReps, newTops := reps, tops;
    var todo := chunk;
    while todo != {}
      invariant todo <= chunk && |newTops| == |tops|
      invariant newReps == Redirected(reps, chunk - todo, rep)
      invariant forall d :: 0 <= d < |deps| ==>
        if deps[d].parent in chunk - todo
        then newTops[d] == UpdatedTop(active[d], deps[d].parent, tops[d], chunk, query, change, subtract)
        else newTops[d] == tops[d]
      decreases todo
    {
      var tx :| tx in todo;
      newReps := newReps[tx := rep];
      assert ChildDepsAt(deps, childDeps, tx);
      var k := 0;
      while k < |childDeps[tx]|
        invariant 0 <= k <= |childDeps[tx]| && |newTops| == |tops|
        invariant forall d :: 0 <= d < |deps| ==>
          if deps[d].parent in chunk - todo || d in childDeps[tx][..k]
          then newTops[d] == UpdatedTop(active[d], deps[d].parent, tops[d], chunk, query, change, subtract)
          else newTops[d] == tops[d]
      {
        var d := childDeps[tx][k];
        assert d !in childDeps[tx][..k];
        assert childDeps[tx][..k + 1] == childDeps[tx][..k] + [d];
        if active[d] && query in newTops[d].transactions {
          newTops := newTops[d := if subtract then newTops[d].Minus(change) else newTops[d].Plus(change)];
        }
        k := k + 1;
      }
      assert childDeps[tx][..k] == childDeps[tx];
      todo := todo - {tx};
    }
    assert chunk - todo == chunk;
  }

  /** The states `f`, `s` and `f2`, `s2` before and after activating `d`: the chunk of its parent keeps its representative
      `rep`, which the other chunk takes over. */
  ghost predicate Joined(g: Graph, f: Forest, s: State, d: DepIdx, f2: Forest, s2: State, rep: Tx) {
    && IsForest(g.deps, f) && d < |g.deps| && g.deps[d].parent in s.chunkRep && f2 == Activated(g.deps, f, d)
    && s2.suboptimal == s.suboptimal && rep == s.chunkRep[g.deps[d].parent]
    && g.deps[d].parent in f2.part && s2.cost == s.cost + |f2.part[g.deps[d].parent]| > s.cost
    && s2.chunkRep == MergeRedirected(s.chunkRep, rep, f.part[g.deps[d].parent], f.part[g.deps[d].child])
  }

  /** The field updates of `Activate`. */
  method ActivateFields(g: Graph, s: State, d: DepIdx, ghost fees: Fees, ghost f: Forest) returns (s2: State, rep: Tx, ghost f2: Forest)
    requires GraphOk(g) && fees.Keys == g.txs && StateOk(g, fees, f, s) && d < |g.deps|
    requires f.part[g.deps[d].parent] != f.part[g.deps[d].child]
    ensures Joined(g, f, s, d, f2, s2, rep) && StateOk(g, fees, f2, s2)
  {
    var p, c := g.deps[d].parent, g.deps[d].child;
    ActivateStart(fees, g.deps, f, s.chunkRep, s.chunkInfo, s.active, s.topInfo, d);
    rep := s.chunkRep[p];
    var top, bottom := s.chunkInfo[rep], s.chunkInfo[s.chunkRep[c]];
    var reps, tops := UpdateChunk(g.txs, g.deps, g.childDeps, s.active, s.chunkRep, s.topInfo,
                                  top.transactions, p, rep, bottom, false);
    SweepReady2(fees, g.deps, f, s.active, s.topInfo, tops, d);
    ghost var mid := tops;
    reps, tops := UpdateChunk(g.txs, g.deps, g.childDeps, s.active, reps, tops,
                              bottom.transactions, c, rep, top, false);
    var merged := top.Plus(bottom);
    s2 := s.(chunkRep := reps, chunkInfo := s.chunkInfo[rep := merged], active := s.active[d := true],
             topInfo := tops[d := top], cost := s.cost + |merged.transactions|);
    ActivateData(fees, g.deps, f, s.chunkRep, s.chunkInfo, s.active, s.topInfo, d, mid, tops);
    f2 := Activated(g.deps, f, d);
  }

  /** The field updates of `Deactivate`. */
  method DeactivateFields(g: Graph, s: State, d: DepIdx, ghost fees: Fees, ghost f: Forest) returns (s2: State)
    requires GraphOk(g) && fees.Keys == g.txs && StateOk(g, fees, f, s) && d in f.act
    ensures StateOk(g, fees, Deactivated(g.deps, f, d), s2)
    ensures s2.suboptimal == s.suboptimal && s2.cost == s.cost + |f.part[g.deps[d].parent]| > s.cost
    ensures s2.chunkRep == SplitRedirected(s.chunkRep, g.deps[d].parent, g.deps[d].child, f.top[d],
                                           f.part[g.deps[d].parent] - f.top[d])
  {
    var p, c := g.deps[d].parent, g.deps[d].child;
    DeactivateStart(fees, g.deps, f, s.chunkRep, s.chunkInfo, s.active, s.topInfo, d);
    var active := s.active[d := false];
    var chunk := s.chunkInfo[s.chunkRep[p]];
    var top := s.topInfo[d];
    var bottom := chunk.Minus(top);
    var reps, tops := UpdateChunk(g.txs, g.deps, g.childDeps, active, s.chunkRep, s.topInfo,
                                  top.transactions, p, p, bottom, true);
    SplitSweepReady2(fees, g.deps, f, s.active, s.topInfo, tops, d);
    ghost var mid := tops;
    reps, tops := UpdateChunk(g.txs, g.deps, g.childDeps, active, reps, tops,
                              bottom.transactions, c, c, top, true);
    s2 := s.(chunkRep := reps, chunkInfo := s.chunkInfo[c := bottom][p := top],
             active := active, topInfo := tops, cost := s.cost + |chunk.transactions|);
    DeactivateData(fees, g.deps, f, s.chunkRep, s.chunkInfo, s.active, s.topInfo, d, mid, tops);
  }

  /** What `Deactivate` finds at its start. */
  lemma {:induction false} DeactivateStart(fees: Fees, deps: seq<Dep>, f: Forest, reps: Reps, infos: Infos,
                                           active: seq<bool>, tops: seq<SetInfo>, d: DepIdx)
    requires DataOk(fees, deps, f, reps, infos, active, tops) && d in f.act
    ensures d < |deps| == |tops|
    ensures var p, c := deps[d].parent, deps[d].child;
            var C, T := f.part[p], f.top[d];
            && reps[p] in infos && infos[reps[p]] == InfoOf(fees, C) && tops[d] == InfoOf(fees, T)
            && T <= C <= fees.Keys && |C| > 0
            && InfoOf(fees, C).Minus(InfoOf(fees, T)) == InfoOf(fees, C - T)
            && forall e :: 0 <= e < |deps| ==>
                 MayChange(active[d := false][e], deps[e].parent, tops[e], T, p, InfoOf(fees, C - T), true)
  {
    var p, c := deps[d].parent, deps[d].child;
    TreeEnds(deps, f, d);
    SameRep(fees, f.part, reps, infos, p, c);
    assert TopAt(fees, f, active, tops, d);
    assert c in f.part[p] - f.top[d];
    MinusInfo(fees, f.part[p], f.top[d]);
    SplitSweepReady(fees, deps, f, active, tops, d, f.top[d], p);
    assert p in f.part[p];
  }

  lemma {:induction false} SplitSweepReady(fees: Fees, deps: seq<Dep>, f: Forest, active: seq<bool>, tops: seq<SetInfo>, d: DepIdx,
                                           t: set<Tx>, a: Tx)
    requires IsForest(deps, f) && TopsMatch(fees, f, active, tops) && |deps| == |active| && d in f.act
    requires IsSide(deps, f.top, f.part[deps[d].parent], d, t)
    requires a in t && (a == deps[d].parent || a == deps[d].child)
    ensures forall e :: 0 <= e < |deps| ==>
      MayChange(active[d := false][e], deps[e].parent, tops[e], t, a, InfoOf(fees, f.part[deps[d].parent] - t), true)
  {
    forall e | 0 <= e < |deps|
      ensures MayChange(active[d := false][e], deps[e].parent, tops[e], t, a, InfoOf(fees, f.part[deps[d].parent] - t), true)
    {
      assert TopAt(fees, f, active, tops, e);
      if active[d := false][e] {
        DeactivateMayChange(fees, deps, f, d, e, t, a);
      }
    }
  }

  lemma {:induction false} SplitSweepReady2(fees: Fees, deps: seq<Dep>, f: Forest, active: seq<bool>, tops: seq<SetInfo>,
                                            mid: seq<SetInfo>, d: DepIdx)
    requires IsForest(deps, f) && TopsMatch(fees, f, active, tops) && |deps| == |active| && d in f.act
    requires TopsUpdated(deps, active[d := false], tops, f.top[d], deps[d].parent,
                         InfoOf(fees, f.part[deps[d].parent] - f.top[d]), true, mid)
    ensures forall e :: 0 <= e < |deps| ==>
      MayChange(active[d := false][e], deps[e].parent, mid[e], f.part[deps[d].parent] - f.top[d], deps[d].child,
                InfoOf(fees, f.top[d]), true)
  {
    TreeEnds(deps, f, d);
    var B := f.part[deps[d].parent] - f.top[d];
    assert deps[d].child in B && f.part[deps[d].parent] - B == f.top[d];
    SplitSweepReady(fees, deps, f, active, tops, d, B, deps[d].child);
  }

  /** The fields after `Deactivate` represent the state after the deactivation. */
  lemma {:induction false} DeactivateData(fees: Fees, deps: seq<Dep>, f: Forest, reps: Reps, infos: Infos,
                                          active: seq<bool>, tops: seq<SetInfo>, d: DepIdx, mid: seq<SetInfo>, end: seq<SetInfo>)
    requires DataOk(fees, deps, f, reps, infos, active, tops) && d in f.act
    requires var T := f.top[d];
             var B := f.part[deps[d].parent] - T;
             && TopsUpdated(deps, active[d := false], tops, T, deps[d].parent, InfoOf(fees, B), true, mid)
             && TopsUpdated(deps, active[d := false], mid, B, deps[d].child, InfoOf(fees, T), true, end)
    ensures var p, c, T := deps[d].parent, deps[d].child, f.top[d];
            var B := f.part[p] - T;
            DataOk(fees, deps, Deactivated(deps, f, d), SplitRedirected(reps, p, c, T, B), SplitInfos(fees, infos, p, c, T, B),
                   active[d := false], end)
  {
    var p, c, T := deps[d].parent, deps[d].child, f.top[d];
    TreeEnds(deps, f, d);
    DeactivateTops(fees, deps, f, active, tops, d, mid, end);
    DeactivateKeepsForest(deps, f, d);
    DeactivatedShape(deps, f, d);
    assert T + (f.part[p] - T) == f.part[p];
    SplitRepresents(fees, f.part, reps, infos, p, c, T, f.part[p] - T);
  }

  /** What `Activate` finds at its start. */
  lemma {:induction false} ActivateStart(fees: Fees, deps: seq<Dep>, f: Forest, reps: Reps, infos: Infos,
                                         active: seq<bool>, tops: seq<SetInfo>, d: DepIdx)
    requires DataOk(fees, deps, f, reps, infos, active, tops) && d < |deps|
    requires f.part[deps[d].parent] != f.part[deps[d].child]
    ensures var p, c := deps[d].parent, deps[d].child;
            var A, B := f.part[p], f.part[c];
            && reps[p] in infos && infos[reps[p]] == InfoOf(fees, A) && p in A && A <= fees.Keys
            && reps[c] in infos && infos[reps[c]] == InfoOf(fees, B) && B <= fees.Keys
            && A !! B && InfoOf(fees, A).Plus(InfoOf(fees, B)) == InfoOf(fees, A + B)
            && |A + B| > 0
            && forall e :: 0 <= e < |deps| ==>
                 MayChange(active[e], deps[e].parent, tops[e], A, p, InfoOf(fees, B), false)
  {
    var p, c := deps[d].parent, deps[d].child;
    SameRep(fees, f.part, reps, infos, p, c);
    SameRep(fees, f.part, reps, infos, c, p);
    OtherChunk(f.part, p, c);
    PlusInfo(fees, f.part[p], f.part[c]);
    SweepReady(fees, deps, f, active, tops, d, p, c);
    assert p in f.part[p] + f.part[c];
  }

  /** The fields after `Activate` represent the state after the activation. */
  lemma {:induction false} ActivateData(fees: Fees, deps: seq<Dep>, f: Forest, reps: Reps, infos: Infos,
                                        active: seq<bool>, tops: seq<SetInfo>, d: DepIdx, mid: seq<SetInfo>, end: seq<SetInfo>)
    requires DataOk(fees, deps, f, reps, infos, active, tops) && d < |deps|
    requires f.part[deps[d].parent] != f.part[deps[d].child]
    requires var A, B := f.part[deps[d].parent], f.part[deps[d].child];
             && TopsUpdated(deps, active, tops, A, deps[d].parent, InfoOf(fees, B), false, mid)
             && TopsUpdated(deps, active, mid, B, deps[d].child, InfoOf(fees, A), false, end)
    ensures var p, c := deps[d].parent, deps[d].child;
            var A, B := f.part[p], f.part[c];
            && reps[p] in infos
            && DataOk(fees, deps, Activated(deps, f, d), MergeRedirected(reps, reps[p], A, B), infos[reps[p] := InfoOf(fees, A + B)],
                      active[d := true], end[d := InfoOf(fees, A)])
  {
    var p, c := deps[d].parent, deps[d].child;
    assert ChunkAt(fees, f.part, reps, infos, p);
    RedirectSame(reps, f.part[p], reps[p]);
    InactiveAcross(deps, f, d);
    ActivateTops(fees, deps, f, active, tops, d, mid, end);
    ActivateKeepsForest(deps, f, d);
    ActivatedShape(deps, f, d);
    MergeRepresents(fees, f.part, reps, infos, p, c, InfoOf(fees, f.part[p] + f.part[c]));
  }

  lemma {:induction false} RedirectSame(reps: Reps, c: set<Tx>, r: Tx)
    requires forall t :: t in c && t in reps ==> reps[t] == r
    ensures Redirected(reps, c, r) == reps
  {
  }

  lemma {:induction false} SweepReady(fees: Fees, deps: seq<Dep>, f: Forest, active: seq<bool>, tops: seq<SetInfo>, d: DepIdx, a: Tx, b: Tx)
    requires IsForest(deps, f) && TopsMatch(fees, f, active, tops) && d < |deps| == |active|
    requires f.part[deps[d].parent] != f.part[deps[d].child]
    requires (a == deps[d].parent && b == deps[d].child) || (a == deps[d].child && b == deps[d].parent)
    ensures forall e :: 0 <= e < |deps| ==>
      MayChange(active[e], deps[e].parent, tops[e], f.part[a], a, InfoOf(fees, f.part[b]), false)
  {
    forall e | 0 <= e < |deps|
      ensures MayChange(active[e], deps[e].parent, tops[e], f.part[a], a, InfoOf(fees, f.part[b]), false)
    {
      assert TopAt(fees, f, active, tops, e);
      if active[e] {
        ActivateMayChange(fees, deps, f, d, e, a, b);
      }
    }
  }

  /** The first sweep does not change the tops that the second one looks at. */
  lemma {:induction false} SweepReady2(fees: Fees, deps: seq<Dep>, f: Forest, active: seq<bool>, tops: seq<SetInfo>, mid: seq<SetInfo>, d: DepIdx)
    requires IsForest(deps, f) && TopsMatch(fees, f, active, tops) && d < |deps| == |active|
    requires f.part[deps[d].parent] != f.part[deps[d].child]
    requires var A, B := f.part[deps[d].parent], f.part[deps[d].child];
             TopsUpdated(deps, active, tops, A, deps[d].parent, InfoOf(fees, B), false, mid)
    ensures forall e :: 0 <= e < |deps| ==>
      MayChange(active[e], deps[e].parent, mid[e], f.part[deps[d].child], deps[d].child, InfoOf(fees, f.part[deps[d].parent]), false)
  {
    SweepReady(fees, deps, f, active, tops, d, deps[d].child, deps[d].parent);
    OtherChunk(f.part, deps[d].parent, deps[d].child);
  }
}
