/** The counters of unmet dependencies that drive the output of a linearization. */
module DepCounts {
  import opened TxSets
  import opened Partitions
  import opened Diagrams
  import opened ForestData
  import opened ForestGraphs
  import opened MergeSearch

  /** Representatives: every transaction of `txs` has one, which is its own. */
  ghost predicate RepsOk(txs: set<Tx>, reps: Reps) {
    reps.Keys == txs && forall t :: t in txs ==> reps[t] in txs && reps[reps[t]] == reps[t]
  }

  ghost predicate IsRep(reps: Reps, c: Tx) {
    c in reps && reps[c] == c
  }

  ghost predicate WithinReps(u: set<Dep>, reps: Reps) {
    forall e :: e in u ==> e.parent in reps && e.child in reps
  }

  /** The dependencies of `t` in `u`. */
  ghost function Into(u: set<Dep>, t: Tx): set<Dep> {
    set e | e in u && e.child == t
  }

  /** The dependencies in `u` of the chunk of representative `c` on other chunks. */
  ghost function IntoChunk(u: set<Dep>, reps: Reps, c: Tx): set<Dep>
    requires WithinReps(u, reps)
  {
    set e | e in u && reps[e.child] == c && reps[e.parent] != c
  }

  ghost predicate TxCounted(u: set<Dep>, txLeft: map<Tx, nat>, t: Tx) {
    t in txLeft && txLeft[t] == |Into(u, t)|
  }

  ghost predicate ChunkCounted(u: set<Dep>, reps: Reps, chunkLeft: map<Tx, nat>, c: Tx)
    requires WithinReps(u, reps)
  {
    c in chunkLeft && chunkLeft[c] == |IntoChunk(u, reps, c)|
  }

  ghost predicate TxsCounted(u: set<Dep>, reps: Reps, txLeft: map<Tx, nat>) {
    forall t {:trigger TxCounted(u, txLeft, t)} :: t in reps ==> TxCounted(u, txLeft, t)
  }

  ghost predicate ChunksCounted(u: set<Dep>, reps: Reps, chunkLeft: map<Tx, nat>)
    requires WithinReps(u, reps)
  {
    forall c {:trigger ChunkCounted(u, reps, chunkLeft, c)} :: c in reps ==> ChunkCounted(u, reps, chunkLeft, c)
  }

  /** One more dependency is one more for its child. */
  lemma {:induction false} IntoAdd(u: set<Dep>, e: Dep, t: Tx)
    requires e !in u
    ensures |Into(u + {e}, t)| == |Into(u, t)| + if e.child == t then 1 else 0
  {
    assert Into(u + {e}, t) == if e.child == t then Into(u, t) + {e} else Into(u, t);
  }

  /** One more dependency is one more for the chunk of its child, if it comes from another chunk. */
  lemma {:induction false} IntoChunkAdd(u: set<Dep>, reps: Reps, e: Dep, c: Tx)
    requires WithinReps(u + {e}, reps) && e !in u
    ensures WithinReps(u, reps)
    ensures |IntoChunk(u + {e}, reps, c)| ==
      |IntoChunk(u, reps, c)| + if reps[e.child] == c && reps[e.parent] != c then 1 else 0
  {
    assert IntoChunk(u + {e}, reps, c) ==
      if reps[e.child] == c && reps[e.parent] != c then IntoChunk(u, reps, c) + {e} else IntoChunk(u, reps, c);
  }

  lemma {:induction false} ChunksCountedAdd(u: set<Dep>, reps: Reps, chunkLeft: map<Tx, nat>, e: Dep, after: map<Tx, nat>)
    requires WithinReps(u + {e}, reps) && e !in u && WithinReps(u, reps) && ChunksCounted(u, reps, chunkLeft)
    requires reps[e.child] in reps && reps[e.child] in chunkLeft
    requires after == if reps[e.child] != reps[e.parent]
                      then chunkLeft[reps[e.child] := chunkLeft[reps[e.child]] + 1] else chunkLeft
    ensures ChunksCounted(u + {e}, reps, after)
  {
    forall c | c in reps ensures ChunkCounted(u + {e}, reps, after, c) {
      assert ChunkCounted(u, reps, chunkLeft, c);
      IntoChunkAdd(u, reps, e, c);
    }
  }

  lemma {:induction false} ChunksCountedDrop(u: set<Dep>, reps: Reps, chunkLeft: map<Tx, nat>, e: Dep)
    requires WithinReps(u, reps) && e in u && ChunksCounted(u, reps, chunkLeft) && reps[e.child] in reps
    ensures WithinReps(u - {e}, reps) && reps[e.child] in chunkLeft
    ensures reps[e.child] == reps[e.parent] ==> ChunksCounted(u - {e}, reps, chunkLeft)
    ensures reps[e.child] != reps[e.parent] ==> chunkLeft[reps[e.child]] > 0
    ensures reps[e.child] != reps[e.parent] ==>
              ChunksCounted(u - {e}, reps, chunkLeft[reps[e.child] := chunkLeft[reps[e.child]] - 1])
  {
    var v := u - {e};
    assert u == v + {e};
    assert ChunkCounted(u, reps, chunkLeft, reps[e.child]);
    IntoChunkAdd(v, reps, e, reps[e.child]);
    forall c | c in reps ensures ChunkCounted(u, reps, chunkLeft, c) && |IntoChunk(u, reps, c)| ==
      |IntoChunk(v, reps, c)| + if reps[e.child] == c && reps[e.parent] != c then 1 else 0
    {
      IntoChunkAdd(v, reps, e, c);
    }
  }

  lemma {:induction false} TxsCountedDrop(u: set<Dep>, reps: Reps, txLeft: map<Tx, nat>, e: Dep)
    requires e in u && TxsCounted(u, reps, txLeft) && e.child in reps
    ensures e.child in txLeft && txLeft[e.child] > 0
    ensures TxsCounted(u - {e}, reps, txLeft[e.child := txLeft[e.child] - 1])
  {
    var v := u - {e};
    assert u == v + {e};
    assert TxCounted(u, txLeft, e.child);
    IntoAdd(v, e, e.child);
    var after := txLeft[e.child := txLeft[e.child] - 1];
    forall t | t in reps ensures TxCounted(v, after, t) {
      assert TxCounted(u, txLeft, t);
      IntoAdd(v, e, t);
    }
  }

  /** Counting parents is counting dependencies. */
  lemma {:induction false} ParentCount(u: set<Dep>, ps: set<Tx>, t: Tx)
    requires forall e :: e in Into(u, t) <==> e.child == t && e.parent in ps
    ensures |Into(u, t)| == |ps|
    decreases ps
  {
    if ps == {} {
      assert Into(u, t) == {};
    } else {
      var p :| p in ps;
      var e := Dep(p, t);
      assert e in Into(u, t);
      ParentCount(u - {e}, ps - {p}, t);
      assert u == u - {e} + {e};
      IntoAdd(u - {e}, e, t);
    }
  }

  /** The dependencies whose child is in `done`, or is `t` with its parent in `seen`. */
  ghost function Visited(deps: seq<Dep>, done: set<Tx>, t: Tx, seen: set<Tx>): set<Dep> {
    set e | e in DepSet(deps) && (e.child in done || (e.child == t && e.parent in seen))
  }

  /** Count, for every transaction, its dependencies, and for every chunk, its dependencies on others. */
  method CountUnmet(g: Graph, reps: Reps) returns (chunkLeft: map<Tx, nat>, txLeft: map<Tx, nat>, chunkReps: set<Tx>)
    requires GraphOk(g) && RepsOk(g.txs, reps)
    ensures WithinReps(DepSet(g.deps), reps)
    ensures ChunksCounted(DepSet(g.deps), reps, chunkLeft) && TxsCounted(DepSet(g.deps), reps, txLeft)
    ensures forall c :: c in chunkReps <==> IsRep(reps, c)
  {
    chunkLeft, txLeft, chunkReps := map t | t in g.txs :: 0, map[], {};
    var todo := g.txs;
    NothingVisited(g, reps, chunkLeft);
    while todo != {}
      invariant todo <= g.txs && ChunksCounted(Visited(g.deps, g.txs - todo, 0, {}), reps, chunkLeft)
      invariant forall t :: t in g.txs - todo ==> TxCounted(DepSet(g.deps), txLeft, t)
      invariant forall t :: t in g.txs - todo ==> reps[t] in chunkReps
      invariant forall c :: c in chunkReps ==> IsRep(reps, c)
      decreases todo
    {
      var chl :| chl in todo;
      assert ParentsAt(g.deps, g.parents, chl);
      ghost var was := txLeft;
      txLeft := txLeft[chl := |g.parents[chl]|];
      ParentCount(DepSet(g.deps), g.parents[chl], chl);
      forall t | t in g.txs - todo + {chl} ensures TxCounted(DepSet(g.deps), txLeft, t) {
        assert t != chl ==> TxCounted(DepSet(g.deps), was, t);
      }
      chunkReps := chunkReps + {reps[chl]};
      chunkLeft := CountParents(g, reps, chunkLeft, g.txs - todo, chl);
      assert g.txs - todo + {chl} == g.txs - (todo - {chl});
      todo := todo - {chl};
    }
    assert Visited(g.deps, g.txs, 0, {}) == DepSet(g.deps);
    assert g.txs - todo == g.txs;
  }

  lemma {:induction false} NothingVisited(g: Graph, reps: Reps, chunkLeft: map<Tx, nat>)
    requires GraphOk(g) && RepsOk(g.txs, reps) && chunkLeft == map t | t in g.txs :: 0
    ensures WithinReps(DepSet(g.deps), reps) && ChunksCounted(Visited(g.deps, g.txs - g.txs, 0, {}), reps, chunkLeft)
  {
    assert Visited(g.deps, g.txs - g.txs, 0, {}) == {};
    forall c | c in reps ensures ChunkCounted({}, reps, chunkLeft, c) {
      assert IntoChunk({}, reps, c) == {};
    }
  }

  /** Count the dependencies of one child. */
  method CountParents(g: Graph, reps: Reps, before: map<Tx, nat>, ghost done: set<Tx>, chl: Tx) returns (chunkLeft: map<Tx, nat>)
    requires GraphOk(g) && RepsOk(g.txs, reps) && WithinReps(DepSet(g.deps), reps) && chl in g.txs - done && done <= g.txs
    requires chl in g.parents && ParentsAt(g.deps, g.parents, chl)
    requires ChunksCounted(Visited(g.deps, done, 0, {}), reps, before)
    ensures ChunksCounted(Visited(g.deps, done + {chl}, 0, {}), reps, chunkLeft)
  {
    chunkLeft := before;
    var todo := g.parents[chl];
    ghost var seen := {};
    assert Visited(g.deps, done, chl, {}) == Visited(g.deps, done, 0, {});
    while todo != {}
      invariant seen + todo == g.parents[chl] && seen !! todo
      invariant ChunksCounted(Visited(g.deps, done, chl, seen), reps, chunkLeft)
      decreases todo
    {
      var par :| par in todo;
      ghost var u := Visited(g.deps, done, chl, seen);
      assert u + {Dep(par, chl)} == Visited(g.deps, done, chl, seen + {par});
      assert ChunkCounted(u, reps, chunkLeft, reps[chl]);
      ghost var was := chunkLeft;
      if reps[par] != reps[chl] {
        chunkLeft := chunkLeft[reps[chl] := chunkLeft[reps[chl]] + 1];
      }
      ChunksCountedAdd(u, reps, was, Dep(par, chl), chunkLeft);
      seen, todo := seen + {par}, todo - {par};
    }
    assert Visited(g.deps, done, chl, seen) == Visited(g.deps, done + {chl}, 0, {});
  }
}
