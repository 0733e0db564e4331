/** Writing out a state as a linearization: the bookkeeping of `GetLinearization`. */
module Outputs {
  import opened TxSets
  import opened Partitions
  import opened Diagrams
  import opened ForestData
  import opened ForestGraphs
  import opened MergeSearch
  import opened Orders
  import opened Loading
  import opened DepCounts

  /** The linearization so far, the numbers of unmet dependencies per chunk and per transaction, and
      the representatives of the chunks that can follow. */
  datatype Output = Output(ret: seq<Tx>, chunkLeft: map<Tx, nat>, txLeft: map<Tx, nat>, readyChunks: seq<Tx>)

  ghost predicate ChunkReady(u: set<Dep>, reps: Reps, started: set<Tx>, ready: seq<Tx>, c: Tx)
    requires WithinReps(u, reps)
  {
    && (c in ready <==> c !in started && IntoChunk(u, reps, c) == {})
    && (c in started ==> IntoChunk(u, reps, c) == {})
  }

  /** The ready chunks are those not started, each once, that wait for no other chunk. */
  ghost predicate ReadyOk(u: set<Dep>, reps: Reps, started: set<Tx>, ready: seq<Tx>)
    requires WithinReps(u, reps)
  {
    && Distinct(ready) && (forall k :: 0 <= k < |ready| ==> IsRep(reps, ready[k]))
    && forall c {:trigger ChunkReady(u, reps, started, ready, c)} :: IsRep(reps, c) ==> ChunkReady(u, reps, started, ready, c)
  }

  ghost predicate TxReady(u: set<Dep>, chunk: set<Tx>, done: set<Tx>, readyTx: seq<Tx>, t: Tx) {
    t in readyTx <==> t in chunk && t !in done && Into(u, t) == {}
  }

  /** The ready transactions are those of the chunk not done, each once, that wait for no other. */
  ghost predicate ReadyTxOk(u: set<Dep>, chunk: set<Tx>, done: set<Tx>, readyTx: seq<Tx>) {
    && Distinct(readyTx)
    && forall t {:trigger TxReady(u, chunk, done, readyTx, t)} :: TxReady(u, chunk, done, readyTx, t)
  }

  ghost predicate DoneMet(u: set<Dep>, done: set<Tx>) {
    forall t {:trigger Into(u, t)} :: t in done ==> Into(u, t) == {}
  }

  ghost predicate CountsOk(u: set<Dep>, reps: Reps, started: set<Tx>, o: Output) {
    && WithinReps(u, reps) && TxsCounted(u, reps, o.txLeft) && ChunksCounted(u, reps, o.chunkLeft)
    && ReadyOk(u, reps, started, o.readyChunks)
  }

  // ---------- One dependency is met ----------

  lemma {:induction false} ReadyDrop(u: set<Dep>, reps: Reps, started: set<Tx>, ready: seq<Tx>, e: Dep, after: seq<Tx>)
    requires WithinReps(u, reps) && e in u && ReadyOk(u, reps, started, ready) && IsRep(reps, reps[e.child])
    requires WithinReps(u - {e}, reps) && reps[e.child] != reps[e.parent]
    requires after == if IntoChunk(u - {e}, reps, reps[e.child]) == {} then ready + [reps[e.child]] else ready
    ensures ReadyOk(u - {e}, reps, started, after)
  {
    var v, d := u - {e}, reps[e.child];
    assert e in IntoChunk(u, reps, d);
    assert ChunkReady(u, reps, started, ready, d);
    forall c | IsRep(reps, c) ensures ChunkReady(v, reps, started, after, c) {
      assert ChunkReady(u, reps, started, ready, c);
      assert c != d ==> IntoChunk(v, reps, c) == IntoChunk(u, reps, c);
    }
  }

  lemma {:induction false} ReadySame(u: set<Dep>, reps: Reps, started: set<Tx>, ready: seq<Tx>, e: Dep)
    requires WithinReps(u, reps) && e in u && ReadyOk(u, reps, started, ready)
    requires WithinReps(u - {e}, reps) && reps[e.child] == reps[e.parent]
    ensures ReadyOk(u - {e}, reps, started, ready)
  {
    var v := u - {e};
    forall c | IsRep(reps, c) ensures ChunkReady(v, reps, started, ready, c) {
      assert ChunkReady(u, reps, started, ready, c);
      assert IntoChunk(v, reps, c) == IntoChunk(u, reps, c);
    }
  }

  lemma {:induction false} TxReadyDrop(u: set<Dep>, chunk: set<Tx>, done: set<Tx>, readyTx: seq<Tx>, e: Dep, after: seq<Tx>)
    requires e in u && ReadyTxOk(u, chunk, done, readyTx) && DoneMet(u, done)
    requires after == if Into(u - {e}, e.child) == {} && e.child in chunk then readyTx + [e.child] else readyTx
    ensures ReadyTxOk(u - {e}, chunk, done, after) && DoneMet(u - {e}, done)
  {
    var v := u - {e};
    assert e in Into(u, e.child);
    assert TxReady(u, chunk, done, readyTx, e.child);
    forall t ensures TxReady(v, chunk, done, after, t) {
      assert TxReady(u, chunk, done, readyTx, t);
      assert t != e.child ==> Into(v, t) == Into(u, t);
    }
    forall t | t in done ensures Into(v, t) == {} {
      assert Into(u, t) == {};
      assert Into(v, t) <= Into(u, t);
    }
  }

  /** `tx`, in the chunk of `rep`, was written: count down for its child `chl`. */
  method MeetDependency(reps: Reps, rep: Tx, chunk: set<Tx>, ghost tx: Tx, chl: Tx, o: Output, readyTx: seq<Tx>,
                        ghost u: set<Dep>, ghost started: set<Tx>, ghost done: set<Tx>)
    returns (o2: Output, ready2: seq<Tx>)
    requires CountsOk(u, reps, started, o) && ReadyTxOk(u, chunk, done, readyTx) && DoneMet(u, done)
    requires RepsOk(reps.Keys, reps) && Dep(tx, chl) in u && reps[tx] == rep
    ensures CountsOk(u - {Dep(tx, chl)}, reps, started, o2) && o2.ret == o.ret
    ensures ReadyTxOk(u - {Dep(tx, chl)}, chunk, done, ready2) && DoneMet(u - {Dep(tx, chl)}, done)
  {
    ghost var e := Dep(tx, chl);
    ghost var v := u - {e};
    TxsCountedDrop(u, reps, o.txLeft, e);
    var txLeft := o.txLeft[chl := o.txLeft[chl] - 1];
    ready2 := readyTx;
    assert TxCounted(v, txLeft, chl);
    if txLeft[chl] == 0 && chl in chunk {
      ready2 := readyTx + [chl];
    }
    TxReadyDrop(u, chunk, done, readyTx, e, ready2);
    ChunksCountedDrop(u, reps, o.chunkLeft, e);
    var r := reps[chl];
    if r != rep {
      var chunkLeft := o.chunkLeft[r := o.chunkLeft[r] - 1];
      assert ChunkCounted(v, reps, chunkLeft, r);
      var ready := if chunkLeft[r] == 0 then o.readyChunks + [r] else o.readyChunks;
      ReadyDrop(u, reps, started, o.readyChunks, e, ready);
      o2 := Output(o.ret, chunkLeft, txLeft, ready);
    } else {
      ReadySame(u, reps, started, o.readyChunks, e);
      o2 := o.(txLeft := txLeft);
    }
  }

  // ---------- One transaction is written ----------

  /** The dependencies on transactions that are not done. */
  ghost function Left(deps: seq<Dep>, done: set<Tx>): set<Dep> {
    set e | e in DepSet(deps) && e.parent !in done
  }

  /** The same, with those of `tx` on the children `todo`. */
  ghost function LeftOr(deps: seq<Dep>, done: set<Tx>, tx: Tx, todo: set<Tx>): set<Dep> {
    set e | e in DepSet(deps) && (e.parent !in done || (e.parent == tx && e.child in todo))
  }

  ghost predicate OutputOk(g: Graph, reps: Reps, started: set<Tx>, o: Output) {
    && CountsOk(Left(g.deps, Elems(o.ret)), reps, started, o)
    && Distinct(o.ret) && Elems(o.ret) <= g.txs
    && ParentsFirst(DepSet(g.deps), o.ret) && DoneMet(Left(g.deps, Elems(o.ret)), Elems(o.ret))
  }

  lemma {:induction false} AppendParentsFirst(deps: seq<Dep>, ret: seq<Tx>, tx: Tx)
    requires ParentsFirst(DepSet(deps), ret) && Into(Left(deps, Elems(ret)), tx) == {}
    ensures ParentsFirst(DepSet(deps), ret + [tx])
  {
    var l := ret + [tx];
    forall e, k | e in DepSet(deps) && 0 <= k < |l| && l[k] == e.child ensures e.parent in l[..k] {
      if k < |ret| {
        assert ret[k] == e.child;
        assert l[..k] == ret[..k];
      } else {
        assert l[..k] == ret;
        assert e !in Into(Left(deps, Elems(ret)), tx);
      }
    }
  }

  /** Append `tx` to the linearization and count down for its children. */
  method WriteTx(g: Graph, reps: Reps, rep: Tx, chunk: set<Tx>, tx: Tx, o: Output, readyTx: seq<Tx>, ghost started: set<Tx>)
    returns (o2: Output, ready2: seq<Tx>)
    requires GraphOk(g) && RepsOk(g.txs, reps) && OutputOk(g, reps, started, o)
    requires tx in g.txs && tx !in o.ret && reps[tx] == rep && Into(Left(g.deps, Elems(o.ret)), tx) == {}
    requires ReadyTxOk(Left(g.deps, Elems(o.ret)), chunk, Elems(o.ret) + {tx}, readyTx)
    ensures OutputOk(g, reps, started, o2) && o2.ret == o.ret + [tx]
    ensures ReadyTxOk(Left(g.deps, Elems(o2.ret)), chunk, Elems(o2.ret), ready2)
  {
    ghost var done := Elems(o.ret) + {tx};
    ElemsAppend(o.ret, tx);
    AppendParentsFirst(g.deps, o.ret, tx);
    o2, ready2 := o.(ret := o.ret + [tx]), readyTx;
    assert ChildrenAt(g.deps, g.children, tx);
    var todo := g.children[tx];
    assert LeftOr(g.deps, done, tx, todo) == Left(g.deps, Elems(o.ret));
    while todo != {}
      invariant todo <= g.children[tx] && o2.ret == o.ret + [tx]
      invariant CountsOk(LeftOr(g.deps, done, tx, todo), reps, started, o2)
      invariant ReadyTxOk(LeftOr(g.deps, done, tx, todo), chunk, done, ready2)
      invariant DoneMet(LeftOr(g.deps, done, tx, todo), done)
      decreases todo
    {
      var chl :| chl in todo;
      ghost var u := LeftOr(g.deps, done, tx, todo);
      assert u - {Dep(tx, chl)} == LeftOr(g.deps, done, tx, todo - {chl});
      o2, ready2 := MeetDependency(reps, rep, chunk, tx, chl, o2, ready2, u, started, done);
      todo := todo - {chl};
    }
    assert LeftOr(g.deps, done, tx, {}) == Left(g.deps, done);
  }

  // ---------- One chunk is written ----------

  /** Every dependency goes from a lower to a higher rank. */
  ghost predicate Ranked(deps: seq<Dep>, rank: map<Tx, nat>) {
    forall e :: e in deps ==> e.parent in rank && e.child in rank && rank[e.parent] < rank[e.child]
  }

  ghost function ChunkOf(reps: Reps, c: Tx): set<Tx> {
    set t | t in reps && reps[t] == c
  }

  lemma {:induction false} LowestRank(rest: set<Tx>, rank: map<Tx, nat>) returns (t: Tx)
    requires rest != {} && rest <= rank.Keys
    ensures t in rest && forall v :: v in rest ==> rank[t] <= rank[v]
  {
    t :| t in rest;
    if rest != {t} {
      var v := LowestRank(rest - {t}, rank);
      if rank[v] < rank[t] {
        t := v;
      }
    }
  }

  /** An unfinished chunk has a transaction to write next, or waits for another chunk. */
  lemma {:induction false} NextInChunk(g: Graph, reps: Reps, rep: Tx, done: set<Tx>, rank: map<Tx, nat>) returns (t: Tx)
    requires WithinReps(Left(g.deps, done), reps) && Ranked(g.deps, rank) && ChunkOf(reps, rep) <= rank.Keys
    requires ChunkOf(reps, rep) - done != {}
    ensures t in ChunkOf(reps, rep) - done
    ensures Into(Left(g.deps, done), t) == {} || IntoChunk(Left(g.deps, done), reps, rep) != {}
  {
    var u := Left(g.deps, done);
    t := LowestRank(ChunkOf(reps, rep) - done, rank);
    if Into(u, t) != {} {
      var e :| e in Into(u, t);
      assert e in IntoChunk(u, reps, rep);
    }
  }

  lemma {:induction false} NoneReady(u: set<Dep>, chunk: set<Tx>, done: set<Tx>, t: Tx)
    requires ReadyTxOk(u, chunk, done, []) && t in chunk - done
    ensures Into(u, t) != {}
  {
    assert TxReady(u, chunk, done, [], t);
  }

  /** When no transaction of a started chunk is ready, all of them are done. */
  lemma {:induction false} ChunkDone(g: Graph, reps: Reps, rep: Tx, done: set<Tx>, rank: map<Tx, nat>)
    requires WithinReps(Left(g.deps, done), reps) && Ranked(g.deps, rank) && ChunkOf(reps, rep) <= rank.Keys
    requires IntoChunk(Left(g.deps, done), reps, rep) == {}
    requires ReadyTxOk(Left(g.deps, done), ChunkOf(reps, rep), done, [])
    ensures ChunkOf(reps, rep) <= done
  {
    if ChunkOf(reps, rep) - done != {} {
      var t := NextInChunk(g, reps, rep, done, rank);
      NoneReady(Left(g.deps, done), ChunkOf(reps, rep), done, t);
      assert false;
    }
    assert ChunkOf(reps, rep) <= done + (ChunkOf(reps, rep) - done);
  }

  lemma {:induction false} PopReady(u: set<Dep>, chunk: set<Tx>, done: set<Tx>, readyTx: seq<Tx>, k: nat, rest: seq<Tx>)
    requires ReadyTxOk(u, chunk, done, readyTx) && k < |readyTx|
    requires rest == readyTx[k := readyTx[|readyTx| - 1]][..|readyTx| - 1]
    ensures readyTx[k] in chunk && readyTx[k] !in done && Into(u, readyTx[k]) == {}
    ensures ReadyTxOk(u, chunk, done + {readyTx[k]}, rest)
  {
    var tx, n := readyTx[k], |readyTx| - 1;
    assert TxReady(u, chunk, done, readyTx, tx);
    forall t ensures TxReady(u, chunk, done + {tx}, rest, t) {
      assert TxReady(u, chunk, done, readyTx, t);
      if t in readyTx && t != tx {
        var j :| 0 <= j <= n && readyTx[j] == t;
        assert if j == n then rest[k] == t else rest[j] == t;
      }
      if t in rest {
        var j :| 0 <= j < n && rest[j] == t;
        assert t == if j == k then readyTx[n] else readyTx[j];
      }
    }
  }

  /** The transactions of a chunk that can be written first. */
  method ReadyTransactions(chunk: set<Tx>, txLeft: map<Tx, nat>, ghost u: set<Dep>, ghost reps: Reps, ghost done: set<Tx>)
    returns (readyTx: seq<Tx>)
    requires TxsCounted(u, reps, txLeft) && chunk <= reps.Keys && chunk !! done
    ensures ReadyTxOk(u, chunk, done, readyTx)
  {
    readyTx := [];
    var todo := chunk;
    while todo != {}
      invariant todo <= chunk && ReadyTxOk(u, chunk - todo, done, readyTx)
      decreases todo
    {
      var tx :| tx in todo;
      assert TxCounted(u, txLeft, tx);
      ghost var was := readyTx;
      assert TxReady(u, chunk - todo, done, was, tx);
      if txLeft[tx] == 0 {
        readyTx := readyTx + [tx];
      }
      forall t ensures TxReady(u, chunk - (todo - {tx}), done, readyTx, t) {
        assert TxReady(u, chunk - todo, done, was, t);
      }
      todo := todo - {tx};
    }
    assert chunk - todo == chunk;
  }

  /** Write all transactions of a chunk that has no unmet dependencies, parents first. */
  method WriteChunk(g: Graph, reps: Reps, rep: Tx, chunk: set<Tx>, o: Output, ghost started: set<Tx>, ghost rank: map<Tx, nat>)
    returns (o2: Output, ghost group: seq<Tx>)
    requires GraphOk(g) && RepsOk(g.txs, reps) && OutputOk(g, reps, started, o) && Ranked(g.deps, rank)
    requires IsRep(reps, rep) && rep in started && chunk == ChunkOf(reps, rep) && chunk <= rank.Keys && chunk !! Elems(o.ret)
    ensures OutputOk(g, reps, started, o2)
    ensures o2.ret == o.ret + group && Elems(group) == chunk
  {
    ghost var u := Left(g.deps, Elems(o.ret));
    var readyTx := ReadyTransactions(chunk, o.txLeft, u, reps, Elems(o.ret));
    group := [];
    o2 := o;
    while readyTx != []
      invariant OutputOk(g, reps, started, o2) && o2.ret == o.ret + group && Elems(group) <= chunk
      invariant ReadyTxOk(Left(g.deps, Elems(o2.ret)), chunk, Elems(o2.ret), readyTx)
      decreases chunk - Elems(o2.ret)
    {
      var pos: nat :| pos < |readyTx|;
      var tx := readyTx[pos];
      var rest := readyTx[pos := readyTx[|readyTx| - 1]][..|readyTx| - 1];
      PopReady(Left(g.deps, Elems(o2.ret)), chunk, Elems(o2.ret), readyTx, pos, rest);
      ghost var was := o2.ret;
      ElemsAppend(was, tx);
      ElemsAppend(group, tx);
      o2, readyTx := WriteTx(g, reps, rep, chunk, tx, o2, rest, started);
      assert o2.ret == o.ret + (group + [tx]);
      group := group + [tx];
    }
    assert ChunkReady(Left(g.deps, Elems(o2.ret)), reps, started, o2.readyChunks, rep);
    ChunkDone(g, reps, rep, Elems(o2.ret), rank);
    forall t | t in chunk ensures t in group {
      assert t in Elems(o2.ret) && t !in Elems(o.ret);
    }
  }
}
