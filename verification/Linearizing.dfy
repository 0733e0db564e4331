/** The order in which chunks are written, and what it means for the linearization. */
module Linearizing {
  import opened FeeFracs
  import opened TxSets
  import opened Partitions
  import opened Diagrams
  import opened ForestStates
  import opened Chunking
  import opened ForestData
  import opened ForestGraphs
  import opened MergeSearch
  import opened ForestRuns
  import opened Orders
  import opened Loading
  import opened DepCounts
  import opened Outputs

  // ---------- Groups ----------

  /** The chunks of the partition that were written, each as one group and none twice, the later
      ones with no higher feerate. */
  ghost predicate GroupsOk(fees: Fees, part: Partition, groups: seq<seq<Tx>>) {
    && (forall i :: 0 <= i < |groups| ==> GroupOk(fees, part, groups[i]))
    && (forall i, j :: 0 <= i < j < |groups| ==> Elems(groups[i]) != Elems(groups[j]))
    && Sorted(fees, groups)
  }

  ghost predicate GroupOk(fees: Fees, part: Partition, p: seq<Tx>) {
    p != [] && Distinct(p) && Elems(p) in Chunks(part) && SeqTotal(fees, p) == Total(fees, Elems(p))
  }

  ghost function GroupSets(groups: seq<seq<Tx>>): set<set<Tx>> {
    if groups == [] then {} else GroupSets(groups[..|groups| - 1]) + {Elems(groups[|groups| - 1])}
  }

  lemma {:induction false} GroupSetsHas(groups: seq<seq<Tx>>, c: set<Tx>)
    ensures c in GroupSets(groups) <==> exists i :: 0 <= i < |groups| && Elems(groups[i]) == c
    decreases |groups|
  {
    if groups != [] {
      var n := |groups| - 1;
      var rest := groups[..n];
      GroupSetsHas(rest, c);
      assert forall i :: 0 <= i < n ==> rest[i] == groups[i];
    }
  }

  lemma {:induction false} GroupsWorth(fees: Fees, groups: seq<seq<Tx>>, r: FeeFrac)
    requires forall i :: 0 <= i < |groups| ==> Distinct(groups[i])
    requires forall i, j :: 0 <= i < j < |groups| ==> Elems(groups[i]) != Elems(groups[j])
    ensures SumWorth(fees, groups, r) == Potential(fees, GroupSets(groups), r)
    decreases |groups|
  {
    if groups != [] {
      var rest, p := groups[..|groups| - 1], groups[|groups| - 1];
      GroupsWorth(fees, rest, r);
      GroupSetsHas(rest, Elems(p));
      PotentialAdd(fees, GroupSets(rest), Elems(p), r);
      SeqAsSet(fees, p, r);
    }
  }

  /** What was written is made of the groups. */
  ghost predicate Covered(groups: seq<seq<Tx>>, done: set<Tx>) {
    forall t :: t in done ==> exists i :: 0 <= i < |groups| && t in Elems(groups[i])
  }

  lemma {:induction false} AllGroups(fees: Fees, part: Partition, groups: seq<seq<Tx>>)
    requires ValidPartition(part) && Covered(groups, part.Keys)
    requires forall i :: 0 <= i < |groups| ==> Elems(groups[i]) in Chunks(part)
    ensures GroupSets(groups) == Chunks(part)
  {
    forall c ensures c in GroupSets(groups) <==> c in Chunks(part) {
      GroupSetsHas(groups, c);
      if c in Chunks(part) {
        var t :| t in part && part[t] == c;
        var i :| 0 <= i < |groups| && t in Elems(groups[i]);
        var v :| v in part && part[v] == Elems(groups[i]);
        assert t in part[v];
      }
    }
  }

  /** The linearization made of all chunks by non-increasing feerate is nowhere below their diagram. */
  lemma {:induction false} GroupsBest(fees: Fees, part: Partition, groups: seq<seq<Tx>>, r: FeeFrac)
    requires ValidPartition(part) && GroupsOk(fees, part, groups) && Covered(groups, part.Keys) && r.size > 0
    ensures Best(fees, Flatten(groups), r) >= Potential(fees, Chunks(part), r)
  {
    assert forall i :: 0 <= i < |groups| ==> GroupOk(fees, part, groups[i]);
    AllGroups(fees, part, groups);
    GroupsWorth(fees, groups, r);
    SortedBest(fees, groups, r);
  }

  /** One more group, with a feerate that is not above that of the groups before it. */
  lemma {:induction false} GroupsAppend(fees: Fees, part: Partition, groups: seq<seq<Tx>>, done: set<Tx>, p: seq<Tx>)
    requires GroupsOk(fees, part, groups) && Covered(groups, done) && GroupOk(fees, part, p)
    requires forall i :: 0 <= i < |groups| ==> Elems(groups[i]) != Elems(p) && AtLeast(SeqTotal(fees, groups[i]), SeqTotal(fees, p))
    ensures GroupsOk(fees, part, groups + [p]) && Covered(groups + [p], done + Elems(p))
    ensures Flatten(groups + [p]) == Flatten(groups) + p
  {
    var all := groups + [p];
    assert all[..|all| - 1] == groups;
    forall t | t in done + Elems(p) ensures exists i :: 0 <= i < |all| && t in Elems(all[i]) {
      if t in Elems(p) {
        assert t in Elems(all[|groups|]);
      } else {
        var i :| 0 <= i < |groups| && t in Elems(groups[i]);
        assert t in Elems(all[i]);
      }
    }
  }

  // ---------- The next chunk ----------

  /** The heap's order, `<` on feerates: by feerate, then larger sizes first. */
  predicate Below(a: FeeFrac, b: FeeFrac) {
    Excess(a, b) < 0 || (Excess(a, b) == 0 && a.size > b.size)
  }

  /** The position of a ready chunk with the highest feerate; ties are broken at random. */
  method HighestReady(ready: seq<Tx>, infos: Infos) returns (k: nat)
    requires ready != [] && forall j :: 0 <= j < |ready| ==> ready[j] in infos && infos[ready[j]].feerate.size > 0
    ensures k < |ready| && forall j :: 0 <= j < |ready| ==> AtLeast(infos[ready[k]].feerate, infos[ready[j]].feerate)
  {
    k := 0;
    for i := 1 to |ready|
      invariant k < |ready|
      invariant forall j :: 0 <= j < i ==> AtLeast(infos[ready[k]].feerate, infos[ready[j]].feerate)
    {
      var a, b := infos[ready[k]].feerate, infos[ready[i]].feerate;
      var tiebreak: bool := *;
      if Below(a, b) || (a == b && tiebreak) {
        forall j | 0 <= j < i ensures AtLeast(b, infos[ready[j]].feerate) {
          ExcessFlip(a, b);
          HigherTrans(b, a, infos[ready[j]].feerate);
        }
        k := i;
      } else {
        ExcessFlip(a, b);
      }
    }
  }

  lemma {:induction false} HighestRep(fees: Fees, part: Partition, rest: set<Tx>) returns (c: Tx)
    requires rest != {} && rest <= part.Keys
    ensures c in rest && forall d :: d in rest ==> AtLeast(Total(fees, part[c]), Total(fees, part[d]))
  {
    c :| c in rest;
    if rest != {c} {
      var d := HighestRep(fees, part, rest - {c});
      ExcessFlip(Total(fees, part[c]), Total(fees, part[d]));
      if AtLeast(Total(fees, part[d]), Total(fees, part[c])) {
        c := d;
      } else {
        forall v | v in rest - {c} ensures AtLeast(Total(fees, part[c]), Total(fees, part[v])) {
          HigherTrans(Total(fees, part[c]), Total(fees, part[d]), Total(fees, part[v]));
        }
      }
    }
  }

  /** What was written are the chunks that were started. */
  ghost predicate StartedDone(reps: Reps, started: set<Tx>, done: set<Tx>) {
    forall t :: t in reps ==> (t in done <==> reps[t] in started)
  }

  /** In a topological state, some ready chunk has a feerate at least that of any remaining one. */
  lemma {:induction false} ReadyIsHighest(g: Graph, fees: Fees, f: Forest, s: State, started: set<Tx>, ready: seq<Tx>, done: set<Tx>, c: Tx)
    returns (h: Tx)
    requires Good(g, fees, f, s) && IsTopological(g, fees, f)
    requires WithinReps(Left(g.deps, done), s.chunkRep) && ReadyOk(Left(g.deps, done), s.chunkRep, started, ready)
    requires StartedDone(s.chunkRep, started, done) && IsRep(s.chunkRep, c) && c !in started
    ensures h in ready && h in f.part && c in f.part && AtLeast(Total(fees, f.part[h]), Total(fees, f.part[c]))
  {
    var reps, u := s.chunkRep, Left(g.deps, done);
    var rest := set d | d in reps && IsRep(reps, d) && d !in started;
    assert c in rest;
    h := HighestRep(fees, f.part, rest);
    forall e | e in IntoChunk(u, reps, h) ensures false {
      SameRep(fees, f.part, reps, s.chunkInfo, e.child, e.parent);
      SameRep(fees, f.part, reps, s.chunkInfo, e.parent, e.parent);
      assert reps[e.parent] in rest;
      ExcessFlip(Total(fees, f.part[h]), Total(fees, f.part[e.parent]));
    }
    assert IntoChunk(u, reps, h) == {};
    assert ChunkReady(u, reps, started, ready, h);
  }

  // ---------- The whole linearization ----------

  ghost predicate NotBelow(fees: Fees, reps: Reps, part: Partition, started: set<Tx>, p: seq<Tx>, c: Tx) {
    c in part && (IsRep(reps, c) && c !in started ==> AtLeast(SeqTotal(fees, p), Total(fees, part[c])))
  }

  /** No remaining chunk has a higher feerate than the group `p` that was written. */
  ghost predicate NoneAbove(fees: Fees, reps: Reps, part: Partition, started: set<Tx>, p: seq<Tx>) {
    forall c {:trigger NotBelow(fees, reps, part, started, p, c)} :: c in part ==> NotBelow(fees, reps, part, started, p, c)
  }

  /** The groups written so far make up `ret`, and nothing that remains is above any of them. */
  ghost predicate GroupsWritten(fees: Fees, reps: Reps, part: Partition, started: set<Tx>, ret: seq<Tx>, groups: seq<seq<Tx>>) {
    && ret == Flatten(groups) && GroupsOk(fees, part, groups) && Covered(groups, Elems(ret))
    && (forall i :: 0 <= i < |groups| ==> Elems(groups[i]) <= Elems(ret))
    && (forall i {:trigger NoneAbove(fees, reps, part, started, groups[i])} :: 0 <= i < |groups| ==>
          NoneAbove(fees, reps, part, started, groups[i]))
  }

  ghost predicate Writing(g: Graph, fees: Fees, f: Forest, s: State, started: set<Tx>, o: Output, groups: seq<seq<Tx>>) {
    && OutputOk(g, s.chunkRep, started, o) && started <= g.txs
    && StartedDone(s.chunkRep, started, Elems(o.ret))
    && GroupsWritten(fees, s.chunkRep, f.part, started, o.ret, groups)
  }

  lemma {:induction false} RepsOfState(g: Graph, fees: Fees, f: Forest, s: State)
    requires Good(g, fees, f, s)
    ensures RepsOk(g.txs, s.chunkRep)
  {
    forall t | t in g.txs ensures s.chunkRep[t] in g.txs && s.chunkRep[s.chunkRep[t]] == s.chunkRep[t] {
      SameRep(fees, f.part, s.chunkRep, s.chunkInfo, t, t);
    }
  }

  lemma {:induction false} ChunkOfState(g: Graph, fees: Fees, f: Forest, s: State, c: Tx)
    requires Good(g, fees, f, s) && IsRep(s.chunkRep, c)
    ensures c in f.part && c in s.chunkInfo && s.chunkInfo[c] == InfoOf(fees, f.part[c])
    ensures f.part[c] == ChunkOf(s.chunkRep, c) && f.part[c] <= g.txs && f.part[c] != {}
  {
    SameRep(fees, f.part, s.chunkRep, s.chunkInfo, c, c);
    ChunkWithin(f.part, c);
    forall t | t in g.txs ensures t in f.part[c] <==> s.chunkRep[t] == c {
      SameRep(fees, f.part, s.chunkRep, s.chunkInfo, t, c);
      assert t in f.part[t];
      assert t in f.part[c] ==> f.part[t] == f.part[c];
    }
  }

  function Without(l: seq<Tx>, k: nat): seq<Tx>
    requires k < |l|
  {
    l[..k] + l[k + 1..]
  }

  lemma {:induction false} WithoutHas(l: seq<Tx>, k: nat, t: Tx)
    requires Distinct(l) && k < |l|
    ensures t in Without(l, k) <==> t in l && t != l[k]
    ensures Distinct(Without(l, k))
  {
    var m := Without(l, k);
    assert forall i :: 0 <= i < |m| ==> m[i] == if i < k then l[i] else l[i + 1];
    if t in l && t != l[k] {
      var j :| 0 <= j < |l| && l[j] == t;
      assert m[if j < k then j else j - 1] == t;
    }
  }

  /** Taking a chunk from the ready ones starts it. */
  lemma {:induction false} StartChunk(u: set<Dep>, reps: Reps, started: set<Tx>, ready: seq<Tx>, k: nat)
    requires WithinReps(u, reps) && ReadyOk(u, reps, started, ready) && k < |ready|
    ensures IsRep(reps, ready[k]) && ready[k] !in started
    ensures ReadyOk(u, reps, started + {ready[k]}, Without(ready, k))
  {
    var c, rest := ready[k], Without(ready, k);
    assert ChunkReady(u, reps, started, ready, c);
    forall d | IsRep(reps, d) ensures ChunkReady(u, reps, started + {c}, rest, d) {
      assert ChunkReady(u, reps, started, ready, d);
      WithoutHas(ready, k, d);
    }
    WithoutHas(ready, k, c);
  }

  ghost predicate Highest(fees: Fees, reps: Reps, part: Partition, started: set<Tx>, rep: Tx) {
    rep in part && forall c :: IsRep(reps, c) && c !in started ==> c in part && AtLeast(Total(fees, part[rep]), Total(fees, part[c]))
  }

  /** The chunk taken is above all that remain. */
  lemma {:induction false} HighestOfAll(g: Graph, fees: Fees, f: Forest, s: State, started: set<Tx>, ready: seq<Tx>, done: set<Tx>, k: nat)
    requires Good(g, fees, f, s) && IsTopological(g, fees, f) && k < |ready|
    requires WithinReps(Left(g.deps, done), s.chunkRep) && ReadyOk(Left(g.deps, done), s.chunkRep, started, ready)
    requires StartedDone(s.chunkRep, started, done)
    requires forall j :: 0 <= j < |ready| ==> ready[j] in s.chunkInfo
    requires forall j :: 0 <= j < |ready| ==> AtLeast(s.chunkInfo[ready[k]].feerate, s.chunkInfo[ready[j]].feerate)
    ensures Highest(fees, s.chunkRep, f.part, started, ready[k])
  {
    ChunkOfState(g, fees, f, s, ready[k]);
    forall c | IsRep(s.chunkRep, c) && c !in started ensures c in f.part && AtLeast(Total(fees, f.part[ready[k]]), Total(fees, f.part[c])) {
      var h := ReadyIsHighest(g, fees, f, s, started, ready, done, c);
      var j :| 0 <= j < |ready| && ready[j] == h;
      ChunkOfState(g, fees, f, s, ready[j]);
      HigherTrans(Total(fees, f.part[ready[k]]), Total(fees, f.part[h]), Total(fees, f.part[c]));
    }
  }

  lemma {:induction false} WrittenGroup(fees: Fees, part: Partition, ret: seq<Tx>, rep: Tx, p: seq<Tx>)
    requires Distinct(ret + p) && rep in part && Elems(p) == part[rep] && rep in part[rep]
    ensures GroupOk(fees, part, p) && SeqTotal(fees, p) == Total(fees, part[rep])
  {
    assert rep in Elems(p);
    assert forall i :: 0 <= i < |p| ==> (ret + p)[|ret| + i] == p[i];
    SeqAsSet(fees, p, Total(fees, part[rep]));
  }

  /** The group of the chunk just written joins the others. */
  lemma {:induction false} NextGroup(fees: Fees, reps: Reps, part: Partition, started: set<Tx>, ret: seq<Tx>, groups: seq<seq<Tx>>, rep: Tx, p: seq<Tx>)
    requires GroupsWritten(fees, reps, part, started, ret, groups) && IsRep(reps, rep) && rep !in started
    requires GroupOk(fees, part, p) && rep in part && SeqTotal(fees, p) == Total(fees, part[rep])
    requires rep in Elems(p) && rep !in Elems(ret) && Highest(fees, reps, part, started, rep)
    ensures GroupsWritten(fees, reps, part, started + {rep}, ret + p, groups + [p])
  {
    forall i | 0 <= i < |groups|
      ensures Elems(groups[i]) != Elems(p) && AtLeast(SeqTotal(fees, groups[i]), SeqTotal(fees, p))
    {
      assert NoneAbove(fees, reps, part, started, groups[i]);
      assert NotBelow(fees, reps, part, started, groups[i], rep);
    }
    ElemsWithin(groups, ret, p);
    GroupsAppend(fees, part, groups, Elems(ret), p);
    StillAbove(fees, reps, part, started, rep, groups, p);
  }

  lemma {:induction false} ElemsWithin(groups: seq<seq<Tx>>, ret: seq<Tx>, p: seq<Tx>)
    requires forall i :: 0 <= i < |groups| ==> Elems(groups[i]) <= Elems(ret)
    ensures Elems(ret + p) == Elems(ret) + Elems(p)
    ensures forall i :: 0 <= i < |groups + [p]| ==> Elems((groups + [p])[i]) <= Elems(ret + p)
  {
    assert Elems(ret + p) == Elems(ret) + Elems(p);
  }

  lemma {:induction false} NextWritten(fees: Fees, reps: Reps, part: Partition, started: set<Tx>, ret: seq<Tx>, groups: seq<seq<Tx>>, rep: Tx, ret2: seq<Tx>, p: seq<Tx>)
    requires GroupsWritten(fees, reps, part, started, ret, groups) && StartedDone(reps, started, Elems(ret))
    requires IsRep(reps, rep) && rep !in started && Highest(fees, reps, part, started, rep) && ChunkOf(reps, rep) == part[rep]
    requires ret2 == ret + p && Distinct(ret2) && Elems(p) == ChunkOf(reps, rep)
    ensures StartedDone(reps, started + {rep}, Elems(ret2)) && GroupsWritten(fees, reps, part, started + {rep}, ret2, groups + [p])
  {
    WrittenGroup(fees, part, ret, rep, p);
    NextGroup(fees, reps, part, started, ret, groups, rep, p);
    assert Elems(ret2) == Elems(ret) + Elems(p);
  }

  lemma {:induction false} StillAbove(fees: Fees, reps: Reps, part: Partition, started: set<Tx>, rep: Tx, groups: seq<seq<Tx>>, p: seq<Tx>)
    requires Highest(fees, reps, part, started, rep) && SeqTotal(fees, p) == Total(fees, part[rep])
    requires forall i {:trigger NoneAbove(fees, reps, part, started, groups[i])} :: 0 <= i < |groups| ==>
      NoneAbove(fees, reps, part, started, groups[i])
    ensures forall i {:trigger NoneAbove(fees, reps, part, started + {rep}, (groups + [p])[i])} :: 0 <= i < |groups + [p]| ==>
      NoneAbove(fees, reps, part, started + {rep}, (groups + [p])[i])
  {
    var all := groups + [p];
    forall i | 0 <= i < |all| ensures NoneAbove(fees, reps, part, started + {rep}, all[i]) {
      forall c | c in part ensures NotBelow(fees, reps, part, started + {rep}, all[i], c) {
        if i < |groups| {
          assert NoneAbove(fees, reps, part, started, groups[i]);
          assert NotBelow(fees, reps, part, started, groups[i], c);
        }
      }
    }
  }

  /** Everything is written once no chunk is ready. */
  lemma {:induction false} AllWritten(g: Graph, fees: Fees, f: Forest, s: State, started: set<Tx>, o: Output)
    requires Good(g, fees, f, s) && IsTopological(g, fees, f) && o.readyChunks == []
    requires OutputOk(g, s.chunkRep, started, o) && StartedDone(s.chunkRep, started, Elems(o.ret))
    ensures Elems(o.ret) == g.txs
  {
    forall t | t in g.txs ensures t in Elems(o.ret) {
      SameRep(fees, f.part, s.chunkRep, s.chunkInfo, t, t);
      if s.chunkRep[t] !in started {
        var h := ReadyIsHighest(g, fees, f, s, started, o.readyChunks, Elems(o.ret), s.chunkRep[t]);
      }
    }
  }

  /** The first ready chunks. */
  method FirstReady(chunkReps: set<Tx>, chunkLeft: map<Tx, nat>, ghost u: set<Dep>, ghost reps: Reps) returns (ready: seq<Tx>)
    requires WithinReps(u, reps) && ChunksCounted(u, reps, chunkLeft) && forall c :: c in chunkReps <==> IsRep(reps, c)
    ensures ReadyOk(u, reps, {}, ready)
  {
    ready := [];
    var todo := chunkReps;
    while todo != {}
      invariant todo <= chunkReps && Distinct(ready)
      invariant forall c :: c in ready <==> c in chunkReps - todo && IntoChunk(u, reps, c) == {}
      decreases todo
    {
      var c :| c in todo;
      assert ChunkCounted(u, reps, chunkLeft, c);
      if chunkLeft[c] == 0 {
        ready := ready + [c];
      }
      todo := todo - {c};
    }
    forall k | 0 <= k < |ready| ensures IsRep(reps, ready[k]) {
      assert ready[k] in ready;
    }
    forall c | IsRep(reps, c) ensures ChunkReady(u, reps, {}, ready, c) {}
  }

  lemma {:induction false} WritingStart(g: Graph, fees: Fees, f: Forest, s: State, o: Output)
    requires Good(g, fees, f, s) && o.ret == [] && CountsOk(DepSet(g.deps), s.chunkRep, {}, o)
    ensures Writing(g, fees, f, s, {}, o, [])
  {
    assert Elems(o.ret) == {};
    assert Left(g.deps, Elems(o.ret)) == DepSet(g.deps);
  }

  /** Find the highest-feerate ready chunk. */
  method PickChunk(g: Graph, s: State, ready: seq<Tx>, ghost fees: Fees, ghost f: Forest, ghost started: set<Tx>, ghost done: set<Tx>)
    returns (k: nat)
    requires Good(g, fees, f, s) && IsTopological(g, fees, f) && ready != []
    requires WithinReps(Left(g.deps, done), s.chunkRep) && ReadyOk(Left(g.deps, done), s.chunkRep, started, ready)
    requires StartedDone(s.chunkRep, started, done)
    ensures k < |ready| && IsRep(s.chunkRep, ready[k]) && ready[k] !in started && Highest(fees, s.chunkRep, f.part, started, ready[k])
    ensures ready[k] in s.chunkInfo && s.chunkInfo[ready[k]].transactions == f.part[ready[k]] == ChunkOf(s.chunkRep, ready[k])
  {
    forall j | 0 <= j < |ready| ensures ready[j] in s.chunkInfo && s.chunkInfo[ready[j]].feerate.size > 0 {
      ChunkOfState(g, fees, f, s, ready[j]);
    }
    k := HighestReady(ready, s.chunkInfo);
    HighestOfAll(g, fees, f, s, started, ready, done, k);
    assert ChunkReady(Left(g.deps, done), s.chunkRep, started, ready, ready[k]);
    ChunkOfState(g, fees, f, s, ready[k]);
  }

  /** Write the ready chunk at position `k`. */
  method WriteReady(g: Graph, s: State, o: Output, k: nat, ghost fees: Fees, ghost f: Forest, ghost rank: map<Tx, nat>, ghost started: set<Tx>, ghost groups: seq<seq<Tx>>)
    returns (o2: Output, ghost p: seq<Tx>)
    requires GraphOk(g) && RepsOk(g.txs, s.chunkRep) && Ranked(g.deps, rank) && rank.Keys == g.txs
    requires Writing(g, fees, f, s, started, o, groups) && k < |o.readyChunks| && IsRep(s.chunkRep, o.readyChunks[k])
    requires o.readyChunks[k] !in started && Highest(fees, s.chunkRep, f.part, started, o.readyChunks[k])
    requires o.readyChunks[k] in s.chunkInfo
    requires s.chunkInfo[o.readyChunks[k]].transactions == f.part[o.readyChunks[k]] == ChunkOf(s.chunkRep, o.readyChunks[k])
    ensures Writing(g, fees, f, s, started + {o.readyChunks[k]}, o2, groups + [p])
  {
    var rep := o.readyChunks[k];
    StartChunk(Left(g.deps, Elems(o.ret)), s.chunkRep, started, o.readyChunks, k);
    var o1 := o.(readyChunks := Without(o.readyChunks, k));
    o2, p := WriteChunk(g, s.chunkRep, rep, s.chunkInfo[rep].transactions, o1, started + {rep}, rank);
    NextWritten(fees, s.chunkRep, f.part, started, o.ret, groups, rep, o2.ret, p);
  }

  /** Write all chunks, the highest-feerate ready one next. */
  method WriteChunks(g: Graph, s: State, o0: Output, ghost fees: Fees, ghost f: Forest, ghost rank: map<Tx, nat>)
    returns (o: Output, ghost started: set<Tx>, ghost groups: seq<seq<Tx>>)
    requires Good(g, fees, f, s) && IsTopological(g, fees, f) && RepsOk(g.txs, s.chunkRep) && Ranked(g.deps, rank) && rank.Keys == g.txs
    requires Writing(g, fees, f, s, {}, o0, [])
    ensures Writing(g, fees, f, s, started, o, groups) && o.readyChunks == []
  {
    o, started, groups := o0, {}, [];
    while o.readyChunks != []
      invariant Writing(g, fees, f, s, started, o, groups)
      decreases g.txs - started
    {
      var k := PickChunk(g, s, o.readyChunks, fees, f, started, Elems(o.ret));
      ghost var rep := o.readyChunks[k];
      ghost var p;
      o, p := WriteReady(g, s, o, k, fees, f, rank, started, groups);
      started, groups := started + {rep}, groups + [p];
    }
  }

  /** A linearization of a topological state: a permutation, parents first, made of the chunks by
      non-increasing feerate, and nowhere below the diagram of the state. */
  method WriteLinearization(g: Graph, s: State, ghost fees: Fees, ghost f: Forest, ghost rank: map<Tx, nat>)
    returns (ret: seq<Tx>, ghost groups: seq<seq<Tx>>)
    requires Good(g, fees, f, s) && IsTopological(g, fees, f) && Ranked(g.deps, rank) && rank.Keys == g.txs
    ensures IsPermutation(ret, g.txs) && ParentsFirst(DepSet(g.deps), ret)
    ensures ret == Flatten(groups) && GroupsOk(fees, f.part, groups)
    ensures forall r: FeeFrac :: r.size > 0 ==> Best(fees, ret, r) >= Potential(fees, Chunks(f.part), r)
  {
    RepsOfState(g, fees, f, s);
    var chunkLeft, txLeft, chunkReps := CountUnmet(g, s.chunkRep);
    var ready := FirstReady(chunkReps, chunkLeft, DepSet(g.deps), s.chunkRep);
    var o := Output([], chunkLeft, txLeft, ready);
    WritingStart(g, fees, f, s, o);
    ghost var started;
    o, started, groups := WriteChunks(g, s, o, fees, f, rank);
    AllWritten(g, fees, f, s, started, o);
    ret := o.ret;
    WrittenBest(fees, f.part, groups);
  }

  lemma {:induction false} WrittenBest(fees: Fees, part: Partition, groups: seq<seq<Tx>>)
    requires ValidPartition(part) && GroupsOk(fees, part, groups) && Covered(groups, part.Keys)
    ensures forall r: FeeFrac :: r.size > 0 ==> Best(fees, Flatten(groups), r) >= Potential(fees, Chunks(part), r)
  {
    forall r: FeeFrac | r.size > 0 ensures Best(fees, Flatten(groups), r) >= Potential(fees, Chunks(part), r) {
      GroupsBest(fees, part, groups, r);
    }
  }
}
