/** Relations between forest states: single merge steps, merge runs, and improvements. */
module ForestRuns {
  import opened FeeFracs
  import opened TxSets
  import opened Partitions
  import opened Improvement
  import opened Forests
  import opened ForestStates
  import opened Chunking
  import opened ForestData
  import opened ForestGraphs
  import opened MergeSearch
  import opened DepPicking
  import opened ForestWork

  /** The forest's fields are consistent and represent `f`. */
  ghost predicate Good(g: Graph, fees: Fees, f: Forest, s: State) {
    && GraphOk(g) && fees.Keys == g.txs && StateOk(g, fees, f, s)
    && forall k :: 0 <= k < |s.suboptimal| ==> s.suboptimal[k] in g.txs
  }

  lemma {:induction false} SameQueue(g: Graph, fees: Fees, f: Forest, s: State, f2: Forest, s2: State)
    requires Good(g, fees, f, s) && StateOk(g, fees, f2, s2) && s2.suboptimal == s.suboptimal
    ensures Good(g, fees, f2, s2)
  {
  }

  /** `Activate` on the fields, with the history of the forest. */
  method ActivateRecorded(g: Graph, s: State, d: DepIdx, ghost fees: Fees, ghost f: Forest, ghost h: History)
    returns (s2: State, rep: Tx, ghost f2: Forest, ghost h2: History)
    requires Good(g, fees, f, s) && Recorded(g, f, s.cost, h) && d < |g.deps|
    requires f.part[g.deps[d].parent] != f.part[g.deps[d].child]
    ensures Joined(g, f, s, d, f2, s2, rep) && Entered(h, s, Activation(d), f2, s2, h2)
    ensures Good(g, fees, f2, s2) && Recorded(g, f2, s2.cost, h2)
  {
    s2, rep, f2 := ActivateFields(g, s, d, fees, f);
    SameQueue(g, fees, f, s, f2, s2);
    h2 := Logged(h, Activation(d), f2, s2.cost - s.cost);
    RecordJoined(g, f, s, d, f2, s2, rep, h);
  }

  /** `Deactivate` on the fields, with the history of the forest. */
  method DeactivateRecorded(g: Graph, s: State, d: DepIdx, ghost fees: Fees, ghost f: Forest, ghost h: History)
    returns (s2: State, ghost h2: History)
    requires Good(g, fees, f, s) && Recorded(g, f, s.cost, h) && d in f.act
    ensures Good(g, fees, Deactivated(g.deps, f, d), s2) && Recorded(g, Deactivated(g.deps, f, d), s2.cost, h2)
    ensures s2.suboptimal == s.suboptimal && s2.cost == s.cost + |f.part[g.deps[d].parent]| > s.cost
    ensures s2.chunkRep == SplitRedirected(s.chunkRep, g.deps[d].parent, g.deps[d].child, f.top[d],
                                           f.part[g.deps[d].parent] - f.top[d])
    ensures Entered(h, s, Deactivation(d), Deactivated(g.deps, f, d), s2, h2)
  {
    s2 := DeactivateFields(g, s, d, fees, f);
    ghost var f2 := Deactivated(g.deps, f, d);
    SameQueue(g, fees, f, s, f2, s2);
    RecordMove(g, f, s.cost, h, Deactivation(d), f2, s2.cost - s.cost);
    h2 := Logged(h, Deactivation(d), f2, s2.cost - s.cost);
  }

  lemma {:induction false} RecordJoined(g: Graph, f: Forest, s: State, d: DepIdx, f2: Forest, s2: State, rep: Tx, h: History)
    requires Joined(g, f, s, d, f2, s2, rep) && f.part[g.deps[d].parent] != f.part[g.deps[d].child]
    requires Recorded(g, f, s.cost, h)
    ensures Recorded(g, f2, s2.cost, Logged(h, Activation(d), f2, s2.cost - s.cost))
  {
    RecordMove(g, f, s.cost, h, Activation(d), f2, s2.cost - s.cost);
  }

  /** `rep` represents the chunk of `x`. */
  ghost predicate RepOf(f: Forest, s: State, rep: Tx, x: Tx) {
    && rep in f.part && x in f.part && f.part[rep] == f.part[x]
    && rep in s.chunkRep && s.chunkRep[rep] == rep
  }

  ghost predicate Stuck(g: Graph, fees: Fees, down: bool, f: Forest, x: Tx) {
    UpStuck(OrientedDeps(down, g.deps), OrientedFees(down, fees), f.part, x)
  }

  /** One merge step led from `f0`, `s0` to `f1`, `s1`: the chunks of `x` and `y` were merged, and
      nothing else changed. */
  ghost predicate StepRel(g: Graph, fees: Fees, down: bool, f0: Forest, s0: State, f1: Forest, s1: State, x: Tx, y: Tx) {
    && InRange(g.deps, f0.act) && InRange(g.deps, f1.act)
    && UpStep(OrientedDeps(down, g.deps), OrientedFees(down, fees), f0.part, x, y)
    && f1.part == Merge(f0.part, f0.part[x], f0.part[y])
    && Elsewhere(g, f0, s0, f1, s1, x)
    && s1.suboptimal == s0.suboptimal && s1.cost > s0.cost
  }

  /** Merge steps led from `f0`, `s0` to `f1`, `s1`: the chunk of `x` was merged with those of `ys`. */
  ghost predicate RunRel(g: Graph, fees: Fees, down: bool, f0: Forest, s0: State, f1: Forest, s1: State, x: Tx, ys: seq<Tx>) {
    && InRange(g.deps, f0.act) && InRange(g.deps, f1.act)
    && UpChain(OrientedDeps(down, g.deps), OrientedFees(down, fees), f0.part, x, ys)
    && f1.part == RunEnd(f0.part, x, ys)
    && Elsewhere(g, f0, s0, f1, s1, x)
    && s1.suboptimal == s0.suboptimal && s1.cost >= s0.cost
  }

  lemma {:induction false} RunRelStart(g: Graph, fees: Fees, down: bool, f: Forest, s: State, x: Tx)
    requires Good(g, fees, f, s) && x in g.txs
    ensures RunRel(g, fees, down, f, s, f, s, x, [])
    ensures x in s.chunkRep && RepOf(f, s, s.chunkRep[x], x)
  {
    SameRep(fees, f.part, s.chunkRep, s.chunkInfo, x, x);
    ElsewhereRefl(g, f, s, x);
  }

  lemma {:induction false} RunRelStep(g: Graph, fees: Fees, down: bool, f0: Forest, s0: State, f1: Forest, s1: State, f2: Forest, s2: State,
                                      x: Tx, ys: seq<Tx>, y: Tx)
    requires RunRel(g, fees, down, f0, s0, f1, s1, x, ys) && StepRel(g, fees, down, f1, s1, f2, s2, x, y)
    requires ValidPartition(f1.part)
    ensures RunRel(g, fees, down, f0, s0, f2, s2, x, ys + [y])
    ensures |Chunks(f2.part)| < |Chunks(f1.part)|
  {
    FewerChunks(f1.part, x, y);
    ElsewhereTrans(g, f0, s0, f1, s1, f2, s2, x);
    assert (ys + [y])[..|ys + [y]| - 1] == ys;
  }

  /** Outside the chunk of `x`, the states `h`, `st` and `f`, `s` are the same. */
  ghost predicate Elsewhere(g: Graph, h: Forest, st: State, f: Forest, s: State, x: Tx)
    requires InRange(g.deps, h.act) && InRange(g.deps, f.act)
  {
    x in f.part && forall t {:trigger SameAt(g.deps, h, f, t)} :: t in g.txs && t !in f.part[x] ==>
      SameAt(g.deps, h, f, t) && t in st.chunkRep && t in s.chunkRep && s.chunkRep[t] == st.chunkRep[t]
  }

  /** The state after activating `d`, in terms of the chunks of `x` and `y` that it joins. */
  lemma {:induction false} StepOutcome(g: Graph, fees: Fees, h: Forest, st: State, f: Forest, s: State, d: DepIdx, x: Tx, y: Tx, r: Tx)
    requires GraphOk(g) && StateOk(g, fees, h, st) && StateOk(g, fees, f, s) && fees.Keys == g.txs && d < |g.deps|
    requires h.part[g.deps[d].parent] != h.part[g.deps[d].child] && f == Activated(g.deps, h, d)
    requires x in h.part && y in h.part
    requires (h.part[g.deps[d].parent] == h.part[x] && h.part[g.deps[d].child] == h.part[y]) ||
             (h.part[g.deps[d].parent] == h.part[y] && h.part[g.deps[d].child] == h.part[x])
    requires r == st.chunkRep[g.deps[d].parent]
    requires s.chunkRep == MergeRedirected(st.chunkRep, r, h.part[g.deps[d].parent], h.part[g.deps[d].child])
    ensures f.part == Merge(h.part, h.part[x], h.part[y]) && Elsewhere(g, h, st, f, s, x) && RepOf(f, s, r, x)
  {
    InactiveAcross(g.deps, h, d);
    StepPartition(g.deps, h, d, x, y);
    StepRep(g, fees, h, st, f, s, d, x, r);
    StepElsewhere(g, fees, h, st, f, s, d, x, r);
  }

  lemma {:induction false} StepPartition(deps: seq<Dep>, h: Forest, d: DepIdx, x: Tx, y: Tx)
    requires IsForest(deps, h) && d < |deps| && deps[d].parent in h.part && deps[d].child in h.part
    requires h.part[deps[d].parent] != h.part[deps[d].child] && x in h.part && y in h.part
    requires (h.part[deps[d].parent] == h.part[x] && h.part[deps[d].child] == h.part[y]) ||
             (h.part[deps[d].parent] == h.part[y] && h.part[deps[d].child] == h.part[x])
    ensures Activated(deps, h, d).part == Merge(h.part, h.part[x], h.part[y]) && x in Activated(deps, h, d).part
    ensures Activated(deps, h, d).part[x] == h.part[deps[d].parent] + h.part[deps[d].child]
  {
    assert h.part[deps[d].parent] + h.part[deps[d].child] == h.part[x] + h.part[y];
  }

  lemma {:induction false} StepRep(g: Graph, fees: Fees, h: Forest, st: State, f: Forest, s: State, d: DepIdx, x: Tx, r: Tx)
    requires GraphOk(g) && StateOk(g, fees, h, st) && fees.Keys == g.txs && d < |g.deps|
    requires h.part[g.deps[d].parent] != h.part[g.deps[d].child] && ValidPartition(f.part) && f.part.Keys == h.part.Keys
    requires x in f.part && f.part[x] == h.part[g.deps[d].parent] + h.part[g.deps[d].child]
    requires r == st.chunkRep[g.deps[d].parent]
    requires s.chunkRep == MergeRedirected(st.chunkRep, r, h.part[g.deps[d].parent], h.part[g.deps[d].child])
    ensures RepOf(f, s, r, x)
  {
    var p := g.deps[d].parent;
    SameRep(fees, h.part, st.chunkRep, st.chunkInfo, p, g.deps[d].child);
    assert ChunkAt(fees, h.part, st.chunkRep, st.chunkInfo, p);
  }

  lemma {:induction false} StepElsewhere(g: Graph, fees: Fees, h: Forest, st: State, f: Forest, s: State, d: DepIdx, x: Tx, r: Tx)
    requires GraphOk(g) && StateOk(g, fees, h, st) && IsForest(g.deps, f) && fees.Keys == g.txs && d < |g.deps| && d !in h.act
    requires f == Activated(g.deps, h, d) && x in f.part
    requires f.part[x] == h.part[g.deps[d].parent] + h.part[g.deps[d].child]
    requires s.chunkRep == MergeRedirected(st.chunkRep, r, h.part[g.deps[d].parent], h.part[g.deps[d].child])
    ensures Elsewhere(g, h, st, f, s, x)
  {
    forall t | t in g.txs && t !in f.part[x]
      ensures SameAt(g.deps, h, f, t) && t in st.chunkRep && t in s.chunkRep && s.chunkRep[t] == st.chunkRep[t]
    {
      ActivatedSame(g.deps, h, d, t);
    }
  }

  /** Changes confined to a growing chunk stay confined to it. */
  lemma {:induction false} ElsewhereTrans(g: Graph, f0: Forest, s0: State, f1: Forest, s1: State, f2: Forest, s2: State, x: Tx)
    requires InRange(g.deps, f0.act) && InRange(g.deps, f1.act) && InRange(g.deps, f2.act)
    requires Elsewhere(g, f0, s0, f1, s1, x) && Elsewhere(g, f1, s1, f2, s2, x) && f1.part[x] <= f2.part[x]
    ensures Elsewhere(g, f0, s0, f2, s2, x)
  {
    forall t | t in g.txs && t !in f2.part[x]
      ensures SameAt(g.deps, f0, f2, t) && t in s0.chunkRep && t in s2.chunkRep && s2.chunkRep[t] == s0.chunkRep[t]
    {
      assert SameAt(g.deps, f0, f1, t) && SameAt(g.deps, f1, f2, t);
      SameTrans(g.deps, f0, f1, f2, t);
    }
  }

  lemma {:induction false} ElsewhereRefl(g: Graph, f: Forest, s: State, x: Tx)
    requires IsForest(g.deps, f) && f.part.Keys == g.txs == s.chunkRep.Keys && x in f.part
    ensures Elsewhere(g, f, s, f, s, x)
  {
    forall t | t in g.txs ensures SameAt(g.deps, f, f, t) {
      forall d | d in ActiveIn(g.deps, f.act, f.part[t]) ensures d in f.top {}
    }
  }

  /** Merging leaves one chunk fewer. */
  lemma {:induction false} FewerChunks(part: Partition, x: Tx, y: Tx)
    requires ValidPartition(part) && x in part && y in part && part[x] != part[y]
    ensures |Chunks(Merge(part, part[x], part[y]))| < |Chunks(part)|
  {
    var A, B := part[x], part[y];
    var cs, ds := Chunks(part), Chunks(Merge(part, A, B));
    forall c | c in ds ensures c == A + B || c in cs - {A, B} {
      var t :| t in part && Merge(part, A, B)[t] == c;
      if c != A + B {
        assert c == part[t] && part[t] in cs;
        assert t !in A + B;
      }
    }
    assert ds <= cs - {A, B} + {A + B};
    assert A in cs && B in cs;
    assert |cs - {A, B}| == |cs| - 2 by { assert {A, B} <= cs; assert |{A, B}| == 2; }
    SubsetCard(ds, cs - {A, B} + {A + B});
  }

  lemma {:induction false} SubsetCard(a: set<set<Tx>>, b: set<set<Tx>>)
    requires a <= b
    ensures |a| <= |b|
  {
    assert b == a + (b - a);
  }

  lemma {:induction false} SameChunk(part: Partition, t: Tx, u: Tx)
    requires ValidPartition(part) && t in part && u in part[t]
    ensures u in part && part[u] == part[t] && t in part[u]
  {
  }

  /** The dependency to activate between a chunk and its merge partner. */
  method PartnerDependency(g: Graph, s: State, rep: Tx, other: Tx, down: bool, ghost fees: Fees, ghost f: Forest) returns (d: DepIdx)
    requires GraphOk(g) && fees.Keys == g.txs && StateOk(g, fees, f, s)
    requires rep in g.txs && s.chunkRep[rep] == rep && other in g.txs && s.chunkRep[other] == other
    requires UpStep(OrientedDeps(down, g.deps), OrientedFees(down, fees), f.part, rep, other)
    ensures d < |g.deps|
    ensures f.part[g.deps[d].parent] == f.part[if down then rep else other]
    ensures f.part[g.deps[d].child] == f.part[if down then other else rep]
  {
    SameRep(fees, f.part, s.chunkRep, s.chunkInfo, rep, other);
    SameRep(fees, f.part, s.chunkRep, s.chunkInfo, other, rep);
    ChunkWithin(f.part, rep);
    ChunkWithin(f.part, other);
    var top, bottom := if down then rep else other, if down then other else rep;
    ghost var e :| e in OrientedDeps(down, g.deps) && e.child in f.part[rep] && e.parent in f.part[other];
    assert (if down then FlippedDep(e) else e) in g.deps;
    d := PickDependency(g, s.chunkInfo[top].transactions, s.chunkInfo[bottom].transactions);
    SameChunk(f.part, top, g.deps[d].parent);
    SameChunk(f.part, bottom, g.deps[d].child);
  }

  /** Activating a dependency between a chunk and its merge partner merges the two. */
  lemma {:induction false} PartnerMerges(g: Graph, fees: Fees, down: bool, f: Forest, d: DepIdx, x: Tx, y: Tx)
    requires d < |g.deps| && IsForest(g.deps, f)
    requires UpStep(OrientedDeps(down, g.deps), OrientedFees(down, fees), f.part, x, y)
    requires f.part[g.deps[d].parent] == f.part[if down then x else y]
    requires f.part[g.deps[d].child] == f.part[if down then y else x]
    ensures MergesBest(g, fees, f, d, down)
  {
  }

  // ---------- Improvements ----------

  /** The second diagram is nowhere below the first. */
  ghost predicate NeverWorse(fees: Fees, part: Partition, q: Partition) {
    forall r: FeeFrac :: r.size > 0 ==> Potential(fees, Chunks(q), r) >= Potential(fees, Chunks(part), r)
  }

  /** No active dependency in the chunk of `t` has a top of higher feerate than the chunk. */
  ghost predicate GoodChunk(g: Graph, fees: Fees, f: Forest, t: Tx)
    requires InRange(g.deps, f.act)
  {
    t in f.part && forall d :: d in ActiveIn(g.deps, f.act, f.part[t]) ==>
      d in f.top && !Higher(Total(fees, f.top[d]), Total(fees, f.part[t]))
  }

  /** The chunk of `t` is queued or cannot be improved. */
  ghost predicate Handled(g: Graph, fees: Fees, f: Forest, s: State, t: Tx)
    requires InRange(g.deps, f.act)
  {
    t in s.chunkRep && (s.chunkRep[t] in s.suboptimal || GoodChunk(g, fees, f, t))
  }

  ghost predicate QueueOk(g: Graph, fees: Fees, f: Forest, s: State)
    requires InRange(g.deps, f.act)
  {
    forall t {:trigger Handled(g, fees, f, s, t)} :: t in g.txs ==> Handled(g, fees, f, s, t)
  }

  ghost predicate IsTopological(g: Graph, fees: Fees, f: Forest) {
    Topological(DepSet(g.deps), fees, f.part)
  }

  /** After `Improve` on the chunk `c`: every chunk is new and queued, or untouched. */
  ghost predicate Requeued(g: Graph, f0: Forest, s0: State, f1: Forest, s1: State, c: set<Tx>, t: Tx)
    requires InRange(g.deps, f0.act) && InRange(g.deps, f1.act)
  {
    && t in s1.chunkRep
    && (s1.chunkRep[t] in s1.suboptimal ||
        (t !in c && SameAt(g.deps, f0, f1, t) && t in s0.chunkRep && s1.chunkRep[t] == s0.chunkRep[t]))
  }

  ghost predicate ImproveRel(g: Graph, fees: Fees, f0: Forest, s0: State, f1: Forest, s1: State, c: set<Tx>) {
    && InRange(g.deps, f0.act) && InRange(g.deps, f1.act)
    && IsTopological(g, fees, f1) && NeverWorse(fees, f0.part, f1.part)
    && s0.suboptimal <= s1.suboptimal && s1.cost > s0.cost
    && forall t {:trigger Requeued(g, f0, s0, f1, s1, c, t)} :: t in g.txs ==> Requeued(g, f0, s0, f1, s1, c, t)
  }

  lemma {:induction false} RunGrows(part: Partition, x: Tx, ys: seq<Tx>)
    requires x in part
    ensures x in RunEnd(part, x, ys) && part[x] <= RunEnd(part, x, ys)[x]
    decreases |ys|
  {
    if ys != [] {
      RunGrows(part, x, ys[..|ys| - 1]);
    }
  }

  /** The partition side of both halves of an improvement. */
  lemma {:induction false} ImprovePartition(g: Graph, fees: Fees, f0: Forest, d: DepIdx, s1: State, f2: Forest, m2: State, s2: State, ys: seq<Tx>,
                                            f3: Forest, m3: State, zs: seq<Tx>)
    requires GraphOk(g) && fees.Keys == g.txs && IsForest(g.deps, f0) && f0.part.Keys == g.txs && d in f0.act
    requires IsTopological(g, fees, f0)
    requires Higher(Total(fees, f0.top[d]), Total(fees, f0.part[g.deps[d].parent]))
    requires RunRel(g, fees, false, Deactivated(g.deps, f0, d), s1, f2, m2, g.deps[d].parent, ys)
    requires Stuck(g, fees, false, f2, g.deps[d].parent)
    requires RunRel(g, fees, true, f2, s2, f3, m3, g.deps[d].child, zs)
    requires Stuck(g, fees, true, f3, g.deps[d].child)
    ensures IsTopological(g, fees, f3) && NeverWorse(fees, f0.part, f3.part)
  {
    SplitIsReady(g, fees, f0, d);
    var T := f0.top[d];
    ImproveStep(DepSet(g.deps), fees, f0.part, T, f0.part[g.deps[d].parent] - T, g.deps[d].parent, ys, g.deps[d].child, zs);
  }

  lemma {:induction false} SplitIsReady(g: Graph, fees: Fees, f0: Forest, d: DepIdx)
    requires GraphOk(g) && fees.Keys == g.txs && IsForest(g.deps, f0) && f0.part.Keys == g.txs && d in f0.act
    requires IsTopological(g, fees, f0)
    requires Higher(Total(fees, f0.top[d]), Total(fees, f0.part[g.deps[d].parent]))
    ensures SplitReady(DepSet(g.deps), fees, f0.part, f0.top[d], f0.part[g.deps[d].parent] - f0.top[d])
    ensures g.deps[d].parent in f0.top[d] && g.deps[d].child in f0.part[g.deps[d].parent] - f0.top[d]
  {
    var p, T := g.deps[d].parent, f0.top[d];
    TreeEnds(g.deps, f0, d);
    assert T + (f0.part[p] - T) == f0.part[p];
    assert DepsWithin(DepSet(g.deps), f0.part.Keys);
  }

  /** The queue part of an improvement. */
  lemma {:induction false} ImproveQueue(g: Graph, fees: Fees, f0: Forest, s0: State, d: DepIdx, s1: State,
                                        f2: Forest, s2: State, ys: seq<Tx>, f3: Forest, s3: State, zs: seq<Tx>, t: Tx)
    requires Good(g, fees, f0, s0) && d in f0.act && Good(g, fees, f3, s3) && Good(g, fees, f2, s2)
    requires var f1 := Deactivated(g.deps, f0, d);
             var p, c := g.deps[d].parent, g.deps[d].child;
             && s1.chunkRep == SplitRedirected(s0.chunkRep, p, c, f0.top[d], f0.part[p] - f0.top[d])
             && IsForest(g.deps, f1)
             && f2.part == RunEnd(f1.part, p, ys) && Elsewhere(g, f1, s1, f2, s2, p)
             && f3.part == RunEnd(f2.part, c, zs) && Elsewhere(g, f2, s2, f3, s3, c)
             && s2.chunkRep[p] in s3.suboptimal && s3.chunkRep[c] in s3.suboptimal
    requires t in g.txs
    ensures InRange(g.deps, f3.act) && Requeued(g, f0, s0, f3, s3, f0.part[g.deps[d].parent], t)
  {
    var f1 := Deactivated(g.deps, f0, d);
    var p, c := g.deps[d].parent, g.deps[d].child;
    TreeEnds(g.deps, f0, d);
    RunGrows(f1.part, p, ys);
    RunGrows(f2.part, c, zs);
    if t in f3.part[c] {
      SameRep(fees, f3.part, s3.chunkRep, s3.chunkInfo, t, c);
      SameChunk(f3.part, c, t);
    } else {
      assert SameAt(g.deps, f2, f3, t);
      if t in f2.part[p] {
        SameRep(fees, f2.part, s2.chunkRep, s2.chunkInfo, t, p);
        SameChunk(f2.part, p, t);
      } else {
        assert SameAt(g.deps, f1, f2, t);
        OutsideChunk(g, f0, d, f1, f2, f3, t);
        DeactivatedSame(g.deps, f0, d, t);
        SameTrans(g.deps, f0, f1, f2, t);
        SameTrans(g.deps, f0, f2, f3, t);
      }
    }
  }

  /** A transaction that neither run touched was not in the split chunk. */
  lemma {:induction false} OutsideChunk(g: Graph, f0: Forest, d: DepIdx, f1: Forest, f2: Forest, f3: Forest, t: Tx)
    requires IsForest(g.deps, f0) && d in f0.act && f1 == Deactivated(g.deps, f0, d)
    requires IsForest(g.deps, f1) && IsForest(g.deps, f2) && IsForest(g.deps, f3)
    requires var p, c := g.deps[d].parent, g.deps[d].child;
             && p in f2.part && f1.part[p] <= f2.part[p] && t !in f2.part[p]
             && c in f2.part && c in f3.part && f2.part[c] <= f3.part[c] && t !in f3.part[c]
    requires SameAt(g.deps, f1, f2, t)
    ensures t !in f0.part[g.deps[d].parent]
  {
    var p, c := g.deps[d].parent, g.deps[d].child;
    TreeEnds(g.deps, f0, d);
    assert f1.part[p] == f0.top[d];
    assert c in f0.part[p] - f0.top[d];
    if t in f0.part[p] {
      assert f2.part[t] == f0.part[p] - f0.top[d];
      SameChunk(f2.part, t, c);
      assert false;
    }
  }

  /** With every chunk handled and nothing queued, the state is optimal. */
  lemma {:induction false} EmptyQueueOptimal(g: Graph, fees: Fees, f: Forest, s: State)
    requires Good(g, fees, f, s) && QueueOk(g, fees, f, s) && s.suboptimal == []
    ensures NoImprovable(g.deps, fees, f)
  {
    forall d | d in f.act ensures !Higher(Total(fees, f.top[d]), Total(fees, f.part[g.deps[d].parent])) {
      TreeEnds(g.deps, f, d);
      assert Handled(g, fees, f, s, g.deps[d].parent);
      assert d in ActiveIn(g.deps, f.act, f.part[g.deps[d].parent]);
    }
  }

  /** An improvement of a popped chunk keeps every chunk handled. */
  lemma {:induction false} ImproveKeepsQueue(g: Graph, fees: Fees, f0: Forest, s0: State, f1: Forest, s1: State, c: set<Tx>)
    requires ImproveRel(g, fees, f0, s0, f1, s1, c) && f0.part.Keys == g.txs
    requires forall t {:trigger Handled(g, fees, f0, s0, t)} :: t in g.txs && t !in c ==> Handled(g, fees, f0, s0, t)
    ensures QueueOk(g, fees, f1, s1)
  {
    forall t | t in g.txs ensures Handled(g, fees, f1, s1, t) {
      assert Requeued(g, f0, s0, f1, s1, c, t);
      if s1.chunkRep[t] !in s1.suboptimal {
        assert Handled(g, fees, f0, s0, t);
        assert s0.chunkRep[t] !in s0.suboptimal;
      }
    }
  }

  /** An eligible dependency of the chunk of `t`: active, with a top of higher feerate. */
  ghost predicate Eligible(g: Graph, fees: Fees, f: Forest, t: Tx, d: DepIdx) {
    && t in f.part && d < |g.deps| && d in f.act && g.deps[d].parent in f.part[t] && d in f.top
    && Higher(Total(fees, f.top[d]), Total(fees, f.part[t]))
  }

  /** Nothing from `txs` has an eligible dependency to a child. */
  ghost predicate NoneEligible(g: Graph, fees: Fees, f: Forest, t: Tx, txs: set<Tx>) {
    forall d {:trigger Eligible(g, fees, f, t, d)} :: 0 <= d < |g.deps| && g.deps[d].parent in txs ==> !Eligible(g, fees, f, t, d)
  }

  /** The search of `OptimizeStep`: an arbitrary eligible dependency of the chunk of `rep`, if any. */
  method FindImprovable(g: Graph, s: State, rep: Tx, ghost fees: Fees, ghost f: Forest) returns (found: bool, dep: DepIdx)
    requires Good(g, fees, f, s) && RepOf(f, s, rep, rep)
    ensures found ==> Eligible(g, fees, f, rep, dep)
    ensures !found ==> GoodChunk(g, fees, f, rep)
  {
    SameRep(fees, f.part, s.chunkRep, s.chunkInfo, rep, rep);
    ChunkWithin(f.part, rep);
    var chunk := s.chunkInfo[rep];
    found, dep := false, 0;
    var tiebreak := 0;
    var todo := chunk.transactions;
    while todo != {}
      invariant todo <= f.part[rep]
      invariant found ==> Eligible(g, fees, f, rep, dep)
      invariant !found ==> tiebreak == 0 && NoneEligible(g, fees, f, rep, f.part[rep] - todo)
      decreases todo
    {
      var tx :| tx in todo;
      found, dep, tiebreak := TryDependencies(g, s, rep, tx, found, dep, tiebreak, f.part[rep] - todo, fees, f);
      todo := todo - {tx};
      assert f.part[rep] - todo == f.part[rep] - (todo + {tx}) + {tx};
    }
    assert f.part[rep] - todo == f.part[rep];
    if !found {
      NothingEligible(g, fees, f, rep);
    }
  }

  lemma {:induction false} NothingEligible(g: Graph, fees: Fees, f: Forest, t: Tx)
    requires IsForest(g.deps, f) && t in f.part && NoneEligible(g, fees, f, t, f.part[t])
    ensures GoodChunk(g, fees, f, t)
  {
    forall d | d in ActiveIn(g.deps, f.act, f.part[t])
      ensures d in f.top && !Higher(Total(fees, f.top[d]), Total(fees, f.part[t]))
    {
      assert !Eligible(g, fees, f, t, d);
    }
  }

  /** The inner loop of that search: the dependencies to the children of `tx`. */
  method TryDependencies(g: Graph, s: State, rep: Tx, tx: Tx, found0: bool, dep0: DepIdx, tiebreak0: nat, ghost done: set<Tx>,
                         ghost fees: Fees, ghost f: Forest)
    returns (found: bool, dep: DepIdx, tiebreak: nat)
    requires Good(g, fees, f, s) && RepOf(f, s, rep, rep) && tx in f.part[rep] && tx in g.txs
    requires rep in s.chunkInfo && s.chunkInfo[rep] == InfoOf(fees, f.part[rep])
    requires found0 ==> Eligible(g, fees, f, rep, dep0)
    requires !found0 ==> tiebreak0 == 0 && NoneEligible(g, fees, f, rep, done)
    ensures found ==> Eligible(g, fees, f, rep, dep)
    ensures !found ==> tiebreak == 0 && NoneEligible(g, fees, f, rep, done + {tx})
  {
    found, dep, tiebreak := found0, dep0, tiebreak0;
    assert ChildDepsAt(g.deps, g.childDeps, tx);
    var ds := g.childDeps[tx];
    for k := 0 to |ds|
      invariant found ==> Eligible(g, fees, f, rep, dep)
      invariant !found ==> tiebreak == 0 && NoneEligible(g, fees, f, rep, done)
      invariant !found ==> forall j :: 0 <= j < k ==> !Eligible(g, fees, f, rep, ds[j])
    {
      var d := ds[k];
      assert TopAt(fees, f, s.active, s.topInfo, d);
      if s.active[d] && Excess(s.topInfo[d].feerate, s.chunkInfo[rep].feerate) > 0 {
        var draw: nat :| draw < UINT64;
        if draw >= tiebreak {
          found, dep, tiebreak := true, d, draw;
        }
      }
    }
    if !found {
      forall d | 0 <= d < |g.deps| && g.deps[d].parent in done + {tx} ensures !Eligible(g, fees, f, rep, d) {
        if g.deps[d].parent == tx {
          assert d in ds;
        }
      }
    }
  }

  /** Dropping a queue entry that is no representative loses nothing. */
  lemma {:induction false} DropStale(g: Graph, fees: Fees, f: Forest, s: State, entry: Tx, s1: State)
    requires Good(g, fees, f, s) && QueueOk(g, fees, f, s) && s.suboptimal != [] && entry == s.suboptimal[0]
    requires s.chunkRep[entry] != entry && s1 == s.(suboptimal := s.suboptimal[1..])
    ensures Good(g, fees, f, s1) && QueueOk(g, fees, f, s1)
  {
    forall t | t in g.txs ensures Handled(g, fees, f, s1, t) {
      assert Handled(g, fees, f, s, t);
      SameRep(fees, f.part, s.chunkRep, s.chunkInfo, t, t);
    }
  }

  /** Popping the entry of the chunk of `entry` leaves all other chunks handled. */
  lemma {:induction false} PopEntry(g: Graph, fees: Fees, f: Forest, s: State, entry: Tx, s1: State)
    requires Good(g, fees, f, s) && QueueOk(g, fees, f, s) && s.suboptimal != [] && entry == s.suboptimal[0]
    requires s.chunkRep[entry] == entry && s1 == s.(suboptimal := s.suboptimal[1..])
    ensures Good(g, fees, f, s1) && RepOf(f, s1, entry, entry)
    ensures forall t {:trigger Handled(g, fees, f, s1, t)} :: t in g.txs && t !in f.part[entry] ==> Handled(g, fees, f, s1, t)
  {
    forall t | t in g.txs && t !in f.part[entry] ensures Handled(g, fees, f, s1, t) {
      assert Handled(g, fees, f, s, t);
      SameRep(fees, f.part, s.chunkRep, s.chunkInfo, t, entry);
    }
  }

  /** A chunk found good may stay out of the queue. */
  lemma {:induction false} GoodIsHandled(g: Graph, fees: Fees, f: Forest, s: State, c: Tx)
    requires Good(g, fees, f, s) && c in g.txs && GoodChunk(g, fees, f, c)
    requires forall t {:trigger Handled(g, fees, f, s, t)} :: t in g.txs && t !in f.part[c] ==> Handled(g, fees, f, s, t)
    ensures QueueOk(g, fees, f, s)
  {
    forall t | t in g.txs ensures Handled(g, fees, f, s, t) {
      if t in f.part[c] {
        SameChunk(f.part, c, t);
        assert GoodChunk(g, fees, f, t);
      }
    }
  }

  lemma {:induction false} NeverWorseRefl(fees: Fees, part: Partition)
    ensures NeverWorse(fees, part, part)
  {
  }

  /** The queue side of both halves of an improvement. */
  lemma {:induction false} ImproveQueues(g: Graph, fees: Fees, f0: Forest, s0: State, d: DepIdx, s1: State,
                                         f2: Forest, m2: State, s2: State, ys: seq<Tx>, f3: Forest, m3: State, s3: State, zs: seq<Tx>)
    requires Good(g, fees, f0, s0) && d in f0.act && Good(g, fees, f2, s2) && Good(g, fees, f3, s3)
    requires s1.chunkRep == SplitRedirected(s0.chunkRep, g.deps[d].parent, g.deps[d].child, f0.top[d], f0.part[g.deps[d].parent] - f0.top[d])
    requires s1.suboptimal == s0.suboptimal && s1.cost > s0.cost
    requires RunRel(g, fees, false, Deactivated(g.deps, f0, d), s1, f2, m2, g.deps[d].parent, ys)
    requires g.deps[d].parent in m2.chunkRep && s2 == m2.(suboptimal := m2.suboptimal + [m2.chunkRep[g.deps[d].parent]])
    requires RunRel(g, fees, true, f2, s2, f3, m3, g.deps[d].child, zs)
    requires g.deps[d].child in m3.chunkRep && s3 == m3.(suboptimal := m3.suboptimal + [m3.chunkRep[g.deps[d].child]])
    ensures InRange(g.deps, f3.act) && s0.suboptimal <= s3.suboptimal && s3.cost > s0.cost
    ensures forall t {:trigger Requeued(g, f0, s0, f3, s3, f0.part[g.deps[d].parent], t)} :: t in g.txs ==>
              Requeued(g, f0, s0, f3, s3, f0.part[g.deps[d].parent], t)
  {
    var p, c := g.deps[d].parent, g.deps[d].child;
    DeactivateKeepsForest(g.deps, f0, d);
    RestMoved(g, Deactivated(g.deps, f0, d), s1, f2, m2, s2, p);
    RestMoved(g, f2, s2, f3, m3, s3, c);
    QueueTail(s0.suboptimal, s2.chunkRep[p], s3.chunkRep[c]);
    forall t | t in g.txs ensures Requeued(g, f0, s0, f3, s3, f0.part[p], t) {
      ImproveQueue(g, fees, f0, s0, d, s1, f2, s2, ys, f3, s3, zs, t);
    }
  }

  lemma {:induction false} QueueTail(q: seq<Tx>, a: Tx, b: Tx)
    ensures q <= q + [a] + [b] && a in q + [a] + [b] && b in q + [a] + [b]
  {
  }

  lemma {:induction false} RestMoved(g: Graph, f0: Forest, s0: State, f1: Forest, m: State, s1: State, x: Tx)
    requires InRange(g.deps, f0.act) && InRange(g.deps, f1.act) && Elsewhere(g, f0, s0, f1, m, x)
    requires s1.chunkRep == m.chunkRep
    ensures Elsewhere(g, f0, s0, f1, s1, x)
  {
  }

  /** The queue with `tx` added at position `j`, and what was there moved to the end. */
  function Shuffled(q: seq<Tx>, tx: Tx, j: nat): (r: seq<Tx>)
    requires j <= |q|
    ensures |r| == |q| + 1 && tx in r && forall t :: t in q ==> t in r
    ensures forall t :: t in r ==> t in q || t == tx
  {
    if j == |q| then q + [tx] else
      var r := q[j := tx] + [q[j]];
      assert r[j] == tx && r[|q|] == q[j];
      assert forall i :: 0 <= i < |q| && i != j ==> r[i] == q[i];
      r
  }

  lemma {:induction false} AllQueued(g: Graph, fees: Fees, f: Forest, s: State)
    requires Good(g, fees, f, s)
    requires forall t :: t in g.txs && s.chunkRep[t] == t ==> t in s.suboptimal
    ensures QueueOk(g, fees, f, s)
  {
    forall t | t in g.txs ensures Handled(g, fees, f, s, t) {
      SameRep(fees, f.part, s.chunkRep, s.chunkInfo, t, t);
    }
  }
}
