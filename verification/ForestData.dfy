/** The fields of a `SpanningForestState`, as values: when they represent a forest state, and how
    activation and deactivation of a dependency carry over to them. */
module ForestData {
  import opened FeeFracs
  import opened TxSets
  import opened Partitions
  import opened Improvement
  import opened Forests
  import opened ForestStates
  import opened Chunking

  type Reps = map<Tx, Tx>
  type Infos = map<Tx, SetInfo>

  ghost function InfoOf(fees: Fees, s: set<Tx>): SetInfo {
    SetInfo(s, Total(fees, s))
  }

  /** The transactions of `t`'s chunk share a representative in the chunk, which holds exactly the
      chunk's transactions and their summed feerate. */
  ghost predicate ChunkAt(fees: Fees, part: Partition, reps: Reps, infos: Infos, t: Tx)
    requires t in part && t in reps
  {
    && reps[t] in part[t] && reps[t] in infos && infos[reps[t]] == InfoOf(fees, part[t])
    && forall u :: u in part[t] ==> u in reps && reps[u] == reps[t]
  }

  ghost predicate Represents(fees: Fees, part: Partition, reps: Reps, infos: Infos) {
    && ValidPartition(part) && reps.Keys == part.Keys
    && forall t {:trigger ChunkAt(fees, part, reps, infos, t)} :: t in part ==> ChunkAt(fees, part, reps, infos, t)
  }

  ghost predicate TopAt(fees: Fees, f: Forest, active: seq<bool>, tops: seq<SetInfo>, d: DepIdx)
    requires d < |active| == |tops|
  {
    && (active[d] <==> d in f.act)
    && (d in f.act ==> d in f.top && tops[d] == InfoOf(fees, f.top[d]))
  }

  ghost predicate TopsMatch(fees: Fees, f: Forest, active: seq<bool>, tops: seq<SetInfo>) {
    && |active| == |tops|
    && forall d {:trigger TopAt(fees, f, active, tops, d)} :: 0 <= d < |active| ==> TopAt(fees, f, active, tops, d)
  }

  /** The fields represent the forest state `f`. */
  ghost predicate DataOk(fees: Fees, deps: seq<Dep>, f: Forest, reps: Reps, infos: Infos, active: seq<bool>, tops: seq<SetInfo>) {
    && IsForest(deps, f) && f.part.Keys == fees.Keys && |active| == |deps|
    && Represents(fees, f.part, reps, infos) && TopsMatch(fees, f, active, tops)
  }

  /** Two transactions have the same representative exactly if they are in the same chunk. */
  lemma {:induction false} SameRep(fees: Fees, part: Partition, reps: Reps, infos: Infos, t: Tx, u: Tx)
    requires Represents(fees, part, reps, infos) && t in part && u in part
    ensures reps[t] == reps[u] <==> part[t] == part[u]
    ensures reps[t] in part && part[reps[t]] == part[t] && reps[reps[t]] == reps[t]
    ensures reps[t] in infos && infos[reps[t]] == InfoOf(fees, part[t])
  {
    assert ChunkAt(fees, part, reps, infos, t) && ChunkAt(fees, part, reps, infos, u);
  }

  ghost function Redirected(reps: Reps, c: set<Tx>, r: Tx): Reps {
    map t | t in reps :: if t in c then r else reps[t]
  }

  ghost function MergeRedirected(reps: Reps, r: Tx, A: set<Tx>, B: set<Tx>): Reps {
    Redirected(Redirected(reps, A, r), B, r)
  }

  /** Sending the child chunk's transactions to the parent chunk's representative merges the two. */
  lemma {:induction false} MergeRepresents(fees: Fees, part: Partition, reps: Reps, infos: Infos, p: Tx, c: Tx, merged: SetInfo)
    requires Represents(fees, part, reps, infos) && p in part && c in part && part[p] != part[c]
    requires merged == InfoOf(fees, part[p] + part[c])
    ensures Represents(fees, Merge(part, part[p], part[c]), Redirected(reps, part[c], reps[p]), infos[reps[p] := merged])
  {
    var part' := Merge(part, part[p], part[c]);
    var reps', infos' := Redirected(reps, part[c], reps[p]), infos[reps[p] := merged];
    MergeValid(part, p, c);
    assert ChunkAt(fees, part, reps, infos, p);
    forall t | t in part' ensures ChunkAt(fees, part', reps', infos', t) {
      assert ChunkAt(fees, part, reps, infos, t);
    }
  }

  ghost function SplitInfos(fees: Fees, infos: Infos, p: Tx, c: Tx, T: set<Tx>, B: set<Tx>): Infos {
    infos[c := InfoOf(fees, B)][p := InfoOf(fees, T)]
  }

  ghost function SplitRedirected(reps: Reps, p: Tx, c: Tx, T: set<Tx>, B: set<Tx>): Reps {
    Redirected(Redirected(reps, T, p), B, c)
  }

  /** Giving the two parts of a chunk representatives of their own splits it. */
  lemma {:induction false} SplitRepresents(fees: Fees, part: Partition, reps: Reps, infos: Infos, p: Tx, c: Tx, T: set<Tx>, B: set<Tx>)
    requires Represents(fees, part, reps, infos) && p in part && T + B == part[p] && T !! B
    requires p in T && c in B
    ensures Represents(fees, Split(part, T, B), SplitRedirected(reps, p, c, T, B), SplitInfos(fees, infos, p, c, T, B))
  {
    SplitValid(part, p, T, B);
    forall t | t in part
      ensures ChunkAt(fees, Split(part, T, B), SplitRedirected(reps, p, c, T, B), SplitInfos(fees, infos, p, c, T, B), t)
    {
      assert ChunkAt(fees, part, reps, infos, t);
      SplitChunkAt(fees, part, reps, infos, p, c, T, B, t);
    }
  }

  lemma {:induction false} SplitChunkAt(fees: Fees, part: Partition, reps: Reps, infos: Infos, p: Tx, c: Tx, T: set<Tx>, B: set<Tx>, t: Tx)
    requires ValidPartition(part) && reps.Keys == part.Keys && t in part && ChunkAt(fees, part, reps, infos, t)
    requires p in part && T + B == part[p] && T !! B && p in T && c in B
    ensures ChunkAt(fees, Split(part, T, B), SplitRedirected(reps, p, c, T, B), SplitInfos(fees, infos, p, c, T, B), t)
  {
    if t !in part[p] {
      OtherChunk(part, p, t);
    }
  }

  lemma {:induction false} PlusInfo(fees: Fees, a: set<Tx>, b: set<Tx>)
    requires a !! b && a != {} && b != {}
    ensures InfoOf(fees, a).Plus(InfoOf(fees, b)) == InfoOf(fees, a + b)
  {
    TotalUnion(fees, a, b);
  }

  lemma {:induction false} MinusInfo(fees: Fees, a: set<Tx>, b: set<Tx>)
    requires b < a && b != {}
    ensures InfoOf(fees, a).Minus(InfoOf(fees, b)) == InfoOf(fees, a - b)
  {
    assert a == (a - b) + b;
    TotalUnion(fees, a - b, b);
  }

  /** Whether `UpdateChunk` touches the cached top of a dependency. */
  predicate Touched(active: bool, parent: Tx, top: SetInfo, chunk: set<Tx>, query: Tx) {
    active && parent in chunk && query in top.transactions
  }

  predicate MayChange(active: bool, parent: Tx, top: SetInfo, chunk: set<Tx>, query: Tx, change: SetInfo, subtract: bool) {
    Touched(active, parent, top, chunk, query) ==>
      if subtract then change.transactions <= top.transactions else top.transactions !! change.transactions
  }

  /** The cached top of a dependency after `UpdateChunk`. */
  function UpdatedTop(active: bool, parent: Tx, top: SetInfo, chunk: set<Tx>, query: Tx, change: SetInfo, subtract: bool): SetInfo
    requires MayChange(active, parent, top, chunk, query, change, subtract)
  {
    if Touched(active, parent, top, chunk, query)
    then if subtract then top.Minus(change) else top.Plus(change)
    else top
  }

  ghost predicate IsUpdated(active: bool, parent: Tx, top: SetInfo, chunk: set<Tx>, query: Tx, change: SetInfo, subtract: bool, after: SetInfo) {
    && MayChange(active, parent, top, chunk, query, change, subtract)
    && after == UpdatedTop(active, parent, top, chunk, query, change, subtract)
  }

  /** `after` is what `UpdateChunk` makes of the cached tops. */
  ghost predicate TopsUpdated(deps: seq<Dep>, active: seq<bool>, tops: seq<SetInfo>, chunk: set<Tx>, query: Tx,
                              change: SetInfo, subtract: bool, after: seq<SetInfo>)
  {
    && |deps| == |active| == |tops| == |after|
    && forall d :: 0 <= d < |deps| ==>
         IsUpdated(active[d], deps[d].parent, tops[d], chunk, query, change, subtract, after[d])
  }

  /** The two sweeps of `Activate` turn the cached tops into those of the joined tree. */
  lemma {:induction false} ActivateTops(fees: Fees, deps: seq<Dep>, f: Forest, active: seq<bool>, tops: seq<SetInfo>, d: DepIdx,
                                        mid: seq<SetInfo>, end: seq<SetInfo>)
    requires IsForest(deps, f) && TopsMatch(fees, f, active, tops) && d < |deps| == |active| && d !in f.act
    requires f.part[deps[d].parent] != f.part[deps[d].child]
    requires var A, B := f.part[deps[d].parent], f.part[deps[d].child];
             && TopsUpdated(deps, active, tops, A, deps[d].parent, InfoOf(fees, B), false, mid)
             && TopsUpdated(deps, active, mid, B, deps[d].child, InfoOf(fees, A), false, end)
    ensures TopsMatch(fees, Activated(deps, f, d), active[d := true], end[d := InfoOf(fees, f.part[deps[d].parent])])
  {
    var g := Activated(deps, f, d);
    var active', tops' := active[d := true], end[d := InfoOf(fees, f.part[deps[d].parent])];
    forall e | 0 <= e < |active'| ensures TopAt(fees, g, active', tops', e) {
      assert TopAt(fees, f, active, tops, e);
      if e in f.act {
        ActivateTopAt(fees, deps, f, d, e, mid[e], end[e]);
      }
    }
  }

  lemma {:induction false} ActivateTopAt(fees: Fees, deps: seq<Dep>, f: Forest, d: DepIdx, e: DepIdx, mid: SetInfo, end: SetInfo)
    requires IsForest(deps, f) && d < |deps| && d !in f.act && e in f.act
    requires f.part[deps[d].parent] != f.part[deps[d].child]
    requires var A, B := f.part[deps[d].parent], f.part[deps[d].child];
             && IsUpdated(true, deps[e].parent, InfoOf(fees, f.top[e]), A, deps[d].parent, InfoOf(fees, B), false, mid)
             && IsUpdated(true, deps[e].parent, mid, B, deps[d].child, InfoOf(fees, A), false, end)
    ensures end == InfoOf(fees, Activated(deps, f, d).top[e])
  {
    var A, B := f.part[deps[d].parent], f.part[deps[d].child];
    TreeEnds(deps, f, e);
    OtherChunk(f.part, deps[d].parent, deps[d].child);
    if deps[e].parent in A && deps[d].parent in f.top[e] {
      PlusInfo(fees, f.top[e], B);
    } else if deps[e].parent in B && deps[d].child in f.top[e] {
      PlusInfo(fees, f.top[e], A);
    }
  }

  /** What the sweeps of `Activate` need: a touched top does not overlap the opposite part. */
  lemma {:induction false} ActivateMayChange(fees: Fees, deps: seq<Dep>, f: Forest, d: DepIdx, e: DepIdx, a: Tx, b: Tx)
    requires IsForest(deps, f) && d < |deps| && e in f.act
    requires f.part[deps[d].parent] != f.part[deps[d].child]
    requires (a == deps[d].parent && b == deps[d].child) || (a == deps[d].child && b == deps[d].parent)
    ensures MayChange(true, deps[e].parent, InfoOf(fees, f.top[e]), f.part[a], a, InfoOf(fees, f.part[b]), false)
  {
    TreeEnds(deps, f, e);
    OtherChunk(f.part, a, b);
  }

  /** What the sweeps of `Deactivate` need: a touched top includes the opposite part. */
  lemma {:induction false} DeactivateMayChange(fees: Fees, deps: seq<Dep>, f: Forest, d: DepIdx, e: DepIdx, s: set<Tx>, a: Tx)
    requires IsForest(deps, f) && d in f.act && e in f.act && e != d
    requires IsSide(deps, f.top, f.part[deps[d].parent], d, s)
    requires a in s && (a == deps[d].parent || a == deps[d].child)
    ensures MayChange(true, deps[e].parent, InfoOf(fees, f.top[e]), s, a, InfoOf(fees, f.part[deps[d].parent] - s), true)
  {
    var C := f.part[deps[d].parent];
    if deps[e].parent in s {
      assert TreeAt(deps, f, deps[d].parent);
      TreeEnds(deps, f, d);
      OnOneSide(deps, ActiveIn(deps, f.act, C), f.top, C, d, s, e, a);
    }
  }

  /** The two sweeps of `Deactivate` turn the cached tops into those of the two trees. */
  lemma {:induction false} DeactivateTops(fees: Fees, deps: seq<Dep>, f: Forest, active: seq<bool>, tops: seq<SetInfo>, d: DepIdx,
                                          mid: seq<SetInfo>, end: seq<SetInfo>)
    requires IsForest(deps, f) && TopsMatch(fees, f, active, tops) && d < |deps| == |active| && d in f.act
    requires var T := f.top[d];
             var B := f.part[deps[d].parent] - T;
             && TopsUpdated(deps, active[d := false], tops, T, deps[d].parent, InfoOf(fees, B), true, mid)
             && TopsUpdated(deps, active[d := false], mid, B, deps[d].child, InfoOf(fees, T), true, end)
    ensures TopsMatch(fees, Deactivated(deps, f, d), active[d := false], end)
  {
    var g := Deactivated(deps, f, d);
    var active' := active[d := false];
    forall e | 0 <= e < |active'| ensures TopAt(fees, g, active', end, e) {
      assert TopAt(fees, f, active, tops, e);
      if e in f.act && e != d {
        DeactivateTopAt(fees, deps, f, d, e, mid[e], end[e]);
      }
    }
  }

  lemma {:induction false} DeactivateTopAt(fees: Fees, deps: seq<Dep>, f: Forest, d: DepIdx, e: DepIdx, mid: SetInfo, end: SetInfo)
    requires IsForest(deps, f) && d in f.act && e in f.act && e != d
    requires var T := f.top[d];
             var B := f.part[deps[d].parent] - T;
             && IsUpdated(true, deps[e].parent, InfoOf(fees, f.top[e]), T, deps[d].parent, InfoOf(fees, B), true, mid)
             && IsUpdated(true, deps[e].parent, mid, B, deps[d].child, InfoOf(fees, T), true, end)
    ensures end == InfoOf(fees, Deactivated(deps, f, d).top[e])
  {
    var T := f.top[d];
    var B := f.part[deps[d].parent] - T;
    TreeEnds(deps, f, d);
    TreeEnds(deps, f, e);
    if deps[e].parent in T && deps[d].parent in f.top[e] {
      assert deps[e].parent in f.top[e] - B && deps[d].child in B;
      MinusInfo(fees, f.top[e], B);
    } else if deps[e].parent in B && deps[d].child in f.top[e] {
      assert deps[e].parent in f.top[e] - T;
      MinusInfo(fees, f.top[e], T);
    }
  }
}
