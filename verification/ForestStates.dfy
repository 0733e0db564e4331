/** States of the spanning-forest algorithm: a partition into chunks, the active dependencies, and
    the top of each. Every state reached by activations and deactivations is a spanning forest, and
    a state without improvable dependency is optimal. */
module ForestStates {
  import opened FeeFracs
  import opened TxSets
  import opened Partitions
  import opened Improvement
  import opened Forests

  datatype Forest = Forest(part: Partition, act: set<DepIdx>, top: map<DepIdx, set<Tx>>)

  ghost function ActiveIn(deps: seq<Dep>, act: set<DepIdx>, c: set<Tx>): set<DepIdx>
    requires InRange(deps, act)
  {
    set d | d in act && deps[d].parent in c
  }

  ghost predicate EndsIn(deps: seq<Dep>, s: set<Tx>) {
    forall d :: 0 <= d < |deps| ==> deps[d].parent in s && deps[d].child in s
  }

  ghost predicate TreeAt(deps: seq<Dep>, f: Forest, t: Tx)
    requires InRange(deps, f.act) && t in f.part
  {
    IsTree(deps, ActiveIn(deps, f.act, f.part[t]), f.top, f.part[t])
  }

  ghost predicate ForestShape(deps: seq<Dep>, f: Forest) {
    && ValidPartition(f.part) && EndsIn(deps, f.part.Keys)
    && InRange(deps, f.act) && f.top.Keys == f.act
  }

  /** The chunks partition the transactions, and the active dependencies of each chunk are a spanning
      tree of it, with exactly the right top recorded for each. */
  ghost predicate IsForest(deps: seq<Dep>, f: Forest) {
    && ForestShape(deps, f)
    && forall t {:trigger TreeAt(deps, f, t)} :: t in f.part ==> TreeAt(deps, f, t)
  }

  /** The start: every transaction on its own, nothing active. */
  ghost function Singletons(txs: set<Tx>): Forest {
    Forest(map t | t in txs :: {t}, {}, map[])
  }

  lemma {:induction false} SingletonsForest(deps: seq<Dep>, txs: set<Tx>)
    requires EndsIn(deps, txs)
    ensures IsForest(deps, Singletons(txs))
  {
    var f := Singletons(txs);
    forall t | t in txs ensures TreeAt(deps, f, t) {
      assert ActiveIn(deps, f.act, f.part[t]) == {};
      assert forall x :: x < {t} ==> x == {};
    }
  }

  /** `Activate`: the dependency's two chunks become one. */
  ghost function Activated(deps: seq<Dep>, f: Forest, d: DepIdx): Forest
    requires IsForest(deps, f) && d < |deps|
  {
    var A, B := f.part[deps[d].parent], f.part[deps[d].child];
    Forest(Merge(f.part, A, B), f.act + {d}, JoinedTops(deps, f.top, A, B, d))
  }

  /** `Deactivate`: the dependency's chunk is split into its top and the rest. */
  ghost function Deactivated(deps: seq<Dep>, f: Forest, d: DepIdx): Forest
    requires IsForest(deps, f) && d in f.act
  {
    var T := f.top[d];
    var B := f.part[deps[d].parent] - T;
    Forest(Split(f.part, T, B), f.act - {d}, SplitTops(deps, f.top, T, B, d))
  }

  /** A tree only depends on the tops of its own edges. */
  lemma {:induction false} TreeFrame(deps: seq<Dep>, E: set<DepIdx>, top: map<DepIdx, set<Tx>>, top': map<DepIdx, set<Tx>>, C: set<Tx>)
    requires IsTree(deps, E, top, C)
    requires forall e :: e in E ==> e in top' && (e in top ==> top'[e] == top[e])
    ensures IsTree(deps, E, top', C)
  {
    forall e | e in E ensures IsBridge(deps, E, top', C, e) {
      assert IsBridge(deps, E, top, C, e);
    }
  }

  lemma {:induction false} TreeEnds(deps: seq<Dep>, f: Forest, d: DepIdx)
    requires IsForest(deps, f) && d in f.act
    ensures deps[d].parent in f.part && deps[d].child in f.part
    ensures f.part[deps[d].parent] == f.part[deps[d].child]
    ensures d in f.top && f.top[d] <= f.part[deps[d].parent]
    ensures deps[d].parent in f.top[d] && deps[d].child !in f.top[d]
  {
    var C := f.part[deps[d].parent];
    assert TreeAt(deps, f, deps[d].parent);
    assert IsBridge(deps, ActiveIn(deps, f.act, C), f.top, C, d);
  }

  /** Activating a dependency across two chunks keeps the forest invariant. */
  lemma {:induction false} ActivateKeepsForest(deps: seq<Dep>, f: Forest, d: DepIdx)
    requires IsForest(deps, f) && d < |deps|
    requires f.part[deps[d].parent] != f.part[deps[d].child]
    ensures d !in f.act
    ensures IsForest(deps, Activated(deps, f, d))
  {
    InactiveAcross(deps, f, d);
    ActivatedShape(deps, f, d);
    forall t | t in f.part ensures TreeAt(deps, Activated(deps, f, d), t) {
      if t in f.part[deps[d].parent] + f.part[deps[d].child] {
        ActivatedChunk(deps, f, d, t);
      } else {
        ActivatedElsewhere(deps, f, d, t);
      }
    }
  }

  lemma {:induction false} ActivatedShape(deps: seq<Dep>, f: Forest, d: DepIdx)
    requires IsForest(deps, f) && d < |deps|
    ensures ForestShape(deps, Activated(deps, f, d)) && Activated(deps, f, d).part.Keys == f.part.Keys
  {
    MergeValid(f.part, deps[d].parent, deps[d].child);
    assert Merge(f.part, f.part[deps[d].parent], f.part[deps[d].child]).Keys == f.part.Keys;
  }

  lemma {:induction false} InactiveAcross(deps: seq<Dep>, f: Forest, d: DepIdx)
    requires IsForest(deps, f) && d < |deps|
    requires f.part[deps[d].parent] != f.part[deps[d].child]
    ensures d !in f.act
  {
    if d in f.act {
      TreeEnds(deps, f, d);
    }
  }

  lemma {:induction false} ActivatedChunk(deps: seq<Dep>, f: Forest, d: DepIdx, t: Tx)
    requires IsForest(deps, f) && d < |deps| && d !in f.act
    requires f.part[deps[d].parent] != f.part[deps[d].child]
    requires t in f.part && t in f.part[deps[d].parent] + f.part[deps[d].child]
    ensures TreeAt(deps, Activated(deps, f, d), t)
  {
    var p, c := deps[d].parent, deps[d].child;
    var A, B := f.part[p], f.part[c];
    assert TreeAt(deps, f, p) && TreeAt(deps, f, c);
    var EA, EB := ActiveIn(deps, f.act, A), ActiveIn(deps, f.act, B);
    assert ActiveIn(deps, f.act + {d}, A + B) == EA + EB + {d};
    OtherChunk(f.part, p, c);
    JoinTrees(deps, EA, EB, f.top, A, B, d);
  }

  lemma {:induction false} ActivatedElsewhere(deps: seq<Dep>, f: Forest, d: DepIdx, t: Tx)
    requires IsForest(deps, f) && d < |deps| && d !in f.act
    requires t in f.part && t !in f.part[deps[d].parent] + f.part[deps[d].child]
    ensures TreeAt(deps, Activated(deps, f, d), t)
  {
    var C := f.part[t];
    OtherChunk(f.part, deps[d].parent, t);
    OtherChunk(f.part, deps[d].child, t);
    assert TreeAt(deps, f, t);
    assert ActiveIn(deps, f.act + {d}, C) == ActiveIn(deps, f.act, C);
    TreeFrame(deps, ActiveIn(deps, f.act, C), f.top, Activated(deps, f, d).top, C);
  }

  lemma {:induction false} OtherChunk(part: Partition, p: Tx, t: Tx)
    requires ValidPartition(part) && p in part && t in part && part[t] != part[p]
    ensures part[t] !! part[p]
  {
  }

  /** Deactivating an active dependency keeps the forest invariant. */
  lemma {:induction false} DeactivateKeepsForest(deps: seq<Dep>, f: Forest, d: DepIdx)
    requires IsForest(deps, f) && d in f.act
    ensures IsForest(deps, Deactivated(deps, f, d))
  {
    DeactivatedShape(deps, f, d);
    forall t | t in f.part ensures TreeAt(deps, Deactivated(deps, f, d), t) {
      if t in f.part[deps[d].parent] {
        DeactivatedChunk(deps, f, d, t);
      } else {
        DeactivatedElsewhere(deps, f, d, t);
      }
    }
  }

  lemma {:induction false} DeactivatedShape(deps: seq<Dep>, f: Forest, d: DepIdx)
    requires IsForest(deps, f) && d in f.act
    ensures ForestShape(deps, Deactivated(deps, f, d)) && Deactivated(deps, f, d).part.Keys == f.part.Keys
  {
    TreeEnds(deps, f, d);
    SplitValid(f.part, deps[d].parent, f.top[d], f.part[deps[d].parent] - f.top[d]);
  }

  lemma {:induction false} DeactivatedChunk(deps: seq<Dep>, f: Forest, d: DepIdx, t: Tx)
    requires IsForest(deps, f) && d in f.act && t in f.part[deps[d].parent]
    ensures TreeAt(deps, Deactivated(deps, f, d), t)
  {
    var C := f.part[deps[d].parent];
    TreeEnds(deps, f, d);
    var s := if t in f.top[d] then f.top[d] else C - f.top[d];
    var E := ActiveIn(deps, f.act, C);
    assert TreeAt(deps, f, deps[d].parent);
    assert ActiveIn(deps, f.act - {d}, s) == EdgesOn(deps, E, d, s);
    SplitTopsOn(deps, E, f.top, C, d, s);
    CutTree(deps, E, f.top, C, d, s, Deactivated(deps, f, d).top);
  }

  lemma {:induction false} DeactivatedElsewhere(deps: seq<Dep>, f: Forest, d: DepIdx, t: Tx)
    requires IsForest(deps, f) && d in f.act && t in f.part && t !in f.part[deps[d].parent]
    ensures TreeAt(deps, Deactivated(deps, f, d), t)
  {
    OtherChunk(f.part, deps[d].parent, t);
    TreeEnds(deps, f, d);
    assert TreeAt(deps, f, t);
    assert ActiveIn(deps, f.act - {d}, f.part[t]) == ActiveIn(deps, f.act, f.part[t]);
    TreeFrame(deps, ActiveIn(deps, f.act, f.part[t]), f.top, Deactivated(deps, f, d).top, f.part[t]);
  }

  lemma {:induction false} SplitValid(part: Partition, t: Tx, T: set<Tx>, B: set<Tx>)
    requires ValidPartition(part) && t in part && T + B == part[t] && T !! B
    ensures ValidPartition(Split(part, T, B))
  {
  }

  /** The chunk of `t`, its active dependencies and their tops are the same in both states. */
  ghost predicate SameAt(deps: seq<Dep>, f: Forest, h: Forest, t: Tx)
    requires InRange(deps, f.act) && InRange(deps, h.act)
  {
    && t in f.part && t in h.part && f.part[t] == h.part[t]
    && ActiveIn(deps, f.act, f.part[t]) == ActiveIn(deps, h.act, h.part[t])
    && forall d :: d in ActiveIn(deps, f.act, f.part[t]) ==> d in f.top && d in h.top && f.top[d] == h.top[d]
  }

  lemma {:induction false} ActivatedSame(deps: seq<Dep>, f: Forest, d: DepIdx, t: Tx)
    requires IsForest(deps, f) && d < |deps| && d !in f.act
    requires t in f.part && t !in f.part[deps[d].parent] + f.part[deps[d].child]
    ensures IsForest(deps, Activated(deps, f, d)) ==> SameAt(deps, f, Activated(deps, f, d), t)
  {
    OtherChunk(f.part, deps[d].parent, t);
    OtherChunk(f.part, deps[d].child, t);
  }

  lemma {:induction false} DeactivatedSame(deps: seq<Dep>, f: Forest, d: DepIdx, t: Tx)
    requires IsForest(deps, f) && d in f.act
    requires t in f.part && t !in f.part[deps[d].parent]
    ensures IsForest(deps, Deactivated(deps, f, d)) ==> SameAt(deps, f, Deactivated(deps, f, d), t)
  {
    TreeEnds(deps, f, d);
    OtherChunk(f.part, deps[d].parent, t);
  }

  lemma {:induction false} SameTrans(deps: seq<Dep>, f: Forest, g: Forest, h: Forest, t: Tx)
    requires InRange(deps, f.act) && InRange(deps, g.act) && InRange(deps, h.act)
    requires SameAt(deps, f, g, t) && SameAt(deps, g, h, t)
    ensures SameAt(deps, f, h, t)
  {
  }

  /** The recorded top is the component of the parent: nothing smaller is closed under the other
      active dependencies. */
  lemma {:induction false} TopIsComponent(deps: seq<Dep>, f: Forest, d: DepIdx, x: set<Tx>)
    requires IsForest(deps, f) && d in f.act
    requires deps[d].parent in x && x <= f.top[d]
    requires forall e :: e in f.act && e != d ==> !Crosses(deps[e], x)
    ensures x == f.top[d]
  {
    var g := Deactivated(deps, f, d);
    DeactivateKeepsForest(deps, f, d);
    var T := f.top[d];
    TreeEnds(deps, f, d);
    assert TreeAt(deps, g, deps[d].parent) && g.part[deps[d].parent] == T;
    Uncut(deps, ActiveIn(deps, g.act, T), T, x);
  }

  // ---------- Optimality ----------

  /** No active dependency has a top of higher feerate than its chunk. */
  ghost predicate NoImprovable(deps: seq<Dep>, fees: Fees, f: Forest)
    requires IsForest(deps, f)
  {
    forall d :: d in f.act ==> !Higher(Total(fees, f.top[d]), Total(fees, f.part[deps[d].parent]))
  }

  ghost predicate Closed(deps: seq<Dep>, s: set<Tx>) {
    forall d :: 0 <= d < |deps| && deps[d].child in s ==> deps[d].parent in s
  }

  ghost function ExcessWeights(fees: Fees, s: set<Tx>, r: FeeFrac): map<Tx, int> {
    map t | t in s :: Excess(FeeOf(fees, t), r)
  }

  lemma {:induction false} WeightIsExcess(fees: Fees, s: set<Tx>, x: set<Tx>, r: FeeFrac)
    requires x <= s
    ensures Weight(ExcessWeights(fees, s, r), x) == SetExcess(fees, x, r)
    decreases x
  {
    if x != {} {
      var t :| t in x;
      WeightIsExcess(fees, s, x - {t}, r);
      WeightPick(ExcessWeights(fees, s, r), x, t);
      ExcessPick(fees, x, t, r);
    }
  }

  /** In a chunk without improvable dependency, no closed part has higher feerate than the chunk. */
  lemma {:induction false} ClosedPartNotHigher(deps: seq<Dep>, fees: Fees, f: Forest, t: Tx, x: set<Tx>)
    requires IsForest(deps, f) && t in f.part && x <= f.part[t]
    requires forall d :: d in ActiveIn(deps, f.act, f.part[t]) ==>
               d in f.top && !Higher(Total(fees, f.top[d]), Total(fees, f.part[t]))
    requires forall d :: d in f.act && deps[d].child in x ==> deps[d].parent in x
    ensures SetExcess(fees, x, Total(fees, f.part[t])) <= 0
  {
    assert TreeAt(deps, f, t);
    var C := f.part[t];
    var E, r := ActiveIn(deps, f.act, C), Total(fees, C);
    var w := ExcessWeights(fees, C, r);
    WeightIsExcess(fees, C, C, r);
    ExcessOfTotal(fees, C, r);
    assert Weight(w, C) == 0;
    forall d | d in E ensures d in f.top && Weight(w, f.top[d]) <= 0 {
      assert IsBridge(deps, E, f.top, C, d);
      WeightIsExcess(fees, C, f.top[d], r);
      ExcessOfTotal(fees, f.top[d], r);
    }
    ClosedBound(deps, E, f.top, C, w, x);
    WeightIsExcess(fees, C, x, r);
  }

  /** A part that is not higher than the whole is worth no more than the whole, at any feerate. */
  lemma {:induction false} PartWorth(fees: Fees, C: set<Tx>, x: set<Tx>, r: FeeFrac)
    requires C != {} && x <= C && r.size > 0
    requires SetExcess(fees, x, Total(fees, C)) <= 0
    ensures SetExcess(fees, x, r) <= Worth(fees, C, r)
  {
    var y := C - x;
    assert C == x + y;
    ExcessUnion(fees, x, y, r);
    if x != {} && y != {} {
      var f, f1, f2 := Total(fees, C), Total(fees, x), Total(fees, y);
      ExcessOfTotal(fees, x, f);
      ExcessOfTotal(fees, x, r);
      ExcessOfTotal(fees, y, r);
      ExcessOfTotal(fees, C, r);
      TotalUnion(fees, x, y);
      SuffixHigher(f, f1, f2);
      ExcessFlip(f1, f);
      if AtLeast(f, r) {
        HigherTrans(f2, f, r);
      } else {
        LowerTrans(f, f1, r);
      }
    }
  }

  lemma {:induction false} RestOfFamily(cs: set<set<Tx>>, c: set<Tx>, s: set<Tx>)
    requires Disjoint(cs) && c in cs && s <= Flat(cs)
    ensures Disjoint(cs - {c}) && s - c <= Flat(cs - {c})
    ensures forall d :: d in cs - {c} ==> (s - c) * d == s * d
  {
  }

  lemma {:induction false} FamilyBound(fees: Fees, cs: set<set<Tx>>, s: set<Tx>, r: FeeFrac)
    requires Disjoint(cs) && s <= Flat(cs)
    requires forall c :: c in cs ==> SetExcess(fees, s * c, r) <= Worth(fees, c, r)
    ensures SetExcess(fees, s, r) <= Potential(fees, cs, r)
  {
    if cs == {} {
      assert s == {};
    } else {
      var c :| c in cs;
      assert s == (s - c) + s * c;
      ExcessUnion(fees, s - c, s * c, r);
      PotentialPick(fees, cs, c, r);
      RestOfFamily(cs, c, s);
      FamilyBound(fees, cs - {c}, s - c, r);
    }
  }

  lemma {:induction false} OptimalChunk(deps: seq<Dep>, fees: Fees, f: Forest, s: set<Tx>, t: Tx, r: FeeFrac)
    requires IsForest(deps, f) && NoImprovable(deps, fees, f)
    requires t in f.part && Closed(deps, s) && r.size > 0
    ensures SetExcess(fees, s * f.part[t], r) <= Worth(fees, f.part[t], r)
  {
    var c := f.part[t];
    assert forall d :: d in f.act && deps[d].parent in c ==> f.part[deps[d].parent] == c;
    forall d | d in f.act && deps[d].child in s * c ensures deps[d].parent in s * c {
      TreeEnds(deps, f, d);
    }
    ClosedPartNotHigher(deps, fees, f, t, s * c);
    PartWorth(fees, c, s * c, r);
  }

  /** The optimality theorem: in a state without improvable dependency, no set of transactions that
      is closed under dependencies lies above the state's feerate diagram. */
  lemma {:induction false} OptimalState(deps: seq<Dep>, fees: Fees, f: Forest, s: set<Tx>, r: FeeFrac)
    requires IsForest(deps, f) && NoImprovable(deps, fees, f)
    requires s <= f.part.Keys && Closed(deps, s) && r.size > 0
    ensures SetExcess(fees, s, r) <= Potential(fees, Chunks(f.part), r)
  {
    ChunksDisjoint(f.part);
    forall c | c in Chunks(f.part) ensures SetExcess(fees, s * c, r) <= Worth(fees, c, r) {
      var t :| t in f.part && f.part[t] == c;
      OptimalChunk(deps, fees, f, s, t, r);
    }
    FamilyBound(fees, Chunks(f.part), s, r);
  }
}
