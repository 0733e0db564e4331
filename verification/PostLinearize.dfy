/** `PostLinearize`: two passes over a linearization, in place. */
module PostLinearization {
  import opened FeeFracs
  import opened TxSets
  import opened Diagrams
  import opened Chunking
  import opened Ancestry
  import opened DepGraphs
  import opened Orders
  import opened Connections
  import opened PassSteps
  import opened PassTrees
  import opened PassMoves
  import opened PassMirror
  import opened PassGroups
  import opened PassLinks
  import opened PassRuns

  ghost function DescendantMap(entries: seq<Entry>, used: set<Tx>): Anc
    requires forall i :: i in used ==> 0 <= i < |entries|
  {
    map i | i in used :: entries[i].descendants
  }

  lemma {:induction false} EntriesInverses(entries: seq<Entry>, used: set<Tx>)
    requires forall i :: i in used ==> 0 <= i < |entries|
    requires Inverse(entries, used) && IsClosure(AncestorMap(entries, used))
    ensures Inverses(AncestorMap(entries, used), DescendantMap(entries, used))
  {
    var anc, des := AncestorMap(entries, used), DescendantMap(entries, used);
    forall t, u | t in anc && u in anc ensures u in anc[t] <==> t in des[u] {
      assert Mirrored(entries, t, u);
    }
  }

  // ---------- Writing the groups back ----------

  lemma {:induction false} FlattenAt(ls: seq<seq<Tx>>, m: nat, j: nat)
    requires 0 < m <= |ls| && j < |ls[m - 1]|
    ensures |Flatten(ls[..m])| == |Flatten(ls[..m - 1])| + |ls[m - 1]| <= |Flatten(ls)|
    ensures Flatten(ls)[|Flatten(ls[..m - 1])| + j] == ls[m - 1][j]
  {
    var a, p, z := ls[..m - 1], ls[m - 1], ls[m..];
    assert ls[..m] == a + [p] && ls == ls[..m] + z;
    FlattenConcat(ls[..m], z);
    FlattenConcat(a, [p]);
    FlattenSingle(p);
  }

  /** Where the `d`-th transaction goes: from the front in backward passes, from the back in forward ones. */
  function Slot(n: nat, rev: bool, d: nat): nat
    requires d < n
  {
    if rev then d else n - 1 - d
  }

  /** The `d`-th transaction written is the right one of `l`. */
  ghost predicate RightAt(lin: array<Tx>, l: seq<Tx>, rev: bool, d: nat)
    requires d < |l| == lin.Length
    reads lin
  {
    lin[Slot(|l|, rev, d)] == l[|l| - 1 - d]
  }

  ghost predicate RightUpTo(lin: array<Tx>, l: seq<Tx>, rev: bool, done: nat)
    requires done <= |l| == lin.Length
    reads lin
  {
    forall d {:trigger RightAt(lin, l, rev, d)} :: 0 <= d < done ==> RightAt(lin, l, rev, d)
  }

  /** The piece `p` of `l` ends `done` places before the end. */
  ghost predicate PieceAt(l: seq<Tx>, done: nat, p: seq<Tx>) {
    done + |p| <= |l| && forall j :: 0 <= j < |p| ==> p[j] == l[|l| - done - |p| + j]
  }

  /** Write out the group with tail `curGroup`, from its last transaction to its first. */
  method WriteGroup(es: seq<TxEntry>, lin: array<Tx>, rev: bool, curGroup: nat, done: nat, ghost p: seq<Tx>, ghost l: seq<Tx>)
    returns (done2: nat)
    requires Chained(es, p) && curGroup == Tail(p) && |l| == lin.Length && PieceAt(l, done, p) && RightUpTo(lin, l, rev, done)
    modifies lin
    ensures done2 == done + |p| && RightUpTo(lin, l, rev, done2)
  {
    done2 := done;
    var curTx: nat := curGroup;
    ghost var j: nat := |p|;
    while curTx != NO_PREV_TX
      invariant j <= |p| && done2 == done + (|p| - j) && curTx == if j == 0 then NO_PREV_TX else p[j - 1] + 1
      invariant RightUpTo(lin, l, rev, done2)
      decreases j
    {
      assert TxLinked(es, p, j - 1);
      assert p[j - 1] == l[|l| - 1 - done2];
      WriteOne(lin, rev, done2, curTx - 1, l);
      done2 := done2 + 1;
      curTx := es[curTx].prevTx;
      j := j - 1;
    }
  }

  method WriteOne(lin: array<Tx>, rev: bool, done: nat, t: Tx, ghost l: seq<Tx>)
    requires done < |l| == lin.Length && t == l[|l| - 1 - done] && RightUpTo(lin, l, rev, done)
    modifies lin
    ensures RightUpTo(lin, l, rev, done + 1)
  {
    lin[Slot(lin.Length, rev, done)] := t;
    forall d | 0 <= d < done + 1 ensures RightAt(lin, l, rev, d) {
      assert d < done ==> old(RightAt(lin, l, rev, d));
    }
  }

  /** The groups are written out in their order, reversed in a backward pass. */
  method WriteBack(es: seq<TxEntry>, lin: array<Tx>, rev: bool, ghost dm: Anc, ghost fees: Fees, ghost ls: seq<seq<Tx>>)
    requires Stored(dm, fees, es, ls) && |Flatten(ls)| == lin.Length
    modifies lin
    ensures lin[..] == if rev then Reversed(Flatten(ls)) else Flatten(ls)
  {
    ghost var l := Flatten(ls);
    var curGroup: nat, done: nat := es[SENTINEL].prevGroup, 0;
    ghost var m: nat := |ls|;
    assert ls[..m] == ls;
    GroupsFull(dm, fees, es, ls);
    while curGroup != SENTINEL
      invariant m <= |ls| && (m > 0 ==> ls[m - 1] != []) && curGroup == (if m == 0 then SENTINEL else Tail(ls[m - 1]))
      invariant |Flatten(ls[..m])| <= |l| && done == |l| - |Flatten(ls[..m])| && RightUpTo(lin, l, rev, done)
      decreases m
    {
      assert GroupStored(dm, fees, es, ls[m - 1]);
      assert LinkAt(es, Tails(ls), m - 1);
      GroupPiece(ls, m);
      done := WriteGroup(es, lin, rev, curGroup, done, ls[m - 1], l);
      curGroup := es[curGroup].prevGroup;
      m := m - 1;
    }
    assert ls[..0] == [];
    WrittenAll(lin, l, rev);
  }

  lemma {:induction false} GroupsFull(dm: Anc, fees: Fees, es: seq<TxEntry>, ls: seq<seq<Tx>>)
    requires AllStored(dm, fees, es, ls)
    ensures forall i :: 0 <= i < |ls| ==> ls[i] != []
  {
    forall i | 0 <= i < |ls| ensures ls[i] != [] {
      assert GroupStored(dm, fees, es, ls[i]);
    }
  }

  lemma {:induction false} GroupPiece(ls: seq<seq<Tx>>, m: nat)
    requires 0 < m <= |ls| && ls[m - 1] != []
    ensures |Flatten(ls[..m])| == |Flatten(ls[..m - 1])| + |ls[m - 1]| <= |Flatten(ls)|
    ensures PieceAt(Flatten(ls), |Flatten(ls)| - |Flatten(ls[..m])|, ls[m - 1])
  {
    FlattenAt(ls, m, 0);
    var p, n := ls[m - 1], |Flatten(ls[..m - 1])|;
    forall j | 0 <= j < |p| ensures p[j] == Flatten(ls)[n + j] {
      FlattenAt(ls, m, j);
    }
  }

  lemma {:induction false} WrittenAll(lin: array<Tx>, l: seq<Tx>, rev: bool)
    requires |l| == lin.Length && RightUpTo(lin, l, rev, |l|)
    ensures lin[..] == if rev then Reversed(l) else l
  {
    var n := |l|;
    forall i | 0 <= i < n ensures lin[i] == if rev then Reversed(l)[i] else l[i] {
      assert RightAt(lin, l, rev, if rev then i else n - 1 - i);
    }
  }

  // ---------- One pass ----------

  ghost function PassDeps(depgraph: DepGraph, rev: bool): Anc
    reads depgraph
    requires depgraph.Shape()
  {
    if rev then DescendantMap(depgraph.entries, depgraph.used) else depgraph.Ancestors()
  }

  ghost function PassFees(depgraph: DepGraph, rev: bool): Fees
    reads depgraph
    requires depgraph.Shape()
  {
    if rev then Negated(depgraph.FeeMap()) else depgraph.FeeMap()
  }

  ghost function PassOrder(lin: seq<Tx>, rev: bool): seq<Tx> {
    if rev then Reversed(lin) else lin
  }

  /** The entry of a transaction says what the pass has to know of it. */
  ghost predicate EntryOk(entries: seq<Entry>, rev: bool, dm: Anc, fees: Fees, i: Tx) {
    && i < |entries| && i in dm && dm[i] == (if rev then entries[i].descendants else entries[i].ancestors)
    && FeeOf(fees, i) == if rev then entries[i].feerate.Negated() else entries[i].feerate
  }

  ghost predicate EntriesOk(entries: seq<Entry>, rev: bool, dm: Anc, fees: Fees) {
    forall i {:trigger EntryOk(entries, rev, dm, fees, i)} :: i in dm ==> EntryOk(entries, rev, dm, fees, i)
  }

  lemma {:induction false} PassEntries(depgraph: DepGraph, rev: bool)
    requires depgraph.Valid()
    ensures EntriesOk(depgraph.entries, rev, PassDeps(depgraph, rev), PassFees(depgraph, rev))
  {
  }

  /** Group the transactions of the linearization, from the back or from the front. */
  method RunPass(entries: seq<Entry>, lin: array<Tx>, rev: bool, es0: seq<TxEntry>, ghost dm: Anc, ghost fees: Fees)
    returns (es: seq<TxEntry>, ghost ls: seq<seq<Tx>>)
    requires EntriesOk(entries, rev, dm, fees) && IsClosure(dm) && IsLinearization(dm, PassOrder(lin[..], rev))
    requires |es0| == |entries| + 1 && es0[SENTINEL].feerate.fee == 0 && es0[SENTINEL].feerate.size == 0
    ensures |es| == |es0| && Stored(dm, fees, es, ls) && Settled(dm, fees, PassOrder(lin[..], rev), ls)
  {
    ghost var src := PassOrder(lin[..], rev);
    es, ls := es0[SENTINEL := es0[SENTINEL].(prevGroup := SENTINEL)], [];
    NothingPlaced(dm, fees, src, es);
    for k := 0 to lin.Length
      invariant |es| == |es0| && Stored(dm, fees, es, ls) && Settled(dm, fees, src[..k], ls)
    {
      var idx := lin[if rev then lin.Length - 1 - k else k];
      NextInOrder(entries, dm, fees, lin[..], rev, k);
      var deps := if rev then entries[idx].descendants else entries[idx].ancestors;
      var feerate := if rev then entries[idx].feerate.Negated() else entries[idx].feerate;
      es, ls := PlaceTx(es, idx, deps, feerate, dm, fees, src, k, ls);
    }
    assert src[..lin.Length] == src;
  }

  lemma {:induction false} NextInOrder(entries: seq<Entry>, dm: Anc, fees: Fees, lin: seq<Tx>, rev: bool, k: nat)
    requires k < |lin| && AncestorsFirst(dm, PassOrder(lin, rev)) && EntriesOk(entries, rev, dm, fees)
    ensures var idx := lin[if rev then |lin| - 1 - k else k]; PassOrder(lin, rev)[k] == idx && EntryOk(entries, rev, dm, fees, idx)
  {
    assert HasBefore(dm, PassOrder(lin, rev), k);
  }

  lemma {:induction false} NothingPlaced(dm: Anc, fees: Fees, src: seq<Tx>, es: seq<TxEntry>)
    requires |es| > 0 && es[SENTINEL].prevGroup == SENTINEL && es[SENTINEL].feerate.fee == 0 && es[SENTINEL].feerate.size == 0
    ensures Stored(dm, fees, es, []) && Settled(dm, fees, src[..0], [])
  {
    var none: seq<Tx> := [];
    assert src[..0] == none && Flatten([]) == none;
    forall r: FeeFrac | r.size > 0 ensures NotBelowAt(fees, none, none, r) {}
  }

  // ---------- Both passes ----------

  /** What a pass leaves: another linearization, nowhere below the one before, optimal if the graph has
      the tree shape that suits the pass. */
  ghost predicate Improved(anc: Anc, fees: Fees, shaped: bool, before: seq<Tx>, after: seq<Tx>) {
    && IsLinearization(anc, after) && NowhereBelow(fees, after, before)
    && (shaped ==> IsOptimal(anc, fees, after))
  }

  lemma {:induction false} SettledImproved(dm: Anc, fees: Fees, src: seq<Tx>, ls: seq<seq<Tx>>)
    requires Settled(dm, fees, src, ls) && IsLinearization(dm, src)
    ensures Improved(dm, fees, Chains(dm), src, Flatten(ls))
  {
    if Chains(dm) {
      TreeOptimal(dm, fees, ls);
    }
  }

  lemma {:induction false} MirrorImproved(anc: Anc, des: Anc, fees: Fees, before: seq<Tx>, l: seq<Tx>)
    requires Inverses(anc, des) && anc.Keys == fees.Keys && IsLinearization(anc, before)
    requires Improved(des, Negated(fees), Chains(des), Reversed(before), l)
    ensures Improved(anc, fees, Chains(des), before, Reversed(l))
  {
    InversesFlip(anc, des);
    ReversedTwice(l);
    ReversedSame(l);
    MirrorOrder(des, anc, l);
    MirrorNowhereBelow(fees, Reversed(l), before);
    if Chains(des) {
      MirrorOptimal(anc, des, fees, Reversed(l));
    }
  }

  lemma {:induction false} OptimalStays(anc: Anc, fees: Fees, a: seq<Tx>, b: seq<Tx>)
    requires IsOptimal(anc, fees, a) && NowhereBelow(fees, b, a)
    ensures IsOptimal(anc, fees, b)
  {
    forall s | AncestorClosed(anc, s) ensures NotAbove(fees, s, b) {
      assert NotAbove(fees, s, a);
      forall r: FeeFrac | r.size > 0 ensures SetExcess(fees, s, r) <= Best(fees, b, r) {
        assert NotBelowAt(fees, b, a, r);
      }
    }
  }

  lemma {:induction false} PassImproved(anc: Anc, des: Anc, fees: Fees, rev: bool, before: seq<Tx>, ls: seq<seq<Tx>>, after: seq<Tx>)
    requires Inverses(anc, des) && anc.Keys == fees.Keys && IsLinearization(anc, before)
    requires Settled(if rev then des else anc, if rev then Negated(fees) else fees, PassOrder(before, rev), ls)
    requires after == PassOrder(Flatten(ls), rev)
    ensures Improved(anc, fees, Chains(if rev then des else anc), before, after)
  {
    if rev {
      MirrorOrder(anc, des, before);
      SettledImproved(des, Negated(fees), Reversed(before), ls);
      MirrorImproved(anc, des, fees, before, Flatten(ls));
    } else {
      SettledImproved(anc, fees, before, ls);
    }
  }

  lemma {:induction false} PassReady(depgraph: DepGraph, rev: bool, lin: seq<Tx>)
    requires depgraph.Valid() && IsLinearization(depgraph.Ancestors(), lin)
    ensures Inverses(depgraph.Ancestors(), DescendantMap(depgraph.entries, depgraph.used))
    ensures IsClosure(PassDeps(depgraph, rev)) && IsLinearization(PassDeps(depgraph, rev), PassOrder(lin, rev))
  {
    var anc, des := depgraph.Ancestors(), DescendantMap(depgraph.entries, depgraph.used);
    EntriesInverses(depgraph.entries, depgraph.used);
    InverseClosure(anc, des);
    if rev {
      MirrorOrder(anc, des, lin);
    }
  }

  lemma {:induction false} SameLength(l: seq<Tx>, m: seq<Tx>)
    requires Distinct(l) && Distinct(m) && Elems(l) == Elems(m)
    ensures |l| == |m|
  {
    DistinctCount(l);
    DistinctCount(m);
  }

  lemma {:induction false} DistinctCount(l: seq<Tx>)
    requires Distinct(l)
    ensures |Elems(l)| == |l|
    decreases |l|
  {
    if l == [] {
      assert Elems(l) == {};
    } else {
      var m := l[..|l| - 1];
      DistinctCount(m);
      assert l == m + [l[|l| - 1]];
      ElemsAppend(m, l[|l| - 1]);
      assert l[|l| - 1] !in Elems(m);
    }
  }

  // ---------- Moved leaves ----------

  /** The last transaction moved to position `p`. */
  ghost function MovedEarlier(lin: seq<Tx>, p: nat): seq<Tx>
    requires p < |lin|
  {
    lin[..p] + [lin[|lin| - 1]] + lin[p..|lin| - 1]
  }

  /** The result is at least as good as any linearization from which the given one arose by moving a
      transaction to the end. */
  ghost predicate BeatsMovedLeaf(anc: Anc, fees: Fees, before: seq<Tx>, after: seq<Tx>) {
    forall p {:trigger MovedEarlier(before, p)} ::
      0 <= p < |before| && IsLinearization(anc, MovedEarlier(before, p)) ==> NowhereBelow(fees, after, MovedEarlier(before, p))
  }

  lemma {:induction false} MirrorMove(lin: seq<Tx>, p: nat)
    requires p < |lin|
    ensures Reversed(MovedEarlier(lin, p)) == MovedLater(Reversed(lin), |lin| - p)
  {
    var a, b := Reversed(MovedEarlier(lin, p)), MovedLater(Reversed(lin), |lin| - p);
    forall i | 0 <= i < |lin| ensures a[i] == b[i] {}
  }

  /** A transaction that may stand before and after others is unrelated to them. */
  lemma {:induction false} MovedUnrelated(anc: Anc, des: Anc, lin: seq<Tx>, p: nat, q: nat)
    requires Inverses(anc, des) && IsLinearization(anc, lin) && p <= q < |lin| - 1 && IsLinearization(anc, MovedEarlier(lin, p))
    ensures Strangers(des, lin[|lin| - 1], lin[q])
  {
    var t, x, m := lin[|lin| - 1], lin[q], MovedEarlier(lin, p);
    assert HasBefore(anc, lin, q);
    assert t !in lin[..q + 1];
    assert m[p] == t && m[q + 1] == x;
    assert HasBefore(anc, m, p);
    assert x !in m[..p + 1];
    assert t in Elems(lin) && x in Elems(lin);
  }

  lemma {:induction false} MirrorMoved(anc: Anc, des: Anc, fees: Fees, before: seq<Tx>, ls: seq<seq<Tx>>)
    requires Inverses(anc, des) && anc.Keys == fees.Keys && IsLinearization(anc, before)
    requires MovedOk(des, Negated(fees), Reversed(before), ls) && IsPermutation(Reversed(Flatten(ls)), fees.Keys)
    ensures BeatsMovedLeaf(anc, fees, before, Reversed(Flatten(ls)))
  {
    forall p | 0 <= p < |before| && IsLinearization(anc, MovedEarlier(before, p))
      ensures NowhereBelow(fees, Reversed(Flatten(ls)), MovedEarlier(before, p))
    {
      MirrorFree(anc, des, before, p);
      MirrorMove(before, p);
      ReversedTwice(Flatten(ls));
      assert NowhereBelow(Negated(fees), Flatten(ls), MovedLater(Reversed(before), |before| - p));
      MirrorNowhereBelow(fees, Reversed(Flatten(ls)), MovedEarlier(before, p));
    }
  }

  lemma {:induction false} MirrorFree(anc: Anc, des: Anc, before: seq<Tx>, p: nat)
    requires Inverses(anc, des) && IsLinearization(anc, before) && p < |before| && IsLinearization(anc, MovedEarlier(before, p))
    ensures FreeUpTo(des, Reversed(before), |before| - p)
  {
    var src := Reversed(before);
    forall i | 0 < i < |before| - p && i < |src| ensures Strangers(des, src[0], src[i]) {
      MirrorFreeAt(anc, des, before, p, i);
    }
  }

  lemma {:induction false} MirrorFreeAt(anc: Anc, des: Anc, before: seq<Tx>, p: nat, i: nat)
    requires Inverses(anc, des) && IsLinearization(anc, before) && p < |before| && IsLinearization(anc, MovedEarlier(before, p))
    requires 0 < i < |before| - p
    ensures Strangers(des, Reversed(before)[0], Reversed(before)[i])
  {
    var q := |before| - 1 - i;
    assert Reversed(before)[0] == before[|before| - 1] && Reversed(before)[i] == before[q];
    MovedUnrelated(anc, des, before, p, q);
  }

  lemma {:induction false} BeatsMovedLeafStays(anc: Anc, fees: Fees, before: seq<Tx>, a: seq<Tx>, b: seq<Tx>)
    requires BeatsMovedLeaf(anc, fees, before, a) && NowhereBelow(fees, b, a)
    ensures BeatsMovedLeaf(anc, fees, before, b)
  {
    forall p | 0 <= p < |before| && IsLinearization(anc, MovedEarlier(before, p)) ensures NowhereBelow(fees, b, MovedEarlier(before, p)) {
      NowhereBelowTrans(fees, b, a, MovedEarlier(before, p));
    }
  }

  /** With a higher fee for some transactions, no point of the diagram is lower. */
  lemma {:induction false} RaisedFees(fees: Fees, raised: Fees, l: seq<Tx>, r: FeeFrac)
    requires r.size > 0 && forall t :: t in l ==> t in fees && t in raised && raised[t].size == fees[t].size && raised[t].fee >= fees[t].fee
    ensures SeqExcess(raised, l, r) >= SeqExcess(fees, l, r) && Best(raised, l, r) >= Best(fees, l, r)
    decreases |l|
  {
    if l != [] {
      RaisedFees(fees, raised, l[..|l| - 1], r);
      RaisedExcess(FeeOf(fees, l[|l| - 1]), FeeOf(raised, l[|l| - 1]), r);
    }
  }

  /** A transaction moved to the end. */
  ghost function MovedToEnd(lin: seq<Tx>, p: nat): seq<Tx>
    requires p < |lin|
  {
    lin[..p] + lin[p + 1..] + [lin[p]]
  }

  lemma {:induction false} MovedBack(lin: seq<Tx>, p: nat)
    requires p < |lin|
    ensures MovedEarlier(MovedToEnd(lin, p), p) == lin
  {
    var m := MovedToEnd(lin, p);
    assert m[..p] == lin[..p] && m[p..|m| - 1] == lin[p + 1..];
  }

  /** Replacing transactions by ones of the same size and at least the same fee: the result for the order with the replaced
      transaction at the end is, with the new fees, nowhere below the earlier order with the old ones. */
  lemma {:induction false} ReplacedNowhereBelow(anc: Anc, fees: Fees, raised: Fees, lin: seq<Tx>, p: nat, after: seq<Tx>, r: FeeFrac)
    requires p < |lin| && IsLinearization(anc, lin) && BeatsMovedLeaf(anc, raised, MovedToEnd(lin, p), after)
    requires forall t :: t in lin ==> t in fees && t in raised && raised[t].size == fees[t].size && raised[t].fee >= fees[t].fee
    requires r.size > 0
    ensures Best(raised, after, r) >= Best(fees, lin, r)
  {
    MovedBack(lin, p);
    assert NowhereBelow(raised, after, lin);
    assert NotBelowAt(raised, after, lin, r);
    RaisedFees(fees, raised, lin, r);
  }

  lemma {:induction false} RaisedExcess(f: FeeFrac, g: FeeFrac, r: FeeFrac)
    requires r.size > 0 && g.size == f.size && g.fee >= f.fee
    ensures Excess(g, r) >= Excess(f, r)
  {
    assert g.fee * r.size == f.fee * r.size + (g.fee - f.fee) * r.size;
  }

  /** One pass, in place. */
  method OnePass(depgraph: DepGraph, lin: array<Tx>, rev: bool, es0: seq<TxEntry>) returns (es: seq<TxEntry>, ghost ls: seq<seq<Tx>>)
    requires depgraph.Valid() && |es0| == |depgraph.entries| + 1 && es0[SENTINEL].feerate.fee == 0 && es0[SENTINEL].feerate.size == 0
    requires IsLinearization(depgraph.Ancestors(), lin[..])
    modifies lin
    ensures |es| == |es0| && es[SENTINEL].feerate.fee == 0 && es[SENTINEL].feerate.size == 0
    ensures Improved(depgraph.Ancestors(), depgraph.FeeMap(), Chains(PassDeps(depgraph, rev)), old(lin[..]), lin[..])
    ensures !rev ==> IsChunking(depgraph.FeeMap(), lin[..], ls) && AllConnected(depgraph.Ancestors(), ls)
    ensures rev ==> BeatsMovedLeaf(depgraph.Ancestors(), depgraph.FeeMap(), old(lin[..]), lin[..])
  {
    ghost var anc, des, fees, before := depgraph.Ancestors(), DescendantMap(depgraph.entries, depgraph.used), depgraph.FeeMap(), lin[..];
    PassReady(depgraph, rev, before);
    PassEntries(depgraph, rev);
    es, ls := RunPass(depgraph.entries, lin, rev, es0, PassDeps(depgraph, rev), PassFees(depgraph, rev));
    ReversedSame(before);
    SameLength(Flatten(ls), PassOrder(before, rev));
    WriteBack(es, lin, rev, PassDeps(depgraph, rev), PassFees(depgraph, rev), ls);
    PassImproved(anc, des, fees, rev, before, ls, lin[..]);
    if rev {
      MirrorMoved(anc, des, fees, before, ls);
    }
  }

  lemma {:induction false} ImprovedTwice(anc: Anc, fees: Fees, first: bool, second: bool, a: seq<Tx>, b: seq<Tx>, c: seq<Tx>)
    requires Improved(anc, fees, first, a, b) && Improved(anc, fees, second, b, c)
    ensures Improved(anc, fees, first || second, a, c)
  {
    NowhereBelowTrans(fees, c, b, a);
    if first {
      OptimalStays(anc, fees, b, c);
    }
  }

  /** Improve a linearization in place: its chunks become connected; it gets nowhere worse, also than with its last
      transaction where it could have stood before; and it gets optimal if no transaction has more than one child, or
      none more than one parent. */
  method PostLinearize(depgraph: DepGraph, lin: array<Tx>) returns (ghost chunks: seq<seq<Tx>>)
    requires depgraph.Valid() && IsLinearization(depgraph.Ancestors(), lin[..])
    modifies lin
    ensures IsLinearization(depgraph.Ancestors(), lin[..])
    ensures NowhereBelow(depgraph.FeeMap(), lin[..], old(lin[..]))
    ensures IsChunking(depgraph.FeeMap(), lin[..], chunks) && AllConnected(depgraph.Ancestors(), chunks)
    ensures Chains(depgraph.Ancestors()) || Chains(DescendantMap(depgraph.entries, depgraph.used)) ==>
              IsOptimal(depgraph.Ancestors(), depgraph.FeeMap(), lin[..])
    ensures BeatsMovedLeaf(depgraph.Ancestors(), depgraph.FeeMap(), old(lin[..]), lin[..])
  {
    var empty := FeeFrac(0, 0);
    var es := seq(|depgraph.entries| + 1, i => TxEntry(NO_PREV_TX, SENTINEL, SENTINEL, {}, {}, empty));
    ghost var given := lin[..];
    es, chunks := OnePass(depgraph, lin, true, es);
    ghost var between := lin[..];
    es, chunks := OnePass(depgraph, lin, false, es);
    ImprovedTwice(depgraph.Ancestors(), depgraph.FeeMap(), Chains(PassDeps(depgraph, true)), Chains(PassDeps(depgraph, false)),
                  given, between, lin[..]);
    BeatsMovedLeafStays(depgraph.Ancestors(), depgraph.FeeMap(), given, between, lin[..]);
  }
}
