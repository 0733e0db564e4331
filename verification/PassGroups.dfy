/** What every step of a pass of `PostLinearize` keeps. */
module PassGroups {
  import opened FeeFracs
  import opened TxSets
  import opened Diagrams
  import opened Chunking
  import opened Ancestry
  import opened Orders
  import opened Connections
  import opened PassSteps
  import opened PassTrees
  import opened PassMoves

  ghost predicate AllConnected(dm: Anc, ps: seq<seq<Tx>>) {
    forall i :: 0 <= i < |ps| ==> IsConnected(dm, Elems(ps[i]))
  }

  ghost predicate TreeOk(dm: Anc, fees: Fees, a: seq<seq<Tx>>, c: seq<Tx>, z: seq<seq<Tx>>) {
    && TreeGroups(dm, fees, a) && TreeGroups(dm, fees, z) && TreeCurrent(dm, fees, c)
    && (a != [] ==> Bounded(dm, fees, c, SeqTotal(fees, a[|a| - 1])))
  }

  /** The current group `c` between the groups `a` and `z`, which together arrange `src`. */
  ghost predicate Cycling(dm: Anc, fees: Fees, src: seq<Tx>, a: seq<seq<Tx>>, c: seq<Tx>, z: seq<seq<Tx>>) {
    && Shaped(fees, a, c, z) && Arranged(dm, fees, src, Joined3(a, c, z))
    && AllConnected(dm, a) && IsConnected(dm, Elems(c)) && AllConnected(dm, z)
    && (Chains(dm) ==> TreeOk(dm, fees, a, c, z)) && Moving(dm, fees, src, a, c, z)
  }

  /** Between two cycles: the groups are the chunks of an arrangement of `src`. */
  ghost predicate Settled(dm: Anc, fees: Fees, src: seq<Tx>, ls: seq<seq<Tx>>) {
    && Arranged(dm, fees, src, Flatten(ls)) && IsChunking(fees, Flatten(ls), ls) && AllConnected(dm, ls)
    && (Chains(dm) ==> TreeGroups(dm, fees, ls)) && MovedOk(dm, fees, src, ls)
  }

  lemma {:induction false} CycleStart(dm: Anc, fees: Fees, src: seq<Tx>, k: nat, ls: seq<seq<Tx>>)
    requires IsClosure(dm) && k < |src| && Distinct(src) && AncestorsFirst(dm, src) && Settled(dm, fees, src[..k], ls)
    ensures Cycling(dm, fees, src[..k + 1], ls, [src[k]], [])
  {
    assert HasBefore(dm, src, k);
    PassAppend(dm, fees, src, k, ls);
    SolidSingle(fees, src[k]);
    SingleConnected(dm, src[k]);
    TreeStart(dm, fees, src[k]);
    MovingStart(dm, fees, src, k, ls);
  }

  lemma {:induction false} CycleEnd(dm: Anc, fees: Fees, src: seq<Tx>, a: seq<seq<Tx>>, c: seq<Tx>, z: seq<seq<Tx>>)
    requires Cycling(dm, fees, src, a, c, z) && (a != [] ==> !Higher(SeqTotal(fees, c), SeqTotal(fees, a[|a| - 1])))
    ensures Settled(dm, fees, src, a + [c] + z)
  {
    PassPlaced(fees, a, c, z);
    MovingEnd(dm, fees, src, a, c, z);
    if Chains(dm) {
      TreeDone(dm, fees, c);
      TreeGroupsOne(dm, fees, c);
      TreeGroupsParts(dm, fees, a, [c]);
      TreeGroupsParts(dm, fees, a + [c], z);
    }
  }

  lemma {:induction false} SortedPrefix(fees: Fees, a: seq<seq<Tx>>, z: seq<seq<Tx>>)
    requires Sorted(fees, a + z)
    ensures Sorted(fees, a)
  {
    assert forall i :: 0 <= i < |a| ==> (a + z)[i] == a[i];
  }

  lemma {:induction false} CycleSwap(dm: Anc, fees: Fees, src: seq<Tx>, a: seq<seq<Tx>>, c: seq<Tx>, z: seq<seq<Tx>>)
    requires Cycling(dm, fees, src, a, c, z) && a != []
    requires Higher(SeqTotal(fees, c), SeqTotal(fees, a[|a| - 1])) && Independent(dm, c, a[|a| - 1])
    ensures Cycling(dm, fees, src, a[..|a| - 1], c, [a[|a| - 1]] + z)
  {
    SwapShaped(fees, a, c, z);
    SwapArranged(dm, fees, src, a, c, z);
    MovingSwap(dm, fees, src, a, c, z);
    if Chains(dm) {
      TreeSwap(dm, fees, a, c, z);
    }
  }

  lemma {:induction false} TreeSwap(dm: Anc, fees: Fees, a: seq<seq<Tx>>, c: seq<Tx>, z: seq<seq<Tx>>)
    requires a != [] && TreeOk(dm, fees, a, c, z) && Sorted(fees, a + z)
    ensures TreeOk(dm, fees, a[..|a| - 1], c, [a[|a| - 1]] + z)
  {
    var n := |a| - 1;
    assert TreeGroup(dm, fees, a[n]);
    TreeGroupsOne(dm, fees, a[n]);
    TreeGroupsParts(dm, fees, [a[n]], z);
    TreeGroupsParts(dm, fees, a, z);
    SortedPrefix(fees, a, z);
    if n > 0 {
      NextBound(dm, fees, a, c);
    }
  }

  /** A bound by the last group is a bound by the one before it. */
  lemma {:induction false} NextBound(dm: Anc, fees: Fees, a: seq<seq<Tx>>, c: seq<Tx>)
    requires |a| > 1 && Sorted(fees, a) && Bounded(dm, fees, c, SeqTotal(fees, a[|a| - 1]))
    ensures Bounded(dm, fees, c, SeqTotal(fees, a[|a| - 2]))
  {
    BoundedMore(dm, fees, c, SeqTotal(fees, a[|a| - 1]), SeqTotal(fees, a[|a| - 2]));
  }

  /** Dependent neighbours with the higher feerate behind can only be merged. */
  lemma {:induction false} CycleMerge(dm: Anc, fees: Fees, src: seq<Tx>, a: seq<seq<Tx>>, c: seq<Tx>, z: seq<seq<Tx>>)
    requires Cycling(dm, fees, src, a, c, z) && a != [] && IsClosure(dm)
    requires Higher(SeqTotal(fees, c), SeqTotal(fees, a[|a| - 1])) && !Independent(dm, c, a[|a| - 1])
    ensures Cycling(dm, fees, src, a[..|a| - 1], a[|a| - 1] + c, z)
    ensures SeqTotal(fees, a[|a| - 1] + c) == SeqTotal(fees, c).Plus(SeqTotal(fees, a[|a| - 1]))
  {
    var b, p := a[..|a| - 1], a[|a| - 1];
    var i, j :| 0 <= i < |c| && 0 <= j < |p| && c[i] in dm && p[j] in dm[c[i]];
    MergeShaped(fees, a, c, z);
    SwapSteps(a, c, z);
    MergeConnected(dm, p, c, i, j);
    MovingMerge(dm, fees, src, a, c, z);
    if Chains(dm) {
      PieceOrder(dm, Flatten(b), p, c, Flatten(z));
      SortedPrefix(fees, a, z);
      TreeMerged(dm, fees, a, c, z, i, j);
    }
  }

  lemma {:induction false} MergeConnected(dm: Anc, p: seq<Tx>, c: seq<Tx>, i: nat, j: nat)
    requires IsConnected(dm, Elems(p)) && IsConnected(dm, Elems(c))
    requires i < |c| && j < |p| && c[i] in dm && p[j] in dm[c[i]]
    ensures IsConnected(dm, Elems(p + c))
  {
    assert Related(dm, p[j], c[i]);
    assert Touching(dm, Elems(p), Elems(c));
    assert Elems(p + c) == Elems(p) + Elems(c);
    UnionConnected(dm, Elems(p), Elems(c));
  }

  /** The last of a later piece is no dependency of the last of an earlier one. */
  lemma {:induction false} PieceOrder(dm: Anc, a: seq<Tx>, p: seq<Tx>, c: seq<Tx>, z: seq<Tx>)
    requires Distinct(a + p + c + z) && AncestorsFirst(dm, a + p + c + z) && p != [] && c != []
    ensures Distinct(p + c) && p[|p| - 1] in dm && c[|c| - 1] !in dm[p[|p| - 1]]
  {
    var l := a + p + c + z;
    var i, j := |a| + |p| - 1, |a| + |p| + |c| - 1;
    assert l[i] == p[|p| - 1] && l[j] == c[|c| - 1];
    assert HasBefore(dm, l, i);
    assert forall k :: 0 <= k < |p + c| ==> (p + c)[k] == l[|a| + k];
  }

  lemma {:induction false} TreeMerged(dm: Anc, fees: Fees, a: seq<seq<Tx>>, c: seq<Tx>, z: seq<seq<Tx>>, i: nat, j: nat)
    requires a != [] && TreeOk(dm, fees, a, c, z) && IsClosure(dm) && Chains(dm) && Sorted(fees, a)
    requires Distinct(a[|a| - 1] + c) && a[|a| - 1] != [] && a[|a| - 1][|a[|a| - 1]| - 1] in dm
    requires c[|c| - 1] !in dm[a[|a| - 1][|a[|a| - 1]| - 1]]
    requires i < |c| && j < |a[|a| - 1]| && c[i] in dm && a[|a| - 1][j] in dm[c[i]]
    requires Higher(SeqTotal(fees, a[|a| - 1] + c), SeqTotal(fees, a[|a| - 1]))
    ensures TreeOk(dm, fees, a[..|a| - 1], a[|a| - 1] + c, z)
  {
    var p := a[|a| - 1];
    assert TreeGroup(dm, fees, p);
    TreeGroupsParts(dm, fees, a, z);
    TreeMerge(dm, fees, p, c, p[j], c[i]);
    if |a| > 1 {
      NextBound(dm, fees, a, p + c);
    }
  }
}
