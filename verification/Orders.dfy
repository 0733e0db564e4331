/** Linearizations of a cluster, and what makes one as good as another. */
module Orders {
  import opened FeeFracs
  import opened TxSets
  import opened Diagrams
  import opened Ancestry

  ghost predicate IsPermutation(lin: seq<Tx>, txs: set<Tx>) {
    Distinct(lin) && Elems(lin) == txs
  }

  ghost predicate HasBefore(anc: Anc, lin: seq<Tx>, k: nat)
    requires k < |lin|
  {
    lin[k] in anc && anc[lin[k]] <= Elems(lin[..k + 1])
  }

  /** Every transaction comes after all its ancestors. */
  ghost predicate AncestorsFirst(anc: Anc, lin: seq<Tx>) {
    forall k {:trigger HasBefore(anc, lin, k)} :: 0 <= k < |lin| ==> HasBefore(anc, lin, k)
  }

  /** A linearization of the graph. */
  ghost predicate IsLinearization(anc: Anc, lin: seq<Tx>) {
    IsPermutation(lin, anc.Keys) && AncestorsFirst(anc, lin)
  }

  ghost predicate AncestorClosed(anc: Anc, s: set<Tx>) {
    s <= anc.Keys && forall t :: t in s ==> anc[t] <= s
  }

  /** `a` is nowhere below `b`, in the sense of `CompareChunks`. */
  ghost predicate NowhereBelow(fees: Fees, a: seq<Tx>, b: seq<Tx>) {
    forall r: FeeFrac {:trigger NotBelowAt(fees, a, b, r)} :: r.size > 0 ==> NotBelowAt(fees, a, b, r)
  }

  ghost predicate NotBelowAt(fees: Fees, a: seq<Tx>, b: seq<Tx>, r: FeeFrac) {
    Best(fees, a, r) >= Best(fees, b, r)
  }

  ghost predicate NotAbove(fees: Fees, s: set<Tx>, lin: seq<Tx>) {
    forall r: FeeFrac :: r.size > 0 ==> SetExcess(fees, s, r) <= Best(fees, lin, r)
  }

  /** No set of transactions that includes all its ancestors lies above the diagram of `lin`. */
  ghost predicate IsOptimal(anc: Anc, fees: Fees, lin: seq<Tx>) {
    forall s {:trigger NotAbove(fees, s, lin)} :: AncestorClosed(anc, s) ==> NotAbove(fees, s, lin)
  }

  /** An optimal linearization is nowhere below any linearization of the graph. */
  lemma {:induction false} OptimalBeatsAll(anc: Anc, fees: Fees, lin: seq<Tx>, other: seq<Tx>)
    requires IsClosure(anc) && IsOptimal(anc, fees, lin) && IsLinearization(anc, other)
    ensures NowhereBelow(fees, lin, other)
  {
    forall r: FeeFrac | r.size > 0 ensures NotBelowAt(fees, lin, other, r) {
      BestIsMaximum(fees, other, r);
      var k :| 0 <= k <= |other| && PrefixExcess(fees, other, k, r) == Best(fees, other, r);
      PrefixClosed(anc, other, k);
      assert NotAbove(fees, Elems(other[..k]), lin);
      SeqAsSet(fees, other[..k], r);
    }
  }

  lemma {:induction false} PrefixClosed(anc: Anc, lin: seq<Tx>, k: nat)
    requires IsLinearization(anc, lin) && k <= |lin|
    ensures AncestorClosed(anc, Elems(lin[..k]))
  {
    forall t | t in Elems(lin[..k]) ensures t in anc && anc[t] <= Elems(lin[..k]) {
      var j :| 0 <= j < k && lin[j] == t;
      assert HasBefore(anc, lin, j);
      assert lin[..j + 1] <= lin[..k];
      assert Elems(lin[..j + 1]) <= Elems(lin[..k]);
    }
  }
}
