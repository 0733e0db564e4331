/** Linearizations, their chunks, and their feerate diagrams. A diagram is described by its support
    heights: for a feerate `r`, the largest excess over `r` that any prefix reaches. */
module Diagrams {
  import opened FeeFracs
  import opened TxSets

  /** Summed fee and size of a non-empty sequence of transactions. */
  ghost function SeqTotal(fees: Fees, l: seq<Tx>): (t: FeeFrac)
    ensures t.size > 0
  {
    if l == [] then Placeholder(|fees|)
    else if |l| == 1 then FeeOf(fees, l[0])
    else SeqTotal(fees, l[..|l| - 1]).Plus(FeeOf(fees, l[|l| - 1]))
  }

  /** What the transactions of a sequence carry, together, above the feerate `r`. */
  ghost function SeqExcess(fees: Fees, l: seq<Tx>, r: FeeFrac): int {
    if l == [] then 0 else SeqExcess(fees, l[..|l| - 1], r) + Excess(FeeOf(fees, l[|l| - 1]), r)
  }

  ghost function Elems(l: seq<Tx>): set<Tx> {
    set t | t in l
  }

  ghost predicate Distinct(l: seq<Tx>) {
    forall i, j :: 0 <= i < j < |l| ==> l[i] != l[j]
  }

  lemma {:induction false} SeqTotalConcat(fees: Fees, a: seq<Tx>, b: seq<Tx>)
    requires a != [] && b != []
    ensures SeqTotal(fees, a + b) == SeqTotal(fees, a).Plus(SeqTotal(fees, b))
    decreases |b|
  {
    var b' := b[..|b| - 1];
    assert (a + b)[..|a + b| - 1] == a + b';
    if |b| == 1 {
      assert a + b' == a;
    } else {
      SeqTotalConcat(fees, a, b');
    }
  }

  lemma {:induction false} SeqExcessConcat(fees: Fees, a: seq<Tx>, b: seq<Tx>, r: FeeFrac)
    ensures SeqExcess(fees, a + b, r) == SeqExcess(fees, a, r) + SeqExcess(fees, b, r)
    decreases |b|
  {
    if b == [] {
      assert a + b == a;
    } else {
      var b' := b[..|b| - 1];
      SeqExcessConcat(fees, a, b', r);
      assert (a + b)[..|a + b| - 1] == a + b';
    }
  }

  lemma {:induction false} SeqExcessOfTotal(fees: Fees, l: seq<Tx>, r: FeeFrac)
    requires l != []
    ensures SeqExcess(fees, l, r) == Excess(SeqTotal(fees, l), r)
    decreases |l|
  {
    if |l| == 1 {
      assert l[..0] == [];
    } else {
      SeqExcessOfTotal(fees, l[..|l| - 1], r);
      ExcessPlus(SeqTotal(fees, l[..|l| - 1]), FeeOf(fees, l[|l| - 1]), r);
    }
  }

  lemma {:induction false} ElemsAppend(l: seq<Tx>, t: Tx)
    ensures Elems(l + [t]) == Elems(l) + {t}
  {
  }

  lemma {:induction false} LastOfDistinct(l: seq<Tx>)
    requires Distinct(l) && l != []
    ensures l[|l| - 1] in Elems(l) && Elems(l) - {l[|l| - 1]} == Elems(l[..|l| - 1])
    ensures |l| > 1 ==> Elems(l) != {l[|l| - 1]}
    ensures |l| == 1 ==> Elems(l) == {l[0]}
  {
    var m, t := l[..|l| - 1], l[|l| - 1];
    assert l == m + [t];
    ElemsAppend(m, t);
    if |l| > 1 {
      assert l[0] in Elems(l);
    }
  }

  lemma {:induction false} ExcessAsSet(fees: Fees, l: seq<Tx>, r: FeeFrac)
    requires Distinct(l)
    ensures SeqExcess(fees, l, r) == SetExcess(fees, Elems(l), r)
    decreases |l|
  {
    if l == [] {
      assert Elems(l) == {};
    } else {
      LastOfDistinct(l);
      ExcessAsSet(fees, l[..|l| - 1], r);
      ExcessPick(fees, Elems(l), l[|l| - 1], r);
    }
  }

  lemma {:induction false} TotalAsSet(fees: Fees, l: seq<Tx>)
    requires Distinct(l) && l != []
    ensures SeqTotal(fees, l) == Total(fees, Elems(l))
    decreases |l|
  {
    var t := l[|l| - 1];
    LastOfDistinct(l);
    if |l| == 1 {
      TotalSingle(fees, t);
    } else {
      TotalAsSet(fees, l[..|l| - 1]);
      TotalPick(fees, Elems(l), t);
    }
  }

  /** For a sequence without duplicates, totals of the sequence and of its set agree. */
  lemma {:induction false} SeqAsSet(fees: Fees, l: seq<Tx>, r: FeeFrac)
    requires Distinct(l)
    ensures SeqExcess(fees, l, r) == SetExcess(fees, Elems(l), r)
    ensures l != [] ==> SeqTotal(fees, l) == Total(fees, Elems(l))
  {
    ExcessAsSet(fees, l, r);
    if l != [] {
      TotalAsSet(fees, l);
    }
  }

  /** The height of the diagram of `l` at slope `r`: the best any prefix of `l` does. */
  ghost function Best(fees: Fees, l: seq<Tx>, r: FeeFrac): nat {
    if l == [] then 0 else
      var rest := Best(fees, l[..|l| - 1], r);
      var all := SeqExcess(fees, l, r);
      if all > rest then all else rest
  }

  /** The point of the diagram after `k` transactions, measured against the line of slope `r`. */
  ghost function PrefixExcess(fees: Fees, l: seq<Tx>, k: nat, r: FeeFrac): int
    requires k <= |l|
  {
    SeqExcess(fees, l[..k], r)
  }

  /** `Best` is the maximum over all prefixes. */
  lemma {:induction false} BestIsMaximum(fees: Fees, l: seq<Tx>, r: FeeFrac)
    ensures forall k :: 0 <= k <= |l| ==> PrefixExcess(fees, l, k, r) <= Best(fees, l, r)
    ensures exists k :: 0 <= k <= |l| && PrefixExcess(fees, l, k, r) == Best(fees, l, r)
    decreases |l|
  {
    assert l[..|l|] == l;
    if l == [] {
      assert PrefixExcess(fees, l, 0, r) == 0;
    } else {
      var m := l[..|l| - 1];
      BestIsMaximum(fees, m, r);
      forall k | 0 <= k <= |l| ensures PrefixExcess(fees, l, k, r) <= Best(fees, l, r) {
        if k < |l| {
          assert m[..k] == l[..k];
          assert PrefixExcess(fees, m, k, r) <= Best(fees, m, r);
        }
      }
      var k :| 0 <= k <= |m| && PrefixExcess(fees, m, k, r) == Best(fees, m, r);
      assert m[..k] == l[..k];
      assert PrefixExcess(fees, l, k, r) == Best(fees, m, r);
      assert PrefixExcess(fees, l, |l|, r) == SeqExcess(fees, l, r);
    }
  }

  ghost function Flatten(ps: seq<seq<Tx>>): seq<Tx> {
    if ps == [] then [] else Flatten(ps[..|ps| - 1]) + ps[|ps| - 1]
  }

  lemma {:induction false} FlattenConcat(a: seq<seq<Tx>>, b: seq<seq<Tx>>)
    ensures Flatten(a + b) == Flatten(a) + Flatten(b)
    decreases |b|
  {
    if b == [] {
      assert a + b == a;
    } else {
      FlattenConcat(a, b[..|b| - 1]);
      assert (a + b)[..|a + b| - 1] == a + b[..|b| - 1];
    }
  }

  lemma {:induction false} FlattenAppend(ps: seq<seq<Tx>>, c: seq<Tx>)
    ensures Flatten(ps + [c]) == Flatten(ps) + c
  {
    var qs := ps + [c];
    assert qs[..|qs| - 1] == ps;
  }

  /** The summed worth of a list of pieces: the height at slope `r` of the diagram whose segments
      they are, if they come in order of non-increasing feerate. */
  ghost function SumWorth(fees: Fees, ps: seq<seq<Tx>>, r: FeeFrac): nat {
    if ps == [] then 0 else
      SumWorth(fees, ps[..|ps| - 1], r) + Pos(SeqExcess(fees, ps[|ps| - 1], r))
  }

  /** Non-increasing feerates: the segments make a concave line. */
  ghost predicate Sorted(fees: Fees, ps: seq<seq<Tx>>) {
    forall i, j :: 0 <= i < j < |ps| ==> AtLeast(SeqTotal(fees, ps[i]), SeqTotal(fees, ps[j]))
  }

  ghost predicate LowPrefix(fees: Fees, p: seq<Tx>, k: nat)
    requires k <= |p|
  {
    Higher(SeqTotal(fees, p), SeqTotal(fees, p[..k]))
  }

  /** Every proper prefix has strictly lower feerate than the whole: a single chunk. */
  ghost predicate Solid(fees: Fees, p: seq<Tx>) {
    p != [] && forall k :: 0 < k < |p| ==> LowPrefix(fees, p, k)
  }

  ghost predicate AllSolid(fees: Fees, ps: seq<seq<Tx>>) {
    forall i :: 0 <= i < |ps| ==> Solid(fees, ps[i])
  }

  lemma {:induction false} BestAppend(fees: Fees, a: seq<Tx>, p: seq<Tx>, r: FeeFrac)
    requires Solid(fees, p) && r.size > 0
    ensures Best(fees, a + p, r) <= Best(fees, a, r) + Pos(SeqExcess(fees, p, r))
  {
    BestIsMaximum(fees, a, r);
    BestIsMaximum(fees, a + p, r);
    var k :| 0 <= k <= |a + p| && PrefixExcess(fees, a + p, k, r) == Best(fees, a + p, r);
    if k <= |a| {
      assert (a + p)[..k] == a[..k];
      assert PrefixExcess(fees, a, k, r) <= Best(fees, a, r);
    } else {
      assert (a + p)[..k] == a + p[..k - |a|];
      SeqExcessConcat(fees, a, p[..k - |a|], r);
      BestWhole(fees, a, r);
      PrefixWorth(fees, p, k - |a|, r);
    }
  }

  lemma {:induction false} PrefixWorth(fees: Fees, p: seq<Tx>, k: nat, r: FeeFrac)
    requires Solid(fees, p) && 0 < k <= |p| && r.size > 0
    ensures SeqExcess(fees, p[..k], r) <= Pos(SeqExcess(fees, p, r))
  {
    if k == |p| {
      assert p[..k] == p;
    } else {
      var f, f1, f2 := SeqTotal(fees, p), SeqTotal(fees, p[..k]), SeqTotal(fees, p[k..]);
      assert LowPrefix(fees, p, k);
      assert p == p[..k] + p[k..];
      SeqTotalConcat(fees, p[..k], p[k..]);
      SeqExcessConcat(fees, p[..k], p[k..], r);
      SeqExcessOfTotal(fees, p, r);
      SeqExcessOfTotal(fees, p[..k], r);
      SeqExcessOfTotal(fees, p[k..], r);
      SuffixHigher(f, f1, f2);
      if AtLeast(f, r) {
        HigherTrans(f2, f, r);
      } else {
        LowerTrans(f, f1, r);
      }
    }
  }

  /** Pieces in order of non-increasing feerate reach their summed worth. */
  lemma {:induction false} SortedBest(fees: Fees, ps: seq<seq<Tx>>, r: FeeFrac)
    requires Sorted(fees, ps) && r.size > 0 && forall i :: 0 <= i < |ps| ==> ps[i] != []
    ensures SumWorth(fees, ps, r) <= Best(fees, Flatten(ps), r)
    ensures ps != [] && AtLeast(SeqTotal(fees, ps[|ps| - 1]), r) ==>
              SumWorth(fees, ps, r) == SeqExcess(fees, Flatten(ps), r)
    decreases |ps|
  {
    if ps != [] {
      var qs, p := ps[..|ps| - 1], ps[|ps| - 1];
      SortedBest(fees, qs, r);
      SeqExcessConcat(fees, Flatten(qs), p, r);
      SeqExcessOfTotal(fees, p, r);
      BestWhole(fees, Flatten(ps), r);
      BestGrows(fees, Flatten(qs), p, r);
      if AtLeast(SeqTotal(fees, p), r) && qs != [] {
        HigherTrans(SeqTotal(fees, qs[|qs| - 1]), SeqTotal(fees, p), r);
      }
    }
  }

  lemma {:induction false} BestWhole(fees: Fees, l: seq<Tx>, r: FeeFrac)
    ensures SeqExcess(fees, l, r) <= Best(fees, l, r)
  {
  }

  lemma {:induction false} BestGrows(fees: Fees, a: seq<Tx>, b: seq<Tx>, r: FeeFrac)
    ensures Best(fees, a, r) <= Best(fees, a + b, r)
  {
    BestIsMaximum(fees, a, r);
    BestIsMaximum(fees, a + b, r);
    var k :| 0 <= k <= |a| && PrefixExcess(fees, a, k, r) == Best(fees, a, r);
    assert (a + b)[..k] == a[..k];
    assert PrefixExcess(fees, a + b, k, r) <= Best(fees, a + b, r);
  }

  lemma {:induction false} SolidBest(fees: Fees, ps: seq<seq<Tx>>, r: FeeFrac)
    requires AllSolid(fees, ps) && r.size > 0
    ensures Best(fees, Flatten(ps), r) <= SumWorth(fees, ps, r)
    decreases |ps|
  {
    if ps != [] {
      SolidBest(fees, ps[..|ps| - 1], r);
      BestAppend(fees, Flatten(ps[..|ps| - 1]), ps[|ps| - 1], r);
    }
  }

  /** The chunks of a linearization form the least concave majorant of its prefixes: a concave line
      through some of them that none of them exceeds. */
  lemma {:induction false} ChunksAreDiagram(fees: Fees, ps: seq<seq<Tx>>, r: FeeFrac)
    requires Sorted(fees, ps) && AllSolid(fees, ps) && r.size > 0
    ensures Best(fees, Flatten(ps), r) == SumWorth(fees, ps, r)
  {
    SortedBest(fees, ps, r);
    SolidBest(fees, ps, r);
  }
}
