/** `ChunkLinearizationInfo` and `ChunkLinearization`, and why their result is determined. */
module Chunking {
  import opened FeeFracs
  import opened TxSets
  import opened Diagrams

  /** A set of transactions together with their aggregate feerate. */
  datatype SetInfo = SetInfo(transactions: set<Tx>, feerate: FeeFrac) {
    /** `operator|=`: no overlap is allowed. */
    function Plus(other: SetInfo): SetInfo
      requires transactions !! other.transactions
    {
      SetInfo(transactions + other.transactions, feerate.Plus(other.feerate))
    }

    /** `operator-`: `other` must be a subset. */
    function Minus(other: SetInfo): SetInfo
      requires other.transactions <= transactions
    {
      SetInfo(transactions - other.transactions, feerate.Minus(other.feerate))
    }
  }

  /** `ps` are the chunks of `lin`, as consecutive pieces of it. */
  ghost predicate IsChunking(fees: Fees, lin: seq<Tx>, ps: seq<seq<Tx>>) {
    Flatten(ps) == lin && Sorted(fees, ps) && AllSolid(fees, ps)
  }

  /** Absorbing a lower-feerate chunk into a solid one on its right gives a solid one. */
  lemma {:induction false} SolidConcat(fees: Fees, p: seq<Tx>, c: seq<Tx>)
    requires Solid(fees, p) && Solid(fees, c)
    requires Higher(SeqTotal(fees, c), SeqTotal(fees, p))
    ensures Solid(fees, p + c)
  {
    var fp, fc, f := SeqTotal(fees, p), SeqTotal(fees, c), SeqTotal(fees, p + c);
    SeqTotalConcat(fees, p, c);
    Mediant(fp, fc);
    Mediant(fc, fp);
    assert Higher(f, fp) && Higher(fc, f);
    forall k | 0 < k < |p + c| ensures LowPrefix(fees, p + c, k) {
      if k < |p| {
        assert (p + c)[..k] == p[..k];
        assert LowPrefix(fees, p, k);
        HigherTrans(f, fp, SeqTotal(fees, p[..k]));
      } else if k == |p| {
        assert (p + c)[..k] == p;
      } else {
        SolidConcatSuffix(fees, p, c, k - |p|);
        assert (p + c)[..k] == p + c[..k - |p|];
      }
    }
  }

  lemma {:induction false} SolidConcatSuffix(fees: Fees, p: seq<Tx>, c: seq<Tx>, k: nat)
    requires Solid(fees, c) && 0 < k < |c| && p != []
    requires Higher(SeqTotal(fees, c), SeqTotal(fees, p + c))
    ensures Higher(SeqTotal(fees, p + c), SeqTotal(fees, p + c[..k]))
  {
    var f, f1, f2, fc := SeqTotal(fees, p + c), SeqTotal(fees, p + c[..k]), SeqTotal(fees, c[k..]), SeqTotal(fees, c);
    assert LowPrefix(fees, c, k);
    assert c == c[..k] + c[k..] && p + c == (p + c[..k]) + c[k..];
    SeqTotalConcat(fees, c[..k], c[k..]);
    SeqTotalConcat(fees, p + c[..k], c[k..]);
    SuffixHigher(fc, SeqTotal(fees, c[..k]), f2);
    HigherTrans(f2, fc, f);
    SuffixHigher(f, f1, f2);
  }

  lemma {:induction false} SumWorthZero(fees: Fees, ps: seq<seq<Tx>>, r: FeeFrac)
    requires forall i :: 0 <= i < |ps| ==> SeqExcess(fees, ps[i], r) <= 0
    ensures SumWorth(fees, ps, r) == 0
    decreases |ps|
  {
    if ps != [] {
      SumWorthZero(fees, ps[..|ps| - 1], r);
    }
  }

  /** No prefix of a linearization has a higher feerate than its first chunk. */
  lemma {:induction false} FirstChunkIsBest(fees: Fees, ps: seq<seq<Tx>>, k: nat)
    requires Sorted(fees, ps) && AllSolid(fees, ps) && ps != [] && 0 < k <= |Flatten(ps)|
    ensures AtLeast(SeqTotal(fees, ps[0]), SeqTotal(fees, Flatten(ps)[..k]))
  {
    var r := SeqTotal(fees, ps[0]);
    forall i | 0 <= i < |ps| ensures SeqExcess(fees, ps[i], r) <= 0 {
      SeqExcessOfTotal(fees, ps[i], r);
      ExcessFlip(SeqTotal(fees, ps[i]), r);
    }
    SumWorthZero(fees, ps, r);
    SolidBest(fees, ps, r);
    BestIsMaximum(fees, Flatten(ps), r);
    assert PrefixExcess(fees, Flatten(ps), k, r) <= 0;
    SeqExcessOfTotal(fees, Flatten(ps)[..k], r);
    ExcessFlip(SeqTotal(fees, Flatten(ps)[..k]), r);
  }

  lemma {:induction false} FlattenSingle(p: seq<Tx>)
    ensures Flatten([p]) == p
  {
    var ps := [p];
    assert ps[..|ps| - 1] == [];
    assert Flatten([]) + p == p;
  }

  lemma {:induction false} FlattenFirst(ps: seq<seq<Tx>>)
    requires ps != []
    ensures Flatten(ps) == ps[0] + Flatten(ps[1..])
  {
    FlattenConcat([ps[0]], ps[1..]);
    assert [ps[0]] + ps[1..] == ps;
    FlattenSingle(ps[0]);
  }

  lemma {:induction false} FirstPieceNotShorter(fees: Fees, ps: seq<seq<Tx>>, qs: seq<seq<Tx>>)
    requires Sorted(fees, ps) && AllSolid(fees, ps) && ps != []
    requires AllSolid(fees, qs) && qs != []
    requires Flatten(ps) == Flatten(qs)
    ensures |ps[0]| >= |qs[0]|
  {
    FlattenFirst(ps);
    FlattenFirst(qs);
    var l := Flatten(ps);
    assert l[..|ps[0]|] == ps[0] && l[..|qs[0]|] == qs[0];
    if |ps[0]| < |qs[0]| {
      FirstChunkIsBest(fees, ps, |qs[0]|);
      assert qs[0][..|ps[0]|] == ps[0];
      assert LowPrefix(fees, qs[0], |ps[0]|);
      ExcessFlip(SeqTotal(fees, ps[0]), SeqTotal(fees, qs[0]));
      assert false;
    }
  }

  lemma {:induction false} ChunkingTail(fees: Fees, lin: seq<Tx>, ps: seq<seq<Tx>>)
    requires IsChunking(fees, lin, ps) && ps != []
    ensures lin == ps[0] + Flatten(ps[1..]) && IsChunking(fees, lin[|ps[0]|..], ps[1..])
  {
    FlattenFirst(ps);
  }

  /** A linearization has only one chunking. */
  lemma {:induction false} ChunkingUnique(fees: Fees, lin: seq<Tx>, ps: seq<seq<Tx>>, qs: seq<seq<Tx>>)
    requires IsChunking(fees, lin, ps) && IsChunking(fees, lin, qs)
    ensures ps == qs
    decreases |ps|
  {
    if ps == [] || qs == [] {
      if ps != [] { FlattenFirst(ps); }
      if qs != [] { FlattenFirst(qs); }
    } else {
      FirstPieceNotShorter(fees, ps, qs);
      FirstPieceNotShorter(fees, qs, ps);
      ChunkingTail(fees, lin, ps);
      ChunkingTail(fees, lin, qs);
      var n := |ps[0]|;
      assert ps[0] == lin[..n] == qs[0];
      ChunkingUnique(fees, lin[n..], ps[1..], qs[1..]);
      assert ps == [ps[0]] + ps[1..] && qs == [qs[0]] + qs[1..];
    }
  }

  /** What the inner loop of both chunkings keeps: the pieces so far and the piece being built. */
  ghost predicate Building(fees: Fees, done: seq<Tx>, ps: seq<seq<Tx>>, c: seq<Tx>) {
    Flatten(ps) + c == done && Sorted(fees, ps) && AllSolid(fees, ps) && Solid(fees, c)
  }

  lemma {:induction false} Absorb(fees: Fees, done: seq<Tx>, ps: seq<seq<Tx>>, c: seq<Tx>)
    requires Building(fees, done, ps, c) && ps != []
    requires Higher(SeqTotal(fees, c), SeqTotal(fees, ps[|ps| - 1]))
    ensures Building(fees, done, ps[..|ps| - 1], ps[|ps| - 1] + c)
    ensures SeqTotal(fees, ps[|ps| - 1] + c) == SeqTotal(fees, c).Plus(SeqTotal(fees, ps[|ps| - 1]))
  {
    var p := ps[|ps| - 1];
    SolidConcat(fees, p, c);
    assert Flatten(ps[..|ps| - 1]) + (p + c) == (Flatten(ps[..|ps| - 1]) + p) + c;
    SeqTotalConcat(fees, p, c);
  }

  lemma {:induction false} SortedAppend(fees: Fees, ps: seq<seq<Tx>>, c: seq<Tx>)
    requires Sorted(fees, ps) && c != [] && forall i :: 0 <= i < |ps| ==> ps[i] != []
    requires ps != [] ==> !Higher(SeqTotal(fees, c), SeqTotal(fees, ps[|ps| - 1]))
    ensures Sorted(fees, ps + [c])
  {
    forall i | 0 <= i < |ps| ensures AtLeast(SeqTotal(fees, ps[i]), SeqTotal(fees, c)) {
      var f := SeqTotal(fees, ps[|ps| - 1]);
      ExcessFlip(SeqTotal(fees, c), f);
      if i < |ps| - 1 {
        HigherTrans(SeqTotal(fees, ps[i]), f, SeqTotal(fees, c));
      }
    }
  }

  lemma {:induction false} Place(fees: Fees, done: seq<Tx>, ps: seq<seq<Tx>>, c: seq<Tx>)
    requires Building(fees, done, ps, c)
    requires ps != [] ==> !Higher(SeqTotal(fees, c), SeqTotal(fees, ps[|ps| - 1]))
    ensures IsChunking(fees, done, ps + [c])
  {
    FlattenAppend(ps, c);
    SolidAppend(fees, ps, c);
    SortedAppend(fees, ps, c);
  }

  lemma {:induction false} SolidAppend(fees: Fees, ps: seq<seq<Tx>>, c: seq<Tx>)
    requires AllSolid(fees, ps) && Solid(fees, c)
    ensures AllSolid(fees, ps + [c])
  {
  }

  lemma {:induction false} SolidSingle(fees: Fees, t: Tx)
    ensures Solid(fees, [t]) && SeqTotal(fees, [t]) == FeeOf(fees, t) && Elems([t]) == {t}
  {
  }

  /** The sets of two consecutive pieces of a duplicate-free sequence do not overlap. */
  lemma {:induction false} PiecesDisjoint(a: seq<Tx>, p: seq<Tx>, c: seq<Tx>, l: seq<Tx>)
    requires Distinct(l) && a + p + c <= l
    ensures Elems(p) !! Elems(c) && Elems(p + c) == Elems(p) + Elems(c)
  {
    var m := a + p + c;
    assert forall i :: 0 <= i < |p| ==> l[|a| + i] == m[|a| + i] == p[i];
    assert forall j :: 0 <= j < |c| ==> l[|a| + |p| + j] == m[|a| + |p| + j] == c[j];
    forall i, j | 0 <= i < |p| && 0 <= j < |c| ensures p[i] != c[j] {
      assert l[|a| + i] != l[|a| + |p| + j];
    }
  }

  ghost function PieceInfo(fees: Fees, p: seq<Tx>): SetInfo {
    SetInfo(Elems(p), SeqTotal(fees, p))
  }

  ghost predicate Infos(fees: Fees, ret: seq<SetInfo>, ps: seq<seq<Tx>>) {
    |ret| == |ps| && forall i :: 0 <= i < |ret| ==> ret[i] == PieceInfo(fees, ps[i])
  }

  /** The inner loop: a new transaction absorbs the chunks before it that have a lower feerate. */
  method AbsorbInfos(fees: Fees, t: Tx, ret0: seq<SetInfo>, ghost ps0: seq<seq<Tx>>, ghost done: seq<Tx>)
    returns (ret: seq<SetInfo>, newChunk: SetInfo, ghost ps: seq<seq<Tx>>, ghost c: seq<Tx>)
    requires Distinct(done) && Building(fees, done, ps0, [t]) && Infos(fees, ret0, ps0)
    ensures Building(fees, done, ps, c) && Infos(fees, ret, ps) && newChunk == PieceInfo(fees, c)
    ensures ret != [] ==> !Higher(newChunk.feerate, ret[|ret| - 1].feerate)
  {
    ret, ps, newChunk, c := ret0, ps0, SetInfo({t}, FeeOf(fees, t)), [t];
    SolidSingle(fees, t);
    while ret != [] && Higher(newChunk.feerate, ret[|ret| - 1].feerate)
      invariant Building(fees, done, ps, c) && Infos(fees, ret, ps) && newChunk == PieceInfo(fees, c)
    {
      ghost var p := ps[|ps| - 1];
      PiecesDisjoint(Flatten(ps[..|ps| - 1]), p, c, done);
      Absorb(fees, done, ps, c);
      newChunk := newChunk.Plus(ret[|ret| - 1]);
      ret := ret[..|ret| - 1];
      ps, c := ps[..|ps| - 1], p + c;
    }
  }

  lemma {:induction false} StartBuilding(fees: Fees, lin: seq<Tx>, n: nat, ps: seq<seq<Tx>>)
    requires n < |lin| && IsChunking(fees, lin[..n], ps)
    ensures Building(fees, lin[..n + 1], ps, [lin[n]])
  {
    SolidSingle(fees, lin[n]);
    assert lin[..n + 1] == lin[..n] + [lin[n]];
  }

  method ChunkLinearizationInfo(fees: Fees, lin: seq<Tx>) returns (ret: seq<SetInfo>, ghost ps: seq<seq<Tx>>)
    requires Distinct(lin)
    ensures IsChunking(fees, lin, ps) && Infos(fees, ret, ps)
  {
    ret, ps := [], [];
    for n := 0 to |lin|
      invariant IsChunking(fees, lin[..n], ps) && Infos(fees, ret, ps)
    {
      StartBuilding(fees, lin, n, ps);
      var newChunk;
      ghost var c;
      ret, newChunk, ps, c := AbsorbInfos(fees, lin[n], ret, ps, lin[..n + 1]);
      Place(fees, lin[..n + 1], ps, c);
      ret, ps := ret + [newChunk], ps + [c];
    }
    assert lin[..|lin|] == lin;
  }

  ghost predicate Feerates(fees: Fees, ret: seq<FeeFrac>, ps: seq<seq<Tx>>) {
    |ret| == |ps| && forall i :: 0 <= i < |ret| ==> ret[i] == SeqTotal(fees, ps[i])
  }

  /** The same inner loop, feerates only. */
  method AbsorbFeerates(fees: Fees, t: Tx, ret0: seq<FeeFrac>, ghost ps0: seq<seq<Tx>>, ghost done: seq<Tx>)
    returns (ret: seq<FeeFrac>, newChunk: FeeFrac, ghost ps: seq<seq<Tx>>, ghost c: seq<Tx>)
    requires Building(fees, done, ps0, [t]) && Feerates(fees, ret0, ps0)
    ensures Building(fees, done, ps, c) && Feerates(fees, ret, ps) && newChunk == SeqTotal(fees, c)
    ensures ret != [] ==> !Higher(newChunk, ret[|ret| - 1])
  {
    ret, ps, newChunk, c := ret0, ps0, FeeOf(fees, t), [t];
    SolidSingle(fees, t);
    while ret != [] && Higher(newChunk, ret[|ret| - 1])
      invariant Building(fees, done, ps, c) && Feerates(fees, ret, ps) && newChunk == SeqTotal(fees, c)
    {
      Absorb(fees, done, ps, c);
      newChunk := newChunk.Plus(ret[|ret| - 1]);
      ret := ret[..|ret| - 1];
      ps, c := ps[..|ps| - 1], ps[|ps| - 1] + c;
    }
  }

  /** The same chunks, feerates only. */
  method ChunkLinearization(fees: Fees, lin: seq<Tx>) returns (ret: seq<FeeFrac>)
    ensures forall ps :: IsChunking(fees, lin, ps) ==> Feerates(fees, ret, ps)
    ensures exists ps :: IsChunking(fees, lin, ps)
  {
    ghost var ps;
    ret, ps := ChunkFeerates(fees, lin);
    OnlyFeerates(fees, lin, ret, ps);
  }

  method ChunkFeerates(fees: Fees, lin: seq<Tx>) returns (ret: seq<FeeFrac>, ghost ps: seq<seq<Tx>>)
    ensures IsChunking(fees, lin, ps) && Feerates(fees, ret, ps)
  {
    ret, ps := [], [];
    for n := 0 to |lin|
      invariant IsChunking(fees, lin[..n], ps) && Feerates(fees, ret, ps)
    {
      StartBuilding(fees, lin, n, ps);
      var newChunk;
      ghost var c;
      ret, newChunk, ps, c := AbsorbFeerates(fees, lin[n], ret, ps, lin[..n + 1]);
      Place(fees, lin[..n + 1], ps, c);
      ret, ps := ret + [newChunk], ps + [c];
    }
    assert lin[..|lin|] == lin;
  }

  lemma {:induction false} OnlyFeerates(fees: Fees, lin: seq<Tx>, ret: seq<FeeFrac>, ps: seq<seq<Tx>>)
    requires IsChunking(fees, lin, ps) && Feerates(fees, ret, ps)
    ensures forall qs :: IsChunking(fees, lin, qs) ==> Feerates(fees, ret, qs)
  {
    forall qs | IsChunking(fees, lin, qs) ensures qs == ps {
      ChunkingUnique(fees, lin, ps, qs);
    }
  }
}
