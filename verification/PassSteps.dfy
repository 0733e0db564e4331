/** The steps of one pass of `PostLinearize`, on lists of groups. `dm` maps every transaction to the
    transactions that must come before it: its ancestors, or its descendants in a backward pass. */
module PassSteps {
  import opened FeeFracs
  import opened TxSets
  import opened Diagrams
  import opened Chunking
  import opened Ancestry
  import opened Orders

  // ---------- Swapping ----------

  /** Moving a higher-feerate group before a lower one never makes the diagram worse. */
  lemma {:induction false} SwapBest(fees: Fees, a: seq<Tx>, p: seq<Tx>, c: seq<Tx>, z: seq<Tx>, r: FeeFrac)
    requires Solid(fees, p) && Solid(fees, c) && Higher(SeqTotal(fees, c), SeqTotal(fees, p)) && r.size > 0
    ensures Best(fees, a + c + p + z, r) >= Best(fees, a + p + c + z, r)
  {
    var l, m := a + p + c + z, a + c + p + z;
    BestIsMaximum(fees, l, r);
    var k :| 0 <= k <= |l| && PrefixExcess(fees, l, k, r) == Best(fees, l, r);
    var n := k - |a|;
    if n <= 0 {
      assert l[..k] == a[..k] && m[..k] == a[..k];
      AtMostBest(fees, m, k, r);
    } else if n <= |p| {
      assert l[..k] == a + p[..n];
      SwapInFirst(fees, a, p, c, z, n, r);
    } else if n <= |p| + |c| {
      assert l[..k] == a + p + c[..n - |p|];
      SwapInSecond(fees, a, p, c, z, n - |p|, r);
    } else {
      var rest := z[..n - |p| - |c|];
      assert l[..k] == a + p + c + rest && m[..k] == a + c + p + rest;
      Excess4(fees, a, p, c, rest, r);
      Excess4(fees, a, c, p, rest, r);
      AtMostBest(fees, m, k, r);
    }
  }

  lemma {:induction false} AtMostBest(fees: Fees, l: seq<Tx>, k: nat, r: FeeFrac)
    requires k <= |l|
    ensures SeqExcess(fees, l[..k], r) <= Best(fees, l, r)
  {
    BestIsMaximum(fees, l, r);
    assert PrefixExcess(fees, l, k, r) <= Best(fees, l, r);
  }

  lemma {:induction false} Excess4(fees: Fees, a: seq<Tx>, b: seq<Tx>, c: seq<Tx>, d: seq<Tx>, r: FeeFrac)
    ensures SeqExcess(fees, a + b + c + d, r) == SeqExcess(fees, a, r) + SeqExcess(fees, b, r) + SeqExcess(fees, c, r) + SeqExcess(fees, d, r)
  {
    SeqExcessConcat(fees, a, b, r);
    SeqExcessConcat(fees, a + b, c, r);
    SeqExcessConcat(fees, a + b + c, d, r);
  }

  /** Signs of the excess follow the order of feerates. */
  lemma {:induction false} ExcessOrder(fees: Fees, c: seq<Tx>, p: seq<Tx>, r: FeeFrac)
    requires c != [] && p != [] && AtLeast(SeqTotal(fees, c), SeqTotal(fees, p)) && r.size > 0
    ensures SeqExcess(fees, p, r) >= 0 ==> SeqExcess(fees, c, r) >= 0
    ensures SeqExcess(fees, c, r) <= 0 ==> SeqExcess(fees, p, r) <= 0
  {
    SeqExcessOfTotal(fees, c, r);
    SeqExcessOfTotal(fees, p, r);
    if SeqExcess(fees, p, r) >= 0 {
      HigherTrans(SeqTotal(fees, c), SeqTotal(fees, p), r);
    } else if SeqExcess(fees, c, r) <= 0 {
      LowerTrans(SeqTotal(fees, c), SeqTotal(fees, p), r);
    }
  }

  lemma {:induction false} SwapInFirst(fees: Fees, a: seq<Tx>, p: seq<Tx>, c: seq<Tx>, z: seq<Tx>, n: nat, r: FeeFrac)
    requires Solid(fees, p) && c != [] && Higher(SeqTotal(fees, c), SeqTotal(fees, p)) && r.size > 0 && 0 < n <= |p|
    ensures SeqExcess(fees, a + p[..n], r) <= Best(fees, a + c + p + z, r)
  {
    var m := a + c + p + z;
    SeqExcessConcat(fees, a, p[..n], r);
    if SeqExcess(fees, c, r) >= 0 {
      PrefixOf3(fees, m, a, c, p[..n], r);
    } else {
      ExcessOrder(fees, c, p, r);
      PrefixWorth(fees, p, n, r);
      assert m[..|a|] == a;
      AtMostBest(fees, m, |a|, r);
    }
  }

  lemma {:induction false} PrefixOf(fees: Fees, l: seq<Tx>, x: seq<Tx>, r: FeeFrac)
    requires x <= l
    ensures SeqExcess(fees, x, r) <= Best(fees, l, r)
  {
    assert l[..|x|] == x;
    AtMostBest(fees, l, |x|, r);
  }

  lemma {:induction false} PrefixOf3(fees: Fees, l: seq<Tx>, x: seq<Tx>, y: seq<Tx>, w: seq<Tx>, r: FeeFrac)
    requires x + y + w <= l
    ensures SeqExcess(fees, x, r) + SeqExcess(fees, y, r) + SeqExcess(fees, w, r) <= Best(fees, l, r)
  {
    SeqExcessConcat(fees, x, y, r);
    SeqExcessConcat(fees, x + y, w, r);
    PrefixOf(fees, l, x + y + w, r);
  }

  lemma {:induction false} PrefixOf2(fees: Fees, l: seq<Tx>, x: seq<Tx>, y: seq<Tx>, r: FeeFrac)
    requires x + y <= l
    ensures SeqExcess(fees, x, r) + SeqExcess(fees, y, r) <= Best(fees, l, r)
  {
    SeqExcessConcat(fees, x, y, r);
    PrefixOf(fees, l, x + y, r);
  }

  lemma {:induction false} SwapInSecond(fees: Fees, a: seq<Tx>, p: seq<Tx>, c: seq<Tx>, z: seq<Tx>, n: nat, r: FeeFrac)
    requires p != [] && Solid(fees, c) && Higher(SeqTotal(fees, c), SeqTotal(fees, p)) && r.size > 0 && 0 < n <= |c|
    ensures SeqExcess(fees, a + p + c[..n], r) <= Best(fees, a + c + p + z, r)
  {
    var m := a + c + p + z;
    SeqExcessConcat(fees, a, p, r);
    SeqExcessConcat(fees, a + p, c[..n], r);
    if SeqExcess(fees, p, r) >= 0 {
      ExcessOrder(fees, c, p, r);
      PrefixWorth(fees, c, n, r);
      PrefixOf3(fees, m, a, c, p, r);
    } else {
      PrefixOf2(fees, m, a, c[..n], r);
    }
  }

  ghost predicate Independent(dm: Anc, c: seq<Tx>, p: seq<Tx>) {
    forall i, j :: 0 <= i < |c| && 0 <= j < |p| && c[i] in dm ==> p[j] !in dm[c[i]]
  }

  /** Independent neighbours can be swapped. */
  lemma {:induction false} SwapOrder(dm: Anc, a: seq<Tx>, p: seq<Tx>, c: seq<Tx>, z: seq<Tx>)
    requires AncestorsFirst(dm, a + p + c + z) && Independent(dm, c, p)
    ensures AncestorsFirst(dm, a + c + p + z)
  {
    var l, m := a + p + c + z, a + c + p + z;
    forall k | 0 <= k < |m| ensures HasBefore(dm, m, k) {
      var j := if |a| <= k < |a| + |c| then k + |p| else if |a| + |c| <= k < |a| + |c| + |p| then k - |c| else k;
      assert m[k] == l[j];
      assert HasBefore(dm, l, j);
      forall t | t in dm[m[k]] ensures t in m[..k + 1] {
        assert t in l[..j + 1];
        var i :| 0 <= i <= j && l[i] == t;
        SwapBefore(dm, a, p, c, z, k, j, i);
      }
    }
  }

  lemma {:induction false} SwapBefore(dm: Anc, a: seq<Tx>, p: seq<Tx>, c: seq<Tx>, z: seq<Tx>, k: nat, j: nat, i: nat)
    requires Independent(dm, c, p) && k < |a + c + p + z|
    requires j == if |a| <= k < |a| + |c| then k + |p| else if |a| + |c| <= k < |a| + |c| + |p| then k - |c| else k
    requires i <= j && (a + p + c + z)[j] in dm && (a + p + c + z)[i] in dm[(a + p + c + z)[j]]
    ensures (a + p + c + z)[i] in (a + c + p + z)[..k + 1]
  {
    var l, m := a + p + c + z, a + c + p + z;
    var n := if |a| <= i < |a| + |p| then i + |c| else if |a| + |p| <= i < |a| + |p| + |c| then i - |p| else i;
    assert m[n] == l[i];
  }

  // ---------- The state of a pass ----------

  /** `l` has the transactions of `src`, in an allowed order, and is nowhere below it. */
  ghost predicate Arranged(dm: Anc, fees: Fees, src: seq<Tx>, l: seq<Tx>) {
    && Distinct(l) && Elems(l) == Elems(src) && AncestorsFirst(dm, l) && NowhereBelow(fees, l, src)
  }

  /** The current group `c`, the groups `a` before it and `z` after it: all solid, `a` and `z` together
      by non-increasing feerate, and `c` not below any of `z`. */
  ghost predicate Shaped(fees: Fees, a: seq<seq<Tx>>, c: seq<Tx>, z: seq<seq<Tx>>) {
    && AllSolid(fees, a) && Solid(fees, c) && AllSolid(fees, z) && Sorted(fees, a + z)
    && forall j :: 0 <= j < |z| ==> AtLeast(SeqTotal(fees, c), SeqTotal(fees, z[j]))
  }

  ghost function Joined3(a: seq<seq<Tx>>, c: seq<Tx>, z: seq<seq<Tx>>): seq<Tx> {
    Flatten(a) + c + Flatten(z)
  }

  lemma {:induction false} SwapSteps(a: seq<seq<Tx>>, c: seq<Tx>, z: seq<seq<Tx>>)
    requires a != []
    ensures Joined3(a, c, z) == Flatten(a[..|a| - 1]) + a[|a| - 1] + c + Flatten(z)
    ensures Joined3(a[..|a| - 1], c, [a[|a| - 1]] + z) == Flatten(a[..|a| - 1]) + c + a[|a| - 1] + Flatten(z)
    ensures Joined3(a[..|a| - 1], a[|a| - 1] + c, z) == Joined3(a, c, z)
  {
    var b, p := a[..|a| - 1], a[|a| - 1];
    FlattenConcat([p], z);
    FlattenSingle(p);
    assert Flatten(b) + c + (p + Flatten(z)) == Flatten(b) + c + p + Flatten(z);
    assert Flatten(b) + (p + c) + Flatten(z) == Flatten(b) + p + c + Flatten(z);
  }

  lemma {:induction false} NowhereBelowTrans(fees: Fees, a: seq<Tx>, b: seq<Tx>, c: seq<Tx>)
    requires NowhereBelow(fees, a, b) && NowhereBelow(fees, b, c)
    ensures NowhereBelow(fees, a, c)
  {
    forall r: FeeFrac | r.size > 0 ensures NotBelowAt(fees, a, c, r) {
      assert NotBelowAt(fees, a, b, r) && NotBelowAt(fees, b, c, r);
    }
  }

  lemma {:induction false} SwapSame(a: seq<Tx>, p: seq<Tx>, c: seq<Tx>, z: seq<Tx>)
    requires Distinct(a + p + c + z)
    ensures Distinct(a + c + p + z) && Elems(a + c + p + z) == Elems(a + p + c + z)
  {
    var l, m := a + p + c + z, a + c + p + z;
    assert Elems(l) == Elems(a) + Elems(p) + Elems(c) + Elems(z);
    assert Elems(m) == Elems(a) + Elems(c) + Elems(p) + Elems(z);
    forall i, j | 0 <= i < j < |m| ensures m[i] != m[j] {
      assert m[i] == l[Moved(|a|, |p|, |c|, i)] && m[j] == l[Moved(|a|, |p|, |c|, j)];
    }
  }

  ghost function Moved(a: nat, p: nat, c: nat, k: nat): nat {
    if a <= k < a + c then k + p else if a + c <= k < a + c + p then k - c else k
  }

  /** A swap step keeps the arrangement. */
  lemma {:induction false} SwapArranged(dm: Anc, fees: Fees, src: seq<Tx>, a: seq<seq<Tx>>, c: seq<Tx>, z: seq<seq<Tx>>)
    requires a != [] && Arranged(dm, fees, src, Joined3(a, c, z)) && Solid(fees, a[|a| - 1]) && Solid(fees, c)
    requires Higher(SeqTotal(fees, c), SeqTotal(fees, a[|a| - 1])) && Independent(dm, c, a[|a| - 1])
    ensures Arranged(dm, fees, src, Joined3(a[..|a| - 1], c, [a[|a| - 1]] + z))
  {
    var b, p := a[..|a| - 1], a[|a| - 1];
    SwapSteps(a, c, z);
    var l, m := Flatten(b) + p + c + Flatten(z), Flatten(b) + c + p + Flatten(z);
    SwapSame(Flatten(b), p, c, Flatten(z));
    SwapOrder(dm, Flatten(b), p, c, Flatten(z));
    SwapNowhereBelow(fees, a, c, z);
    NowhereBelowTrans(fees, m, l, src);
  }

  /** A swap step never makes the diagram worse. */
  lemma {:induction false} SwapNowhereBelow(fees: Fees, a: seq<seq<Tx>>, c: seq<Tx>, z: seq<seq<Tx>>)
    requires a != [] && Solid(fees, a[|a| - 1]) && Solid(fees, c) && Higher(SeqTotal(fees, c), SeqTotal(fees, a[|a| - 1]))
    ensures NowhereBelow(fees, Joined3(a[..|a| - 1], c, [a[|a| - 1]] + z), Joined3(a, c, z))
  {
    SwapSteps(a, c, z);
    forall r: FeeFrac | r.size > 0
      ensures NotBelowAt(fees, Joined3(a[..|a| - 1], c, [a[|a| - 1]] + z), Joined3(a, c, z), r)
    {
      SwapBest(fees, Flatten(a[..|a| - 1]), a[|a| - 1], c, Flatten(z), r);
    }
  }

  lemma {:induction false} SwapShaped(fees: Fees, a: seq<seq<Tx>>, c: seq<Tx>, z: seq<seq<Tx>>)
    requires a != [] && Shaped(fees, a, c, z) && Higher(SeqTotal(fees, c), SeqTotal(fees, a[|a| - 1]))
    ensures Shaped(fees, a[..|a| - 1], c, [a[|a| - 1]] + z)
  {
    assert a[..|a| - 1] + ([a[|a| - 1]] + z) == a + z;
  }

  lemma {:induction false} MergeShaped(fees: Fees, a: seq<seq<Tx>>, c: seq<Tx>, z: seq<seq<Tx>>)
    requires a != [] && Shaped(fees, a, c, z) && Higher(SeqTotal(fees, c), SeqTotal(fees, a[|a| - 1]))
    ensures Shaped(fees, a[..|a| - 1], a[|a| - 1] + c, z)
    ensures SeqTotal(fees, a[|a| - 1] + c) == SeqTotal(fees, c).Plus(SeqTotal(fees, a[|a| - 1]))
    ensures Higher(SeqTotal(fees, a[|a| - 1] + c), SeqTotal(fees, a[|a| - 1]))
  {
    var b, p := a[..|a| - 1], a[|a| - 1];
    var fp, fc, f := SeqTotal(fees, p), SeqTotal(fees, c), SeqTotal(fees, p + c);
    assert Solid(fees, p);
    SolidConcat(fees, p, c);
    SeqTotalConcat(fees, p, c);
    Mediant(fc, fp);
    forall j | 0 <= j < |z| ensures AtLeast(f, SeqTotal(fees, z[j])) {
      assert (a + z)[|a| - 1] == p && (a + z)[|a| + j] == z[j];
      HigherTrans(f, fp, SeqTotal(fees, z[j]));
    }
    SortedDrop(fees, a, z);
  }

  lemma {:induction false} SortedDrop(fees: Fees, a: seq<seq<Tx>>, z: seq<seq<Tx>>)
    requires a != [] && Sorted(fees, a + z)
    ensures Sorted(fees, a[..|a| - 1] + z)
  {
    var l, m := a + z, a[..|a| - 1] + z;
    forall i, j | 0 <= i < j < |m| ensures AtLeast(SeqTotal(fees, m[i]), SeqTotal(fees, m[j])) {
      var i', j' := if i < |a| - 1 then i else i + 1, if j < |a| - 1 then j else j + 1;
      assert m[i] == l[i'] && m[j] == l[j'];
    }
  }

  /** When the group before is not lower, the groups are the chunks of their concatenation. */
  lemma {:induction false} PassPlaced(fees: Fees, a: seq<seq<Tx>>, c: seq<Tx>, z: seq<seq<Tx>>)
    requires Shaped(fees, a, c, z) && (a != [] ==> !Higher(SeqTotal(fees, c), SeqTotal(fees, a[|a| - 1])))
    ensures IsChunking(fees, Joined3(a, c, z), a + [c] + z)
  {
    FlattenConcat(a + [c], z);
    FlattenConcat(a, [c]);
    FlattenSingle(c);
    assert Sorted(fees, a) by {
      assert forall i :: 0 <= i < |a| ==> (a + z)[i] == a[i];
    }
    SortedAppend(fees, a, c);
    SortedInsert(fees, a, c, z);
  }

  lemma {:induction false} SortedInsert(fees: Fees, a: seq<seq<Tx>>, c: seq<Tx>, z: seq<seq<Tx>>)
    requires Sorted(fees, a + z) && Sorted(fees, a + [c])
    requires forall j :: 0 <= j < |z| ==> AtLeast(SeqTotal(fees, c), SeqTotal(fees, z[j]))
    ensures Sorted(fees, a + [c] + z)
  {
    var all := a + [c] + z;
    forall i, j | 0 <= i < j < |all| ensures AtLeast(SeqTotal(fees, all[i]), SeqTotal(fees, all[j])) {
      if j <= |a| {
        assert all[i] == (a + [c])[i] && all[j] == (a + [c])[j];
      } else if i == |a| {
        assert all[i] == c && all[j] == z[j - |a| - 1];
      } else {
        var i' := if i < |a| then i else i - 1;
        assert all[i] == (a + z)[i'] && all[j] == (a + z)[j - 1];
      }
    }
  }

  /** The next transaction starts a group of its own at the end. */
  lemma {:induction false} PassAppend(dm: Anc, fees: Fees, src: seq<Tx>, k: nat, ls: seq<seq<Tx>>)
    requires k < |src| && Distinct(src) && AncestorsFirst(dm, src)
    requires Arranged(dm, fees, src[..k], Flatten(ls)) && IsChunking(fees, Flatten(ls), ls)
    ensures Arranged(dm, fees, src[..k + 1], Joined3(ls, [src[k]], [])) && Shaped(fees, ls, [src[k]], [])
  {
    var x, l := src[k], Flatten(ls);
    var m := Joined3(ls, [x], []);
    assert m == l + [x] && src[..k + 1] == src[..k] + [x];
    ElemsAppend(l, x);
    ElemsAppend(src[..k], x);
    assert x !in Elems(l);
    AppendOrder(dm, src, k, l);
    forall r: FeeFrac | r.size > 0 ensures NotBelowAt(fees, m, src[..k + 1], r) {
      assert NotBelowAt(fees, l, src[..k], r);
      SameWhole(fees, l, src[..k], x, r);
    }
    SolidSingle(fees, x);
    assert ls + [] == ls;
  }

  lemma {:induction false} AppendOrder(dm: Anc, src: seq<Tx>, k: nat, l: seq<Tx>)
    requires k < |src| && AncestorsFirst(dm, src) && AncestorsFirst(dm, l) && Elems(l) == Elems(src[..k])
    ensures AncestorsFirst(dm, l + [src[k]])
  {
    var m := l + [src[k]];
    forall i | 0 <= i < |m| ensures HasBefore(dm, m, i) {
      if i < |l| {
        assert HasBefore(dm, l, i);
        assert m[..i + 1] == l[..i + 1];
      } else {
        assert HasBefore(dm, src, k);
        assert m[..i + 1] == m && src[..k + 1] == src[..k] + [src[k]];
        ElemsAppend(l, src[k]);
        ElemsAppend(src[..k], src[k]);
      }
    }
  }

  lemma {:induction false} SameWhole(fees: Fees, l: seq<Tx>, s: seq<Tx>, x: Tx, r: FeeFrac)
    requires Distinct(l) && Distinct(s) && Elems(l) == Elems(s) && Best(fees, l, r) >= Best(fees, s, r)
    ensures Best(fees, l + [x], r) >= Best(fees, s + [x], r)
  {
    SeqAsSet(fees, l, r);
    SeqAsSet(fees, s, r);
    SeqExcessConcat(fees, l, [x], r);
    SeqExcessConcat(fees, s, [x], r);
    assert (l + [x])[..|l|] == l && (s + [x])[..|s|] == s;
  }
}
