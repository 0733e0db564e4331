/** Why `PostLinearize` makes up for a leaf that was moved to the end: a pass that meets a transaction first places it
    as well among unrelated ones as if it had met it later. */
module PassMoves {
  import opened FeeFracs
  import opened TxSets
  import opened Diagrams
  import opened Chunking
  import opened Ancestry
  import opened Orders
  import opened PassSteps

  /** The first transaction moved behind the ones before position `m`. */
  ghost function MovedLater(src: seq<Tx>, m: nat): seq<Tx>
    requires 0 < m <= |src|
  {
    src[1..m] + [src[0]] + src[m..]
  }

  ghost predicate Strangers(dm: Anc, t: Tx, u: Tx) {
    (u in dm ==> t !in dm[u]) && (t in dm ==> u !in dm[t])
  }

  /** The first transaction has nothing to do with the others before position `m`. */
  ghost predicate FreeUpTo(dm: Anc, src: seq<Tx>, m: nat) {
    forall i {:trigger src[i]} :: 0 < i < m && i < |src| ==> Strangers(dm, src[0], src[i])
  }

  /** `l` is nowhere below the source with its first transaction moved past up to `n - 1` unrelated ones. */
  ghost predicate BeatsMoved(dm: Anc, fees: Fees, src: seq<Tx>, l: seq<Tx>, n: nat) {
    forall m {:trigger MovedLater(src, m)} :: 0 < m <= n && m <= |src| && FreeUpTo(dm, src, m) ==> NowhereBelow(fees, l, MovedLater(src, m))
  }

  /** The groups other than the one that holds just `t`. */
  ghost function Without(ls: seq<seq<Tx>>, t: Tx): seq<seq<Tx>> {
    if ls == [] then [] else
      Without(ls[..|ls| - 1], t) + if ls[|ls| - 1] == [t] then [] else [ls[|ls| - 1]]
  }

  /** The same transactions, nowhere below. */
  ghost predicate Kept(fees: Fees, src: seq<Tx>, l: seq<Tx>) {
    Distinct(l) && Elems(l) == Elems(src) && NowhereBelow(fees, l, src)
  }

  /** The first transaction is a group of its own, and the other groups are nowhere below their source. */
  ghost predicate Aside(fees: Fees, src: seq<Tx>, ls: seq<seq<Tx>>) {
    src != [] && [src[0]] in ls && Kept(fees, src[1..], Flatten(Without(ls, src[0])))
  }

  // ---------- Leaving a group out ----------

  lemma {:induction false} WithoutConcat(a: seq<seq<Tx>>, b: seq<seq<Tx>>, t: Tx)
    ensures Without(a + b, t) == Without(a, t) + Without(b, t)
    decreases |b|
  {
    if b == [] {
      assert a + b == a;
    } else {
      WithoutConcat(a, b[..|b| - 1], t);
      assert (a + b)[..|a + b| - 1] == a + b[..|b| - 1];
    }
  }

  lemma {:induction false} WithoutOne(p: seq<Tx>, t: Tx)
    ensures Without([p], t) == if p == [t] then [] else [p]
  {
    var ps := [p];
    assert ps[..0] == [] && Without([], t) == [];
  }

  lemma {:induction false} WithoutSolid(fees: Fees, ls: seq<seq<Tx>>, t: Tx)
    requires AllSolid(fees, ls)
    ensures AllSolid(fees, Without(ls, t))
    decreases |ls|
  {
    if ls != [] {
      WithoutSolid(fees, ls[..|ls| - 1], t);
    }
  }

  lemma {:induction false} WithoutWorth(fees: Fees, ls: seq<seq<Tx>>, t: Tx, r: FeeFrac)
    ensures SumWorth(fees, ls, r) >= SumWorth(fees, Without(ls, t), r)
    ensures [t] in ls ==> SumWorth(fees, ls, r) >= SumWorth(fees, Without(ls, t), r) + Pos(SeqExcess(fees, [t], r))
    decreases |ls|
  {
    if ls != [] {
      var qs, p := ls[..|ls| - 1], ls[|ls| - 1];
      WithoutWorth(fees, qs, t, r);
      assert ls == qs + [p];
      if p != [t] {
        assert (Without(qs, t) + [p])[..|Without(qs, t)|] == Without(qs, t);
      } else {
        assert Without(ls, t) == Without(qs, t);
      }
    }
  }

  // ---------- At the end of a cycle ----------

  /** Sorted groups are at least as good as any order of the first transaction and the other groups. */
  lemma {:induction false} AsideBeats(fees: Fees, src: seq<Tx>, ls: seq<seq<Tx>>)
    requires Aside(fees, src, ls) && Sorted(fees, ls) && AllSolid(fees, ls)
    ensures NowhereBelow(fees, Flatten(ls), src[1..] + [src[0]])
  {
    var t, s := src[0], src[1..];
    forall r: FeeFrac | r.size > 0 ensures NotBelowAt(fees, Flatten(ls), s + [t], r) {
      SortedBest(fees, ls, r);
      WithoutWorth(fees, ls, t, r);
      WithoutSolid(fees, ls, t);
      SolidBest(fees, Without(ls, t), r);
      assert NotBelowAt(fees, Flatten(Without(ls, t)), s, r);
      SolidSingle(fees, t);
      BestAppend(fees, s, [t], r);
    }
  }

  lemma {:induction false} MovesEnd(dm: Anc, fees: Fees, src: seq<Tx>, ls: seq<seq<Tx>>)
    requires src != [] && BeatsMoved(dm, fees, src, Flatten(ls), |src| - 1) && Sorted(fees, ls) && AllSolid(fees, ls)
    requires FreeUpTo(dm, src, |src|) ==> Aside(fees, src, ls)
    ensures BeatsMoved(dm, fees, src, Flatten(ls), |src|)
  {
    forall m | 0 < m <= |src| && FreeUpTo(dm, src, m) ensures NowhereBelow(fees, Flatten(ls), MovedLater(src, m)) {
      if m == |src| {
        AsideBeats(fees, src, ls);
        assert MovedLater(src, m) == src[1..] + [src[0]];
      }
    }
  }

  // ---------- At the start of a cycle ----------

  lemma {:induction false} MovedSame(src: seq<Tx>, m: nat)
    requires 0 < m <= |src| && Distinct(src)
    ensures Distinct(MovedLater(src, m)) && Elems(MovedLater(src, m)) == Elems(src)
  {
    var a, b, z := [src[0]], src[1..m], src[m..];
    assert src == [] + a + b + z;
    SwapSame([], a, b, z);
    assert MovedLater(src, m) == [] + b + a + z;
  }

  lemma {:induction false} MovesStart(dm: Anc, fees: Fees, src: seq<Tx>, k: nat, l: seq<Tx>)
    requires k < |src| && Distinct(src) && Distinct(l) && Elems(l) == Elems(src[..k]) && BeatsMoved(dm, fees, src[..k], l, k)
    ensures BeatsMoved(dm, fees, src[..k + 1], l + [src[k]], k)
  {
    var s, s2, x := src[..k], src[..k + 1], src[k];
    forall m | 0 < m <= k && FreeUpTo(dm, s2, m) ensures NowhereBelow(fees, l + [x], MovedLater(s2, m)) {
      assert FreeUpTo(dm, s, m) by {
        assert forall i :: 0 <= i < k ==> s[i] == s2[i];
      }
      assert NowhereBelow(fees, l, MovedLater(s, m));
      assert MovedLater(s2, m) == MovedLater(s, m) + [x];
      MovedSame(s, m);
      forall r: FeeFrac | r.size > 0 ensures NotBelowAt(fees, l + [x], MovedLater(s, m) + [x], r) {
        assert NotBelowAt(fees, l, MovedLater(s, m), r);
        SameWhole(fees, l, MovedLater(s, m), x, r);
      }
    }
  }

  lemma {:induction false} KeptAppend(fees: Fees, s: seq<Tx>, l: seq<Tx>, x: Tx)
    requires Kept(fees, s, l) && Distinct(s) && x !in s
    ensures Kept(fees, s + [x], l + [x])
  {
    ElemsAppend(s, x);
    ElemsAppend(l, x);
    assert x !in Elems(l);
    forall r: FeeFrac | r.size > 0 ensures NotBelowAt(fees, l + [x], s + [x], r) {
      assert NotBelowAt(fees, l, s, r);
      SameWhole(fees, l, s, x, r);
    }
  }

  lemma {:induction false} AsideFirst(fees: Fees, x: Tx)
    ensures Aside(fees, [x], [[x]])
  {
    WithoutOne([x], x);
    var none: seq<Tx> := [];
    assert [x][1..] == none && Flatten([]) == none;
    forall r: FeeFrac | r.size > 0 ensures NotBelowAt(fees, none, none, r) {}
  }

  lemma {:induction false} AsideStart(fees: Fees, src: seq<Tx>, k: nat, ls: seq<seq<Tx>>)
    requires 0 < k < |src| && Distinct(src) && Aside(fees, src[..k], ls)
    ensures Aside(fees, src[..k + 1], ls + [[src[k]]])
  {
    var t, x := src[0], src[k];
    WithoutAppend(ls, x, t);
    assert src[..k][1..] == src[1..k] && src[..k + 1][1..] == src[1..k] + [x];
    KeptAppend(fees, src[1..k], Flatten(Without(ls, t)), x);
    assert [t] in ls + [[x]];
  }

  lemma {:induction false} WithoutAppend(ls: seq<seq<Tx>>, x: Tx, t: Tx)
    requires x != t
    ensures Flatten(Without(ls + [[x]], t)) == Flatten(Without(ls, t)) + [x]
  {
    WithoutConcat(ls, [[x]], t);
    WithoutOne([x], t);
    FlattenConcat(Without(ls, t), [[x]]);
    FlattenSingle([x]);
  }

  // ---------- During a cycle ----------

  lemma {:induction false} BeatsMore(dm: Anc, fees: Fees, src: seq<Tx>, l: seq<Tx>, l2: seq<Tx>, n: nat)
    requires BeatsMoved(dm, fees, src, l, n) && NowhereBelow(fees, l2, l)
    ensures BeatsMoved(dm, fees, src, l2, n)
  {
    forall m | 0 < m <= n && m <= |src| && FreeUpTo(dm, src, m) ensures NowhereBelow(fees, l2, MovedLater(src, m)) {
      NowhereBelowTrans(fees, l2, l, MovedLater(src, m));
    }
  }

  /** The groups around two neighbours, without the group that is left aside. */
  lemma {:induction false} WithoutAround(b: seq<seq<Tx>>, u: seq<seq<Tx>>, z: seq<seq<Tx>>, t: Tx)
    ensures Flatten(Without(b + u + z, t)) == Flatten(Without(b, t)) + Flatten(Without(u, t)) + Flatten(Without(z, t))
  {
    WithoutConcat(b + u, z, t);
    WithoutConcat(b, u, t);
    FlattenConcat(Without(b, t) + Without(u, t), Without(z, t));
    FlattenConcat(Without(b, t), Without(u, t));
  }

  lemma {:induction false} WithoutPair(p: seq<Tx>, c: seq<Tx>, t: Tx)
    ensures Flatten(Without([p, c], t)) == (if p == [t] then [] else p) + if c == [t] then [] else c
  {
    assert [p, c] == [p] + [c];
    WithoutConcat([p], [c], t);
    WithoutOne(p, t);
    WithoutOne(c, t);
    FlattenConcat(Without([p], t), Without([c], t));
    FlattenSingle(p);
    FlattenSingle(c);
  }

  lemma {:induction false} AsideSwap(fees: Fees, src: seq<Tx>, b: seq<seq<Tx>>, p: seq<Tx>, c: seq<Tx>, z: seq<seq<Tx>>)
    requires Aside(fees, src, b + [p, c] + z) && Solid(fees, p) && Solid(fees, c) && Higher(SeqTotal(fees, c), SeqTotal(fees, p))
    ensures Aside(fees, src, b + [c, p] + z)
  {
    var t := src[0];
    LoneSwapped(b, p, c, z, t);
    var x, y := Flatten(Without(b, t)), Flatten(Without(z, t));
    if p != [t] && c != [t] {
      WithoutSwap(b, p, c, z, t);
      KeptSwap(fees, src[1..], x, p, c, y);
    } else {
      WithoutEither(b, p, c, z, t);
    }
  }

  lemma {:induction false} LoneSwapped(b: seq<seq<Tx>>, p: seq<Tx>, c: seq<Tx>, z: seq<seq<Tx>>, t: Tx)
    requires [t] in b + [p, c] + z
    ensures [t] in b + [c, p] + z
  {
    var i :| 0 <= i < |b + [p, c] + z| && (b + [p, c] + z)[i] == [t];
    var j := if i == |b| then |b| + 1 else if i == |b| + 1 then |b| else i;
    assert (b + [c, p] + z)[j] == [t];
  }

  lemma {:induction false} WithoutSwap(b: seq<seq<Tx>>, p: seq<Tx>, c: seq<Tx>, z: seq<seq<Tx>>, t: Tx)
    requires p != [t] && c != [t]
    ensures Flatten(Without(b + [p, c] + z, t)) == Flatten(Without(b, t)) + (p + c) + Flatten(Without(z, t))
    ensures Flatten(Without(b + [c, p] + z, t)) == Flatten(Without(b, t)) + (c + p) + Flatten(Without(z, t))
  {
    WithoutAround(b, [p, c], z, t);
    WithoutAround(b, [c, p], z, t);
    WithoutPair(p, c, t);
    WithoutPair(c, p, t);
  }

  lemma {:induction false} WithoutEither(b: seq<seq<Tx>>, p: seq<Tx>, c: seq<Tx>, z: seq<seq<Tx>>, t: Tx)
    requires p == [t] || c == [t]
    ensures Flatten(Without(b + [c, p] + z, t)) == Flatten(Without(b + [p, c] + z, t))
  {
    WithoutAround(b, [p, c], z, t);
    WithoutAround(b, [c, p], z, t);
    WithoutPair(p, c, t);
    WithoutPair(c, p, t);
    assert Flatten(Without([p, c], t)) == Flatten(Without([c, p], t));
  }

  lemma {:induction false} KeptSwap(fees: Fees, s: seq<Tx>, a: seq<Tx>, p: seq<Tx>, c: seq<Tx>, z: seq<Tx>)
    requires Kept(fees, s, a + (p + c) + z) && Solid(fees, p) && Solid(fees, c) && Higher(SeqTotal(fees, c), SeqTotal(fees, p))
    ensures Kept(fees, s, a + (c + p) + z)
  {
    var l, m := a + p + c + z, a + c + p + z;
    assert a + (p + c) + z == l && a + (c + p) + z == m;
    SwapSame(a, p, c, z);
    forall r: FeeFrac | r.size > 0 ensures NotBelowAt(fees, m, l, r) {
      SwapBest(fees, a, p, c, z, r);
    }
    NowhereBelowTrans(fees, m, l, s);
  }

  lemma {:induction false} AsideMerge(fees: Fees, src: seq<Tx>, b: seq<seq<Tx>>, p: seq<Tx>, c: seq<Tx>, z: seq<seq<Tx>>)
    requires Aside(fees, src, b + [p, c] + z) && p != [] && c != [] && p != [src[0]] && c != [src[0]]
    ensures Aside(fees, src, b + [p + c] + z)
  {
    WithoutMerge(b, p, c, z, src[0]);
    LoneStays(b, p, c, z, src[0]);
  }

  lemma {:induction false} WithoutMerge(b: seq<seq<Tx>>, p: seq<Tx>, c: seq<Tx>, z: seq<seq<Tx>>, t: Tx)
    requires p != [] && c != [] && p != [t] && c != [t]
    ensures Flatten(Without(b + [p + c] + z, t)) == Flatten(Without(b + [p, c] + z, t))
  {
    WithoutAround(b, [p, c], z, t);
    WithoutAround(b, [p + c], z, t);
    WithoutPair(p, c, t);
    WithoutOne(p + c, t);
    FlattenSingle(p + c);
  }

  lemma {:induction false} LoneStays(b: seq<seq<Tx>>, p: seq<Tx>, c: seq<Tx>, z: seq<seq<Tx>>, t: Tx)
    requires [t] in b + [p, c] + z && p != [t] && c != [t]
    ensures [t] in b + [p + c] + z
  {
    var i :| 0 <= i < |b + [p, c] + z| && (b + [p, c] + z)[i] == [t];
    var j := if i < |b| then i else i - 1;
    assert (b + [p + c] + z)[j] == [t];
  }

  /** Groups that depend on each other do not hold the transaction that is left aside. */
  lemma {:induction false} NotAside(dm: Anc, src: seq<Tx>, p: seq<Tx>, c: seq<Tx>)
    requires src != [] && FreeUpTo(dm, src, |src|) && Elems(p) <= Elems(src) && Elems(c) <= Elems(src) && Elems(p) !! Elems(c)
    requires !Independent(dm, c, p)
    ensures p != [src[0]] && c != [src[0]]
  {
    var i, j :| 0 <= i < |c| && 0 <= j < |p| && c[i] in dm && p[j] in dm[c[i]];
    assert c[i] in Elems(c) && p[j] in Elems(p);
    var u :| 0 <= u < |src| && src[u] == c[i];
    var v :| 0 <= v < |src| && src[v] == p[j];
    assert u > 0 ==> Strangers(dm, src[0], src[u]);
    assert v > 0 ==> Strangers(dm, src[0], src[v]);
  }

  // ---------- The four kinds of step ----------

  /** What a cycle keeps. */
  ghost predicate Moving(dm: Anc, fees: Fees, src: seq<Tx>, a: seq<seq<Tx>>, c: seq<Tx>, z: seq<seq<Tx>>) {
    && src != [] && BeatsMoved(dm, fees, src, Joined3(a, c, z), |src| - 1)
    && (FreeUpTo(dm, src, |src|) ==> Aside(fees, src, a + [c] + z))
  }

  /** What holds between two cycles. */
  ghost predicate MovedOk(dm: Anc, fees: Fees, src: seq<Tx>, ls: seq<seq<Tx>>) {
    && BeatsMoved(dm, fees, src, Flatten(ls), |src|)
    && (src != [] && FreeUpTo(dm, src, |src|) ==> Aside(fees, src, ls))
  }

  lemma {:induction false} MovingStart(dm: Anc, fees: Fees, src: seq<Tx>, k: nat, ls: seq<seq<Tx>>)
    requires k < |src| && Distinct(src) && Distinct(Flatten(ls)) && Elems(Flatten(ls)) == Elems(src[..k]) && AllSolid(fees, ls)
    requires MovedOk(dm, fees, src[..k], ls)
    ensures Moving(dm, fees, src[..k + 1], ls, [src[k]], [])
  {
    MovesStart(dm, fees, src, k, Flatten(ls));
    assert Joined3(ls, [src[k]], []) == Flatten(ls) + [src[k]];
    assert ls + [[src[k]]] + [] == ls + [[src[k]]];
    if k == 0 {
      SomeElement(fees, ls);
      assert Elems(src[..0]) == {};
      assert src[..1] == [src[0]];
      AsideFirst(fees, src[0]);
    } else if FreeUpTo(dm, src[..k + 1], k + 1) {
      FreeBefore(dm, src, k);
      AsideStart(fees, src, k, ls);
    }
  }

  lemma {:induction false} FreeBefore(dm: Anc, src: seq<Tx>, k: nat)
    requires k < |src| && FreeUpTo(dm, src[..k + 1], k + 1)
    ensures FreeUpTo(dm, src[..k], k)
  {
    assert forall i :: 0 <= i < k ==> src[..k][i] == src[..k + 1][i];
  }

  lemma {:induction false} SomeElement(fees: Fees, ls: seq<seq<Tx>>)
    requires AllSolid(fees, ls)
    ensures ls != [] ==> Elems(Flatten(ls)) != {}
  {
    if ls != [] {
      var p := ls[|ls| - 1];
      assert Solid(fees, p);
      assert p[0] in Elems(Flatten(ls));
    }
  }

  lemma {:induction false} MovingSwap(dm: Anc, fees: Fees, src: seq<Tx>, a: seq<seq<Tx>>, c: seq<Tx>, z: seq<seq<Tx>>)
    requires a != [] && Moving(dm, fees, src, a, c, z) && Solid(fees, a[|a| - 1]) && Solid(fees, c)
    requires Higher(SeqTotal(fees, c), SeqTotal(fees, a[|a| - 1]))
    ensures Moving(dm, fees, src, a[..|a| - 1], c, [a[|a| - 1]] + z)
  {
    var b, p := a[..|a| - 1], a[|a| - 1];
    SwapNowhereBelow(fees, a, c, z);
    BeatsMore(dm, fees, src, Joined3(a, c, z), Joined3(b, c, [p] + z), |src| - 1);
    if FreeUpTo(dm, src, |src|) {
      ListsAround(a, c, z);
      AsideSwap(fees, src, b, p, c, z);
    }
  }

  lemma {:induction false} ListsAround(a: seq<seq<Tx>>, c: seq<Tx>, z: seq<seq<Tx>>)
    requires a != []
    ensures a + [c] + z == a[..|a| - 1] + [a[|a| - 1], c] + z
    ensures a[..|a| - 1] + [c] + ([a[|a| - 1]] + z) == a[..|a| - 1] + [c, a[|a| - 1]] + z
  {
  }

  lemma {:induction false} MovingMerge(dm: Anc, fees: Fees, src: seq<Tx>, a: seq<seq<Tx>>, c: seq<Tx>, z: seq<seq<Tx>>)
    requires a != [] && Moving(dm, fees, src, a, c, z) && a[|a| - 1] != [] && c != [] && !Independent(dm, c, a[|a| - 1])
    requires Distinct(Joined3(a, c, z)) && Elems(Joined3(a, c, z)) == Elems(src)
    ensures Moving(dm, fees, src, a[..|a| - 1], a[|a| - 1] + c, z)
  {
    var b, p := a[..|a| - 1], a[|a| - 1];
    SwapSteps(a, c, z);
    if FreeUpTo(dm, src, |src|) {
      ListsAround(a, c, z);
      Neighbourhood(src, Flatten(b), p, c, Flatten(z));
      NotAside(dm, src, p, c);
      AsideMerge(fees, src, b, p, c, z);
    }
  }

  lemma {:induction false} Neighbourhood(src: seq<Tx>, a: seq<Tx>, p: seq<Tx>, c: seq<Tx>, z: seq<Tx>)
    requires Distinct(a + p + c + z) && Elems(a + p + c + z) == Elems(src)
    ensures Elems(p) <= Elems(src) && Elems(c) <= Elems(src) && Elems(p) !! Elems(c)
  {
    var l := a + p + c + z;
    assert forall i :: 0 <= i < |p| ==> p[i] == l[|a| + i];
    assert forall i :: 0 <= i < |c| ==> c[i] == l[|a| + |p| + i];
    forall t | t in p ensures t in Elems(l) {}
    forall t | t in c ensures t in Elems(l) {}
  }

  lemma {:induction false} MovingEnd(dm: Anc, fees: Fees, src: seq<Tx>, a: seq<seq<Tx>>, c: seq<Tx>, z: seq<seq<Tx>>)
    requires Moving(dm, fees, src, a, c, z) && IsChunking(fees, Joined3(a, c, z), a + [c] + z)
    ensures MovedOk(dm, fees, src, a + [c] + z)
  {
    MovesEnd(dm, fees, src, a + [c] + z);
  }
}
