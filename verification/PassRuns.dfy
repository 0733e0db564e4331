/** One pass of `PostLinearize`, on the linked lists. */
module PassRuns {
  import opened FeeFracs
  import opened TxSets
  import opened Diagrams
  import opened Chunking
  import opened Ancestry
  import opened Orders
  import opened PassSteps
  import opened PassGroups
  import opened PassLinks

  // ---------- How changes affect the stored groups ----------

  lemma {:induction false} InFlatten(ls: seq<seq<Tx>>, i: nat)
    requires i < |ls|
    ensures Elems(ls[i]) <= Elems(Flatten(ls))
    decreases |ls|
  {
    if i < |ls| - 1 {
      InFlatten(ls[..|ls| - 1], i);
      assert ls[..|ls| - 1][i] == ls[i];
    }
  }

  lemma {:induction false} OutsideData(es: seq<TxEntry>, es2: seq<TxEntry>, p: seq<Tx>, u: set<Tx>)
    requires |es| == |es2| && Elems(p) !! u
    requires forall t: Tx :: t + 1 < |es| && t !in u ==> es2[t + 1] == es[t + 1]
    ensures SameData(es, es2, p)
  {
    forall j | 0 <= j < |p| && p[j] + 1 < |es| ensures es2[p[j] + 1] == es[p[j] + 1] {
      assert p[j] in Elems(p);
    }
  }

  lemma {:induction false} StoredAppended(dm: Anc, fees: Fees, es: seq<TxEntry>, ls: seq<seq<Tx>>, x: Tx, feerate: FeeFrac)
    requires Stored(dm, fees, es, ls) && x in dm && x + 1 < |es| && feerate == FeeOf(fees, x) && x !in Elems(Flatten(ls))
    ensures Stored(dm, fees, Appended(es, x, dm[x], feerate), ls + [[x]])
  {
    var es2, ls2 := Appended(es, x, dm[x], feerate), ls + [[x]];
    assert Tails(ls2) == Tails(ls) + [x + 1];
    forall i | 0 <= i < |ls| ensures x !in Elems(ls[i]) && Tails(ls)[i] != x + 1 {
      InFlatten(ls, i);
      assert GroupStored(dm, fees, es, ls[i]);
      assert ls[i][|ls[i]| - 1] in Elems(ls[i]);
    }
    LinksAppend(es, Tails(ls), x, dm[x], feerate);
    forall i | 0 <= i < |ls2| ensures GroupStored(dm, fees, es2, ls2[i]) {
      if i < |ls| {
        assert GroupStored(dm, fees, es, ls[i]);
        OutsideData(es, es2, ls[i], {x});
        StoredFrame(dm, fees, es, es2, ls[i]);
      } else {
        StoredAppend(dm, fees, es, x, feerate);
      }
    }
  }

  lemma {:induction false} TailsSwapped(a: seq<seq<Tx>>, c: seq<Tx>, z: seq<seq<Tx>>)
    requires a != []
    ensures Tails(a[..|a| - 1] + [c] + ([a[|a| - 1]] + z)) ==
            Tails(a + [c] + z)[..|a| - 1] + [Tails(a + [c] + z)[|a|], Tails(a + [c] + z)[|a| - 1]] + Tails(a + [c] + z)[|a| + 1..]
  {
    var ls, n := a + [c] + z, |a| - 1;
    var ts := Tails(ls);
    var ls2 := a[..n] + [c] + ([a[n]] + z);
    var us := ts[..n] + [ts[n + 1], ts[n]] + ts[n + 2..];
    forall i | 0 <= i < |ls2| ensures Tails(ls2)[i] == us[i] {
      assert ls2[i] == if i == n then ls[n + 1] else if i == n + 1 then ls[n] else ls[i];
    }
  }

  lemma {:induction false} TailsMerged(a: seq<seq<Tx>>, c: seq<Tx>, z: seq<seq<Tx>>)
    requires a != [] && c != []
    ensures Tails(a[..|a| - 1] + [a[|a| - 1] + c] + z) == Tails(a + [c] + z)[..|a| - 1] + Tails(a + [c] + z)[|a|..]
  {
    var ls, n := a + [c] + z, |a| - 1;
    var ts := Tails(ls);
    var ls3 := a[..n] + [a[n] + c] + z;
    var vs := ts[..n] + ts[n + 1..];
    assert Tail(a[n] + c) == Tail(c);
    forall i | 0 <= i < |ls3| ensures Tails(ls3)[i] == vs[i] {
      assert ls3[i] == if i < n then ls[i] else if i == n then a[n] + c else ls[i + 1];
    }
  }

  lemma {:induction false} LinksSwapped(es: seq<TxEntry>, a: seq<seq<Tx>>, c: seq<Tx>, z: seq<seq<Tx>>)
    requires a != [] && LinksOk(es, Tails(a + [c] + z))
    ensures var next := if z == [] then SENTINEL else Tail(z[0]);
            next < |es| && Tail(c) < |es| && Tail(a[|a| - 1]) < |es| &&
            LinksOk(Swapped(es, next, Tail(c), Tail(a[|a| - 1])), Tails(a[..|a| - 1] + [c] + ([a[|a| - 1]] + z)))
  {
    var ls, n := a + [c] + z, |a| - 1;
    assert z != [] ==> ls[n + 2] == z[0];
    assert ls[n + 1] == c && ls[n] == a[n];
    TailsSwapped(a, c, z);
    LinksSwap(es, Tails(ls), n + 1, Tails(a[..n] + [c] + ([a[n]] + z)));
  }

  lemma {:induction false} DataSwapped(dm: Anc, fees: Fees, es: seq<TxEntry>, es2: seq<TxEntry>, a: seq<seq<Tx>>, c: seq<Tx>, z: seq<seq<Tx>>)
    requires a != [] && AllStored(dm, fees, es, a + [c] + z)
    requires |es| == |es2| && forall i :: 0 <= i < |es| ==> es2[i] == es[i].(prevGroup := es2[i].prevGroup)
    ensures AllStored(dm, fees, es2, a[..|a| - 1] + [c] + ([a[|a| - 1]] + z))
  {
    var ls, n := a + [c] + z, |a| - 1;
    var ls2 := a[..n] + [c] + ([a[n]] + z);
    forall i | 0 <= i < |ls2| ensures GroupStored(dm, fees, es2, ls2[i]) {
      var j := if i == n then n + 1 else if i == n + 1 then n else i;
      assert ls2[i] == ls[j];
      assert GroupStored(dm, fees, es, ls[j]);
      StoredFrame(dm, fees, es, es2, ls[j]);
    }
  }

  lemma {:induction false} StoredSwapped(dm: Anc, fees: Fees, es: seq<TxEntry>, a: seq<seq<Tx>>, c: seq<Tx>, z: seq<seq<Tx>>)
    requires a != [] && Stored(dm, fees, es, a + [c] + z)
    ensures var next := if z == [] then SENTINEL else Tail(z[0]);
            next < |es| && Tail(c) < |es| && Tail(a[|a| - 1]) < |es| &&
            Stored(dm, fees, Swapped(es, next, Tail(c), Tail(a[|a| - 1])), a[..|a| - 1] + [c] + ([a[|a| - 1]] + z))
  {
    var next := if z == [] then SENTINEL else Tail(z[0]);
    LinksSwapped(es, a, c, z);
    DataSwapped(dm, fees, es, Swapped(es, next, Tail(c), Tail(a[|a| - 1])), a, c, z);
  }

  lemma {:induction false} Apart(a: seq<seq<Tx>>, c: seq<Tx>, z: seq<seq<Tx>>, i: nat)
    requires Distinct(Joined3(a, c, z)) && i < |a| + |z|
    ensures Elems((a + z)[i]) !! Elems(c)
  {
    assert [] + Flatten(a) + c <= Joined3(a, c, z);
    PiecesDisjoint([], Flatten(a), c, Joined3(a, c, z));
    PiecesDisjoint(Flatten(a), c, Flatten(z), Joined3(a, c, z));
    if i < |a| {
      InFlatten(a, i);
    } else {
      InFlatten(z, i - |a|);
    }
  }

  lemma {:induction false} LinksMerged(es: seq<TxEntry>, a: seq<seq<Tx>>, c: seq<Tx>, z: seq<seq<Tx>>)
    requires a != [] && c != [] && LinksOk(es, Tails(a + [c] + z)) && Tail(c) < |es| && es[Tail(c)].firstTx < |es|
    ensures Tail(a[|a| - 1]) < |es|
    ensures LinksOk(Merged(es, Tail(c), Tail(a[|a| - 1])), Tails(a[..|a| - 1] + [a[|a| - 1] + c] + z))
  {
    var ls, n := a + [c] + z, |a| - 1;
    assert ls[n + 1] == c && ls[n] == a[n];
    TailsMerged(a, c, z);
    LinksMerge(es, Tails(ls), n + 1, Tails(a[..n] + [a[n] + c] + z));
  }

  /** Groups that share no transaction with `c` are as before. */
  lemma {:induction false} DataKept(dm: Anc, fees: Fees, es: seq<TxEntry>, c: seq<Tx>, prev: nat, q: seq<Tx>)
    requires GroupStored(dm, fees, es, q) && GroupStored(dm, fees, es, c) && Elems(q) !! Elems(c) && prev < |es|
    ensures es[Tail(c)].firstTx < |es| && GroupStored(dm, fees, Merged(es, Tail(c), prev), q)
  {
    assert TxLinked(es, c, 0);
    assert c[0] in Elems(c) && c[|c| - 1] in Elems(c);
    OutsideData(es, Merged(es, Tail(c), prev), q, Elems(c));
    StoredFrame(dm, fees, es, Merged(es, Tail(c), prev), q);
  }

  lemma {:induction false} Adjacent(a: seq<seq<Tx>>, c: seq<Tx>, z: seq<seq<Tx>>)
    requires a != [] && Distinct(Joined3(a, c, z))
    ensures Distinct(a[|a| - 1] + c)
  {
    var p := a[|a| - 1];
    SwapSteps(a, c, z);
    assert forall k :: 0 <= k < |p + c| ==> (p + c)[k] == Joined3(a, c, z)[|Flatten(a[..|a| - 1])| + k];
  }

  lemma {:induction false} DataMerged(dm: Anc, fees: Fees, es: seq<TxEntry>, a: seq<seq<Tx>>, c: seq<Tx>, z: seq<seq<Tx>>)
    requires a != [] && AllStored(dm, fees, es, a + [c] + z) && Distinct(Joined3(a, c, z))
    ensures c != [] && Tail(c) < |es| && Tail(a[|a| - 1]) < |es| && es[Tail(c)].firstTx < |es|
    ensures AllStored(dm, fees, Merged(es, Tail(c), Tail(a[|a| - 1])), a[..|a| - 1] + [a[|a| - 1] + c] + z)
  {
    var ls, n := a + [c] + z, |a| - 1;
    var p := a[n];
    var ls2 := a[..n] + [p + c] + z;
    assert ls[n + 1] == c && ls[n] == p;
    assert GroupStored(dm, fees, es, ls[n]) && GroupStored(dm, fees, es, ls[n + 1]);
    Adjacent(a, c, z);
    StoredMerge(dm, fees, es, p, c);
    var es2 := Merged(es, Tail(c), Tail(p));
    forall i | 0 <= i < |ls2| ensures GroupStored(dm, fees, es2, ls2[i]) {
      if i != n {
        var j := if i < n then i else i + 1;
        assert ls2[i] == ls[j];
        assert GroupStored(dm, fees, es, ls[j]);
        Other(a, c, z, i);
        DataKept(dm, fees, es, c, Tail(p), ls2[i]);
      }
    }
  }

  lemma {:induction false} Other(a: seq<seq<Tx>>, c: seq<Tx>, z: seq<seq<Tx>>, i: nat)
    requires a != [] && Distinct(Joined3(a, c, z)) && i < |a| + |z| && i != |a| - 1
    ensures Elems((a[..|a| - 1] + [a[|a| - 1] + c] + z)[i]) !! Elems(c)
  {
    Apart(a, c, z, i);
    assert (a[..|a| - 1] + [a[|a| - 1] + c] + z)[i] == (a + z)[i];
  }

  lemma {:induction false} StoredMerged(dm: Anc, fees: Fees, es: seq<TxEntry>, a: seq<seq<Tx>>, c: seq<Tx>, z: seq<seq<Tx>>)
    requires a != [] && Stored(dm, fees, es, a + [c] + z) && Distinct(Joined3(a, c, z))
    ensures Tail(c) < |es| && Tail(a[|a| - 1]) < |es| && es[Tail(c)].firstTx < |es|
    ensures Stored(dm, fees, Merged(es, Tail(c), Tail(a[|a| - 1])), a[..|a| - 1] + [a[|a| - 1] + c] + z)
  {
    DataMerged(dm, fees, es, a, c, z);
    LinksMerged(es, a, c, z);
    assert es[Tail(c)].firstTx > 0 by {
      assert (a + [c] + z)[|a|] == c && GroupStored(dm, fees, es, (a + [c] + z)[|a|]);
    }
  }

  // ---------- The pass ----------

  lemma {:induction false} OverlapTest(dm: Anc, c: seq<Tx>, p: seq<Tx>)
    ensures DepsOf(dm, c) * Elems(p) == {} <==> Independent(dm, c, p)
  {
    if !Independent(dm, c, p) {
      var i, j :| 0 <= i < |c| && 0 <= j < |p| && c[i] in dm && p[j] in dm[c[i]];
      assert p[j] in DepsOf(dm, c) * Elems(p);
    }
    if DepsOf(dm, c) * Elems(p) != {} {
      var t :| t in DepsOf(dm, c) * Elems(p);
      var i :| 0 <= i < |c| && c[i] in dm && t in dm[c[i]];
      var j :| 0 <= j < |p| && p[j] == t;
      assert !Independent(dm, c, p);
    }
  }

  /** Where the current group and its neighbours are. */
  ghost predicate At(es: seq<TxEntry>, next: nat, cur: nat, prev: nat, a: seq<seq<Tx>>, c: seq<Tx>, z: seq<seq<Tx>>) {
    && cur == Tail(c) && next == (if z == [] then SENTINEL else Tail(z[0]))
    && prev == (if a == [] then SENTINEL else Tail(a[|a| - 1]))
  }

  lemma {:induction false} Neighbours(dm: Anc, fees: Fees, es: seq<TxEntry>, a: seq<seq<Tx>>, c: seq<Tx>, z: seq<seq<Tx>>)
    requires Stored(dm, fees, es, a + [c] + z)
    ensures GroupStored(dm, fees, es, c) && es[Tail(c)].prevGroup == if a == [] then SENTINEL else Tail(a[|a| - 1])
    ensures a != [] ==> GroupStored(dm, fees, es, a[|a| - 1])
  {
    var ls, n := a + [c] + z, |a|;
    assert ls[n] == c && GroupStored(dm, fees, es, ls[n]);
    assert LinkAt(es, Tails(ls), n);
    if n > 0 {
      assert ls[n - 1] == a[n - 1] && GroupStored(dm, fees, es, ls[n - 1]);
    }
  }

  /** The state of a merge/swap cycle. */
  ghost predicate InCycle(dm: Anc, fees: Fees, src: seq<Tx>, es: seq<TxEntry>, next: nat, cur: nat, prev: nat,
                          a: seq<seq<Tx>>, c: seq<Tx>, z: seq<seq<Tx>>) {
    Stored(dm, fees, es, a + [c] + z) && Cycling(dm, fees, src, a, c, z) && At(es, next, cur, prev, a, c, z)
  }

  /** The fields of the current group and of the one before it, and when the cycle ends. */
  lemma {:induction false} ReadCurrent(dm: Anc, fees: Fees, es: seq<TxEntry>, next: nat, cur: nat, prev: nat,
                                       a: seq<seq<Tx>>, c: seq<Tx>, z: seq<seq<Tx>>)
    requires Stored(dm, fees, es, a + [c] + z) && At(es, next, cur, prev, a, c, z)
    ensures cur < |es| && prev < |es| && es[cur].prevGroup == prev && es[cur].firstTx < |es|
    ensures es[cur].feerate == SeqTotal(fees, c)
    ensures a == [] ==> !Higher(es[cur].feerate, es[prev].feerate)
    ensures a != [] ==> es[prev].feerate == SeqTotal(fees, a[|a| - 1])
    ensures a != [] ==> (es[cur].deps * es[prev].group == {} <==> Independent(dm, c, a[|a| - 1]))
  {
    Neighbours(dm, fees, es, a, c, z);
    assert TxLinked(es, c, 0);
    if a == [] {
      NotAboveEmpty(es[cur].feerate, es[prev].feerate);
    } else {
      OverlapTest(dm, c, a[|a| - 1]);
    }
  }

  lemma {:induction false} NotAboveEmpty(x: FeeFrac, empty: FeeFrac)
    requires empty.fee == 0 && empty.size == 0
    ensures !Higher(x, empty)
  {
    assert x.fee * empty.size == 0;
  }

  lemma {:induction false} MergeInCycle(dm: Anc, fees: Fees, src: seq<Tx>, es: seq<TxEntry>, next: nat, cur: nat, prev: nat,
                                        a: seq<seq<Tx>>, c: seq<Tx>, z: seq<seq<Tx>>)
    requires InCycle(dm, fees, src, es, next, cur, prev, a, c, z) && IsClosure(dm) && a != []
    requires Higher(SeqTotal(fees, c), SeqTotal(fees, a[|a| - 1])) && !Independent(dm, c, a[|a| - 1])
    ensures cur < |es| && prev < |es| && es[cur].firstTx < |es|
    ensures var es2 := Merged(es, cur, prev);
            InCycle(dm, fees, src, es2, next, cur, es2[cur].prevGroup, a[..|a| - 1], a[|a| - 1] + c, z)
  {
    CycleMerge(dm, fees, src, a, c, z);
    StoredMerged(dm, fees, es, a, c, z);
    var a2, c2 := a[..|a| - 1], a[|a| - 1] + c;
    Neighbours(dm, fees, Merged(es, cur, prev), a2, c2, z);
  }

  lemma {:induction false} SwapInCycle(dm: Anc, fees: Fees, src: seq<Tx>, es: seq<TxEntry>, next: nat, cur: nat, prev: nat,
                                       a: seq<seq<Tx>>, c: seq<Tx>, z: seq<seq<Tx>>)
    requires InCycle(dm, fees, src, es, next, cur, prev, a, c, z) && a != []
    requires Higher(SeqTotal(fees, c), SeqTotal(fees, a[|a| - 1])) && Independent(dm, c, a[|a| - 1])
    ensures next < |es| && cur < |es| && prev < |es|
    ensures InCycle(dm, fees, src, Swapped(es, next, cur, prev), prev, cur, es[prev].prevGroup, a[..|a| - 1], c, [a[|a| - 1]] + z)
  {
    CycleSwap(dm, fees, src, a, c, z);
    StoredSwapped(dm, fees, es, a, c, z);
    BeforePrevious(es, a, c, z);
  }

  lemma {:induction false} BeforePrevious(es: seq<TxEntry>, a: seq<seq<Tx>>, c: seq<Tx>, z: seq<seq<Tx>>)
    requires LinksOk(es, Tails(a + [c] + z)) && a != []
    ensures Tail(a[|a| - 1]) < |es| && es[Tail(a[|a| - 1])].prevGroup == if |a| == 1 then SENTINEL else Tail(a[|a| - 2])
  {
    var ls, n := a + [c] + z, |a| - 1;
    assert ls[n] == a[n] && (n > 0 ==> ls[n - 1] == a[n - 1]);
    assert LinkAt(es, Tails(ls), n);
  }

  /** Merge the current group with the one before it, or swap the two. */
  method CycleStep(es: seq<TxEntry>, next: nat, cur: nat, prev: nat, ghost dm: Anc, ghost fees: Fees, ghost src: seq<Tx>,
                   ghost a: seq<seq<Tx>>, ghost c: seq<Tx>, ghost z: seq<seq<Tx>>)
    returns (es2: seq<TxEntry>, next2: nat, prev2: nat, ghost a2: seq<seq<Tx>>, ghost c2: seq<Tx>, ghost z2: seq<seq<Tx>>)
    requires InCycle(dm, fees, src, es, next, cur, prev, a, c, z) && IsClosure(dm)
    requires cur < |es| && prev < |es| && Higher(es[cur].feerate, es[prev].feerate)
    ensures InCycle(dm, fees, src, es2, next2, cur, prev2, a2, c2, z2) && |a2| < |a| && |es2| == |es|
  {
    ReadCurrent(dm, fees, es, next, cur, prev, a, c, z);
    if es[cur].deps * es[prev].group != {} {
      MergeInCycle(dm, fees, src, es, next, cur, prev, a, c, z);
      es2 := Merged(es, cur, prev);
      next2, prev2 := next, es2[cur].prevGroup;
      a2, c2, z2 := a[..|a| - 1], a[|a| - 1] + c, z;
    } else {
      SwapInCycle(dm, fees, src, es, next, cur, prev, a, c, z);
      es2 := Swapped(es, next, cur, prev);
      next2, prev2 := prev, es[prev].prevGroup;
      a2, c2, z2 := a[..|a| - 1], c, [a[|a| - 1]] + z;
    }
  }

  /** Go on as long as the current group has a higher feerate than the one before it. */
  method Cycle(es0: seq<TxEntry>, next0: nat, cur: nat, prev0: nat, ghost dm: Anc, ghost fees: Fees, ghost src: seq<Tx>,
               ghost a0: seq<seq<Tx>>, ghost c0: seq<Tx>, ghost z0: seq<seq<Tx>>)
    returns (es: seq<TxEntry>, ghost ls: seq<seq<Tx>>)
    requires InCycle(dm, fees, src, es0, next0, cur, prev0, a0, c0, z0) && IsClosure(dm)
    ensures |es| == |es0| && Stored(dm, fees, es, ls) && Settled(dm, fees, src, ls)
  {
    es := es0;
    var next: nat, prev: nat := next0, prev0;
    ghost var a, c, z := a0, c0, z0;
    ReadCurrent(dm, fees, es, next, cur, prev, a, c, z);
    while Higher(es[cur].feerate, es[prev].feerate)
      invariant |es| == |es0| && cur < |es| && prev < |es| && InCycle(dm, fees, src, es, next, cur, prev, a, c, z)
      decreases |a|
    {
      es, next, prev, a, c, z := CycleStep(es, next, cur, prev, dm, fees, src, a, c, z);
      ReadCurrent(dm, fees, es, next, cur, prev, a, c, z);
    }
    ReadCurrent(dm, fees, es, next, cur, prev, a, c, z);
    CycleEnd(dm, fees, src, a, c, z);
    ls := a + [c] + z;
  }

  /** Insert transaction `x = src[k]` and move it, and what it is merged with, to its place. */
  method PlaceTx(es0: seq<TxEntry>, x: Tx, deps: set<Tx>, feerate: FeeFrac, ghost dm: Anc, ghost fees: Fees, ghost src: seq<Tx>, ghost k: nat, ghost ls: seq<seq<Tx>>)
    returns (es: seq<TxEntry>, ghost ls2: seq<seq<Tx>>)
    requires IsClosure(dm) && k < |src| && src[k] == x && Distinct(src) && AncestorsFirst(dm, src)
    requires Stored(dm, fees, es0, ls) && Settled(dm, fees, src[..k], ls)
    requires x in dm && deps == dm[x] && feerate == FeeOf(fees, x) && x + 1 < |es0|
    ensures |es| == |es0| && Stored(dm, fees, es, ls2) && Settled(dm, fees, src[..k + 1], ls2)
  {
    es := Appended(es0, x, deps, feerate);
    CycleBegins(es0, x, feerate, dm, fees, src, k, ls);
    es, ls2 := Cycle(es, SENTINEL, x + 1, es[x + 1].prevGroup, dm, fees, src[..k + 1], ls, [x], []);
  }

  lemma {:induction false} CycleBegins(es: seq<TxEntry>, x: Tx, feerate: FeeFrac, dm: Anc, fees: Fees, src: seq<Tx>, k: nat, ls: seq<seq<Tx>>)
    requires IsClosure(dm) && k < |src| && src[k] == x && Distinct(src) && AncestorsFirst(dm, src)
    requires Stored(dm, fees, es, ls) && Settled(dm, fees, src[..k], ls)
    requires x in dm && feerate == FeeOf(fees, x) && x + 1 < |es|
    ensures var es2 := Appended(es, x, dm[x], feerate);
            InCycle(dm, fees, src[..k + 1], es2, SENTINEL, x + 1, es2[x + 1].prevGroup, ls, [x], [])
  {
    assert x !in Elems(Flatten(ls));
    StoredAppended(dm, fees, es, ls, x, feerate);
    CycleStart(dm, fees, src, k, ls);
    assert ls + [[x]] == ls + [[x]] + [];
    Neighbours(dm, fees, Appended(es, x, dm[x], feerate), ls, [x], []);
  }
}
