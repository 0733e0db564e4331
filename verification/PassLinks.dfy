/** The linked lists of `PostLinearize`: every group is a list of its transactions, from back to front,
    and the groups are a list, from back to front too. Entry `t + 1` belongs to transaction `t`, entry 0
    is the sentinel. */
module PassLinks {
  import opened FeeFracs
  import opened TxSets
  import opened Diagrams
  import opened Chunking
  import opened Ancestry

  const SENTINEL: nat := 0
  const NO_PREV_TX: nat := 0

  datatype TxEntry = TxEntry(prevTx: nat, firstTx: nat, prevGroup: nat, group: set<Tx>, deps: set<Tx>, feerate: FeeFrac)

  // ---------- Changes ----------

  /** A group of its own for transaction `x`, at the back of the list. */
  function Appended(es: seq<TxEntry>, x: Tx, deps: set<Tx>, feerate: FeeFrac): (r: seq<TxEntry>)
    requires x + 1 < |es|
    ensures |r| == |es|
  {
    es[x + 1 := TxEntry(NO_PREV_TX, x + 1, es[SENTINEL].prevGroup, {x}, deps, feerate)]
      [SENTINEL := es[SENTINEL].(prevGroup := x + 1)]
  }

  /** The group with tail `prev` moved behind the one with tail `cur`, which it preceded. */
  function Swapped(es: seq<TxEntry>, next: nat, cur: nat, prev: nat): (r: seq<TxEntry>)
    requires next < |es| && cur < |es| && prev < |es|
    ensures |r| == |es|
  {
    var preprev := es[prev].prevGroup;
    var es1 := es[next := es[next].(prevGroup := prev)];
    var es2 := es1[prev := es1[prev].(prevGroup := cur)];
    es2[cur := es2[cur].(prevGroup := preprev)]
  }

  /** The group with tail `prev` merged into the one with tail `cur`. */
  function Merged(es: seq<TxEntry>, cur: nat, prev: nat): (r: seq<TxEntry>)
    requires cur < |es| && prev < |es| && es[cur].firstTx < |es|
    ensures |r| == |es|
  {
    var es1 := es[cur := es[cur].(group := es[cur].group + es[prev].group, deps := es[cur].deps + es[prev].deps,
                                  feerate := es[cur].feerate.Plus(es[prev].feerate))];
    var first := es1[cur].firstTx;
    var es2 := es1[first := es1[first].(prevTx := prev)];
    es2[cur := es2[cur].(firstTx := es2[prev].firstTx, prevGroup := es2[prev].prevGroup)]
  }

  // ---------- The list of groups ----------

  ghost function Tail(p: seq<Tx>): nat {
    if p == [] then SENTINEL else p[|p| - 1] + 1
  }

  ghost function Tails(ls: seq<seq<Tx>>): (ts: seq<nat>)
    ensures |ts| == |ls| && forall i :: 0 <= i < |ls| ==> ts[i] == Tail(ls[i])
  {
    if ls == [] then [] else Tails(ls[..|ls| - 1]) + [Tail(ls[|ls| - 1])]
  }

  ghost predicate LinkAt(es: seq<TxEntry>, ts: seq<nat>, i: nat)
    requires i < |ts|
  {
    0 < ts[i] < |es| && es[ts[i]].prevGroup == if i == 0 then SENTINEL else ts[i - 1]
  }

  /** From the sentinel to the last group, and back to the sentinel. */
  ghost predicate LinksOk(es: seq<TxEntry>, ts: seq<nat>) {
    && |es| > 0 && es[SENTINEL].prevGroup == (if ts == [] then SENTINEL else ts[|ts| - 1])
    && (forall i {:trigger LinkAt(es, ts, i)} :: 0 <= i < |ts| ==> LinkAt(es, ts, i))
    && forall i, j :: 0 <= i < j < |ts| ==> ts[i] != ts[j]
  }

  lemma {:induction false} LinksAppend(es: seq<TxEntry>, ts: seq<nat>, x: Tx, deps: set<Tx>, feerate: FeeFrac)
    requires LinksOk(es, ts) && x + 1 < |es| && x + 1 !in ts
    ensures LinksOk(Appended(es, x, deps, feerate), ts + [x + 1])
  {
    var es2, us := Appended(es, x, deps, feerate), ts + [x + 1];
    forall i | 0 <= i < |us| ensures LinkAt(es2, us, i) {
      if i < |ts| {
        assert LinkAt(es, ts, i);
        assert ts[i] in ts;
      }
    }
  }

  lemma {:induction false} LinksSwap(es: seq<TxEntry>, ts: seq<nat>, k: nat, us: seq<nat>)
    requires LinksOk(es, ts) && 0 < k < |ts| && us == ts[..k - 1] + [ts[k], ts[k - 1]] + ts[k + 1..]
    ensures var next := if k + 1 < |ts| then ts[k + 1] else SENTINEL;
            next < |es| && ts[k] < |es| && ts[k - 1] < |es| && LinksOk(Swapped(es, next, ts[k], ts[k - 1]), us)
  {
    var next := if k + 1 < |ts| then ts[k + 1] else SENTINEL;
    assert LinkAt(es, ts, k) && LinkAt(es, ts, k - 1);
    if k + 1 < |ts| {
      assert LinkAt(es, ts, k + 1);
    }
    var es2 := Swapped(es, next, ts[k], ts[k - 1]);
    assert |us| == |ts|;
    forall i | 0 <= i < |us| ensures us[i] == if i == k - 1 then ts[k] else if i == k then ts[k - 1] else ts[i] {}
    forall i | 0 <= i < |us| ensures LinkAt(es2, us, i) {
      assert LinkAt(es, ts, i);
    }
  }

  lemma {:induction false} LinksMerge(es: seq<TxEntry>, ts: seq<nat>, k: nat, us: seq<nat>)
    requires LinksOk(es, ts) && 0 < k < |ts| && us == ts[..k - 1] + ts[k..]
    requires ts[k] < |es| && es[ts[k]].firstTx < |es|
    ensures ts[k - 1] < |es| && LinksOk(Merged(es, ts[k], ts[k - 1]), us)
  {
    assert LinkAt(es, ts, k) && LinkAt(es, ts, k - 1);
    var es2 := Merged(es, ts[k], ts[k - 1]);
    forall i | 0 <= i < |us| ensures us[i] == if i < k - 1 then ts[i] else ts[i + 1] {}
    forall i | 0 <= i < |us| ensures LinkAt(es2, us, i) {
      assert LinkAt(es, ts, i);
      assert LinkAt(es, ts, i + 1);
    }
  }

  // ---------- The groups themselves ----------

  ghost function DepsOf(dm: Anc, p: seq<Tx>): set<Tx> {
    set i, t | 0 <= i < |p| && p[i] in dm && t in dm[p[i]] :: t
  }

  ghost predicate TxLinked(es: seq<TxEntry>, p: seq<Tx>, j: nat)
    requires j < |p|
  {
    p[j] + 1 < |es| && es[p[j] + 1].prevTx == if j == 0 then NO_PREV_TX else p[j - 1] + 1
  }

  ghost predicate Chained(es: seq<TxEntry>, p: seq<Tx>) {
    p != [] && forall j {:trigger TxLinked(es, p, j)} :: 0 <= j < |p| ==> TxLinked(es, p, j)
  }

  /** The tail of a group knows its first transaction and its aggregates. */
  ghost predicate Summed(dm: Anc, fees: Fees, es: seq<TxEntry>, p: seq<Tx>) {
    && p != [] && Tail(p) < |es|
    && es[Tail(p)].firstTx == p[0] + 1 && es[Tail(p)].group == Elems(p)
    && es[Tail(p)].deps == DepsOf(dm, p) && es[Tail(p)].feerate == SeqTotal(fees, p)
  }

  ghost predicate GroupStored(dm: Anc, fees: Fees, es: seq<TxEntry>, p: seq<Tx>) {
    Chained(es, p) && Summed(dm, fees, es, p)
  }

  ghost predicate SameData(es: seq<TxEntry>, es2: seq<TxEntry>, p: seq<Tx>) {
    |es| == |es2| && forall j :: 0 <= j < |p| && p[j] + 1 < |es| ==>
      es2[p[j] + 1].prevTx == es[p[j] + 1].prevTx && es2[p[j] + 1] == es[p[j] + 1].(prevGroup := es2[p[j] + 1].prevGroup)
  }

  lemma {:induction false} StoredFrame(dm: Anc, fees: Fees, es: seq<TxEntry>, es2: seq<TxEntry>, p: seq<Tx>)
    requires GroupStored(dm, fees, es, p) && SameData(es, es2, p)
    ensures GroupStored(dm, fees, es2, p)
  {
    forall j | 0 <= j < |p| ensures TxLinked(es2, p, j) {
      assert TxLinked(es, p, j);
    }
  }

  lemma {:induction false} StoredAppend(dm: Anc, fees: Fees, es: seq<TxEntry>, x: Tx, feerate: FeeFrac)
    requires x in dm && x + 1 < |es| && feerate == FeeOf(fees, x)
    ensures GroupStored(dm, fees, Appended(es, x, dm[x], feerate), [x])
  {
    var es2 := Appended(es, x, dm[x], feerate);
    SolidSingle(fees, x);
    assert TxLinked(es2, [x], 0);
    assert DepsOf(dm, [x]) == dm[x];
  }

  lemma {:induction false} StoredMerge(dm: Anc, fees: Fees, es: seq<TxEntry>, p: seq<Tx>, c: seq<Tx>)
    requires GroupStored(dm, fees, es, p) && GroupStored(dm, fees, es, c) && Distinct(p + c)
    ensures es[Tail(c)].firstTx < |es| && GroupStored(dm, fees, Merged(es, Tail(c), Tail(p)), p + c)
  {
    var l := p + c;
    assert TxLinked(es, c, 0);
    var es2 := Merged(es, Tail(c), Tail(p));
    assert Tail(l) == Tail(c);
    forall j | 0 <= j < |l| ensures TxLinked(es2, l, j) {
      assert l[|p|] == c[0] && l[|l| - 1] == c[|c| - 1];
      if j < |p| {
        assert l[j] == p[j];
        assert TxLinked(es, p, j);
      } else {
        assert l[j] == c[j - |p|];
        assert TxLinked(es, c, j - |p|);
      }
    }
    SeqTotalConcat(fees, p, c);
    DepsConcat(dm, p, c);
    assert Elems(l) == Elems(c) + Elems(p);
    assert Tail(p) == l[|p| - 1] + 1;
  }

  lemma {:induction false} DepsConcat(dm: Anc, p: seq<Tx>, c: seq<Tx>)
    ensures DepsOf(dm, p + c) == DepsOf(dm, c) + DepsOf(dm, p)
  {
    var l := p + c;
    forall t | t in DepsOf(dm, c) ensures t in DepsOf(dm, l) {
      var i :| 0 <= i < |c| && c[i] in dm && t in dm[c[i]];
      assert l[|p| + i] == c[i];
    }
    forall t | t in DepsOf(dm, p) ensures t in DepsOf(dm, l) {
      var i :| 0 <= i < |p| && p[i] in dm && t in dm[p[i]];
      assert l[i] == p[i];
    }
  }

  // ---------- All together ----------

  ghost predicate AllStored(dm: Anc, fees: Fees, es: seq<TxEntry>, ls: seq<seq<Tx>>) {
    forall i {:trigger GroupStored(dm, fees, es, ls[i])} :: 0 <= i < |ls| ==> GroupStored(dm, fees, es, ls[i])
  }

  /** The entries hold the groups `ls`. */
  ghost predicate Stored(dm: Anc, fees: Fees, es: seq<TxEntry>, ls: seq<seq<Tx>>) {
    && LinksOk(es, Tails(ls)) && AllStored(dm, fees, es, ls)
    && es[SENTINEL].feerate.fee == 0 && es[SENTINEL].feerate.size == 0
  }
}
