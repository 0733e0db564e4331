/** The transaction graph of a cluster (`DepGraph`): for every used position a feerate and the sets
    of all ancestors and all descendants, updated in place. */
module DepGraphs {
  import opened FeeFracs
  import opened TxSets
  import opened Partitions
  import opened Ancestry

  datatype Entry = Entry(feerate: FeeFrac, ancestors: set<Tx>, descendants: set<Tx>)

  ghost predicate Fits(capacity: nat, entries: seq<Entry>, used: set<Tx>) {
    && (forall i :: i in used ==> 0 <= i < |entries| <= capacity && entries[i].feerate.size > 0)
    && (|entries| > 0 ==> |entries| - 1 in used)
  }

  ghost function AncestorMap(entries: seq<Entry>, used: set<Tx>): Anc
    requires forall i :: i in used ==> 0 <= i < |entries|
  {
    map i | i in used :: entries[i].ancestors
  }

  ghost function FeesOf(capacity: nat, entries: seq<Entry>, used: set<Tx>): Fees
    requires Fits(capacity, entries, used)
  {
    map i | i in used :: entries[i].feerate
  }

  ghost predicate Mirrored(entries: seq<Entry>, i: Tx, j: Tx)
    requires 0 <= i < |entries| && 0 <= j < |entries|
  {
    j in entries[i].ancestors <==> i in entries[j].descendants
  }

  /** Descendants are the inverse of ancestors. */
  ghost predicate Inverse(entries: seq<Entry>, used: set<Tx>)
    requires forall i :: i in used ==> 0 <= i < |entries|
  {
    && (forall i :: i in used ==> entries[i].descendants <= used)
    && forall i, j {:trigger Mirrored(entries, i, j)} :: i in used && j in used ==> Mirrored(entries, i, j)
  }

  /** Ancestors and descendants are each other's inverse, and ancestors are the reflexive-transitive
      closure of the added dependencies. */
  ghost predicate Consistent(capacity: nat, entries: seq<Entry>, used: set<Tx>, added: set<Dep>) {
    && Fits(capacity, entries, used) && IsClosure(AncestorMap(entries, used))
    && Generated(added, AncestorMap(entries, used)) && Inverse(entries, used)
  }

  ghost function Extended(e: Entry, i: Tx, ancs: set<Tx>, des: set<Tx>): Entry {
    Entry(e.feerate,
          if i in des then e.ancestors + ancs else e.ancestors,
          if i in ancs then e.descendants + des else e.descendants)
  }

  /** The first available position. */
  method FirstFree(capacity: nat, n: nat, used: set<Tx>) returns (idx: Tx)
    requires (forall i :: i in used ==> i < n) && exists i :: 0 <= i < capacity && i !in used
    ensures idx !in used && idx < capacity && idx <= n && forall i :: 0 <= i < idx ==> i in used
  {
    idx := 0;
    while idx in used
      invariant idx <= n && idx <= capacity && forall i :: 0 <= i < idx ==> i in used
      decreases n - idx
    {
      idx := idx + 1;
    }
  }

  /** The entries with an unconnected transaction in the first available position. */
  method WithIsolated(capacity: nat, entries: seq<Entry>, used: set<Tx>, ghost deps: set<Dep>, feerate: FeeFrac) returns (idx: Tx, r: seq<Entry>)
    requires Consistent(capacity, entries, used, deps) && feerate.size > 0 && exists i :: 0 <= i < capacity && i !in used
    ensures idx !in used && forall i :: 0 <= i < idx ==> i in used
    ensures Consistent(capacity, r, used + {idx}, deps)
    ensures FeesOf(capacity, r, used + {idx}) == FeesOf(capacity, entries, used)[idx := feerate]
    ensures AncestorMap(r, used + {idx}) == AncestorMap(entries, used)[idx := {idx}]
  {
    idx := FirstFree(capacity, |entries|, used);
    var entry := Entry(feerate, {idx}, {idx});
    if idx == |entries| {
      r := entries + [entry];
    } else {
      r := entries[idx := entry];
    }
    IsolatedEntries(capacity, entries, used, deps, idx, r);
  }

  /** The entries of the positions that are still used, with nothing else in their sets. */
  method RestrictEntries(entries: seq<Entry>, used: set<Tx>) returns (r: seq<Entry>)
    requires forall i :: i in used ==> 0 <= i < |entries|
    ensures |r| <= |entries| && (forall i :: i in used ==> 0 <= i < |r|) && (|r| > 0 ==> |r| - 1 in used)
    ensures forall i :: 0 <= i < |r| ==> r[i] == Entry(entries[i].feerate, entries[i].ancestors * used, entries[i].descendants * used)
  {
    r := entries;
    while |r| > 0 && |r| - 1 !in used
      invariant r <= entries && forall i :: i in used ==> 0 <= i < |r|
    {
      r := r[..|r| - 1];
    }
    var k, n := 0, |r|;
    while k < n
      invariant 0 <= k <= n == |r| <= |entries|
      invariant forall i :: 0 <= i < k ==> r[i] == Entry(entries[i].feerate, entries[i].ancestors * used, entries[i].descendants * used)
      invariant forall i :: k <= i < n ==> r[i] == entries[i]
    {
      r := r[k := Entry(r[k].feerate, r[k].ancestors * used, r[k].descendants * used)];
      k := k + 1;
    }
  }

  lemma {:induction false} NoNewParents(anc: Anc, parAnc: set<Tx>, child: Tx)
    requires child in anc && parAnc == {}
    ensures WithParents(anc, parAnc, child) == anc
  {
    assert forall i :: i in anc ==> anc[i] + parAnc == anc[i];
  }

  class DepGraph {
    const capacity: nat
    var entries: seq<Entry>
    var used: set<Tx>
    /** Every dependency that was added and is still between used positions; after a removal, the
        ancestor pairs that remain. */
    ghost var added: set<Dep>

    ghost predicate Shape()
      reads this
    {
      Fits(capacity, entries, used)
    }

    /** The ancestor relation. */
    ghost function Ancestors(): Anc
      reads this
      requires Shape()
    {
      AncestorMap(entries, used)
    }

    ghost function FeeMap(): Fees
      reads this
      requires Shape()
    {
      FeesOf(capacity, entries, used)
    }

    ghost predicate Valid()
      reads this
    {
      Consistent(capacity, entries, used, added)
    }

    constructor (capacity: nat)
      ensures Valid() && used == {} && this.capacity == capacity && added == {}
    {
      this.capacity := capacity;
      entries, used, added := [], {}, {};
    }

    /** Add an unconnected transaction in the first available position. */
    method AddTransaction(feerate: FeeFrac) returns (idx: Tx)
      requires Valid() && feerate.size > 0
      requires exists i :: 0 <= i < capacity && i !in used
      modifies this
      ensures Valid() && added == old(added)
      ensures idx !in old(used) && used == old(used) + {idx}
      ensures forall i :: 0 <= i < idx ==> i in old(used)
      ensures FeeMap() == old(FeeMap())[idx := feerate]
      ensures Ancestors() == old(Ancestors())[idx := {idx}]
    {
      idx, entries := WithIsolated(capacity, entries, used, added, feerate);
      used := used + {idx};
    }

    /** Remove positions. A grandparent stays an ancestor when the parent between is removed. */
    method RemoveTransactions(del: set<Tx>)
      requires Valid()
      modifies this
      ensures Valid() && used == old(used) - del
      ensures Ancestors() == Restrict(old(Ancestors()), used)
      ensures FeeMap() == map i | i in used :: old(FeeMap())[i]
    {
      ghost var before, all := entries, used;
      used := used - del;
      entries := RestrictEntries(entries, used);
      RestrictedEntries(capacity, before, all, used, entries);
      added := AllPairs(Ancestors());
    }

    /** Make `child` depend on all of `parents`. */
    method AddDependencies(parents: set<Tx>, child: Tx)
      requires Valid() && child in used && parents <= used
      modifies this
      ensures Valid() && used == old(used) && FeeMap() == old(FeeMap())
      ensures added == old(added) + ParentDeps(parents, child)
    {
      ghost var anc := Ancestors();
      var parAnc := NewAncestors(parents, child);
      AddKeepsGenerated(added, anc, parents, child, parAnc);
      added := added + ParentDeps(parents, child);
      if parAnc == {} {
        NoNewParents(anc, parAnc, child);
        return;
      }
      var chlDes := entries[child].descendants;
      Extend(parAnc, chlDes);
      ExtendedEntries(capacity, old(entries), used, child, parAnc, entries);
    }

    /** Give the new descendants to the ancestors, and the new ancestors to the descendants. */
    method Extend(ancs: set<Tx>, des: set<Tx>)
      requires ancs <= used && des <= used && Shape()
      modifies this`entries
      ensures |entries| == |old(entries)|
      ensures forall i :: 0 <= i < |entries| ==> entries[i] == Extended(old(entries)[i], i, ancs, des)
    {
      UpdateDescendants(ancs, des);
      UpdateAncestors(ancs, des);
    }

    /** The ancestors of `parents` that are not yet ancestors of `child`. */
    method NewAncestors(parents: set<Tx>, child: Tx) returns (parAnc: set<Tx>)
      requires Valid() && child in used && parents <= used
      ensures parAnc <= used && IsMore(Ancestors(), parents, child, parAnc)
    {
      ghost var anc := Ancestors();
      parAnc := {};
      var todo := parents - entries[child].ancestors;
      assert forall p :: p in parents ==> anc[p] <= used;
      forall p | p in parents - todo ensures anc[p] <= anc[child] {
        assert Inherits(anc, child, p);
      }
      while todo != {}
        invariant todo <= parents - entries[child].ancestors && parAnc <= used
        invariant forall j {:trigger Covered(anc, parents, j)} :: j in parAnc ==> Covered(anc, parents, j)
        invariant forall p :: p in parents - todo ==> anc[p] <= anc[child] + parAnc
        decreases todo
      {
        var par :| par in todo;
        parAnc := parAnc + entries[par].ancestors;
        todo := todo - {par};
      }
      parAnc := parAnc - entries[child].ancestors;
    }

    /** To each of `ancs`, add the descendants `des`. */
    method UpdateDescendants(ancs: set<Tx>, des: set<Tx>)
      requires ancs <= used && Shape()
      modifies this`entries
      ensures |entries| == |old(entries)|
      ensures forall i :: 0 <= i < |entries| ==>
        entries[i] == if i in ancs then old(entries)[i].(descendants := old(entries)[i].descendants + des) else old(entries)[i]
    {
      var todo := ancs;
      while todo != {}
        invariant todo <= ancs && |entries| == |old(entries)|
        invariant forall i :: 0 <= i < |entries| ==>
          entries[i] == if i in ancs - todo then old(entries)[i].(descendants := old(entries)[i].descendants + des) else old(entries)[i]
        decreases todo
      {
        var a :| a in todo;
        entries := entries[a := entries[a].(descendants := entries[a].descendants + des)];
        todo := todo - {a};
      }
    }

    /** To each of `des`, add the ancestors `ancs`. */
    method UpdateAncestors(ancs: set<Tx>, des: set<Tx>)
      requires des <= used && Shape()
      modifies this`entries
      ensures |entries| == |old(entries)|
      ensures forall i :: 0 <= i < |entries| ==>
        entries[i] == if i in des then old(entries)[i].(ancestors := old(entries)[i].ancestors + ancs) else old(entries)[i]
    {
      var todo := des;
      while todo != {}
        invariant todo <= des && |entries| == |old(entries)|
        invariant forall i :: 0 <= i < |entries| ==>
          entries[i] == if i in des - todo then old(entries)[i].(ancestors := old(entries)[i].ancestors + ancs) else old(entries)[i]
        decreases todo
      {
        var d :| d in todo;
        entries := entries[d := entries[d].(ancestors := entries[d].ancestors + ancs)];
        todo := todo - {d};
      }
    }

    /** The least set of parents that gives all ancestors, in an acyclic graph. */
    method GetReducedParents(i: Tx) returns (parents: set<Tx>)
      requires Valid() && i in used
      ensures IsReduced(Ancestors(), i, parents)
      ensures Acyclic(Ancestors()) ==>
        && AncestorsOf(Ancestors(), parents) == Ancestors()[i] - {i}
        && forall s :: AncestorsOf(Ancestors(), s) == Ancestors()[i] - {i} && s <= used ==> parents <= s
    {
      ghost var anc := Ancestors();
      assert IsClosure(anc) && anc.Keys == used;
      parents := entries[i].ancestors - {i};
      AllCovered(anc, i);
      var todo := parents;
      while todo != {}
        invariant parents <= anc[i] - {i} && todo <= anc[i] - {i}
        invariant Covers(anc, parents, anc[i] - {i})
        invariant forall p, q {:trigger Unrelated(anc, p, q)} :: p in parents - todo && q in parents && p != q ==> Unrelated(anc, p, q)
        decreases todo
      {
        var parent :| parent in todo;
        todo := todo - {parent};
        if parent in parents {
          ghost var before := parents;
          parents := parents - entries[parent].ancestors + {parent};
          StillCovered(anc, before, parent, anc[i] - {i});
        }
      }
      assert parents - todo == parents;
      if Acyclic(anc) {
        ReducedIsLeast(anc, i, parents);
      }
    }
  }

  /** Dropping the ancestors of a member loses nothing that the member itself does not cover. */
  lemma {:induction false} StillCovered(anc: Anc, s: set<Tx>, p: Tx, goal: set<Tx>)
    requires IsClosure(anc) && s <= anc.Keys && p in s && Covers(anc, s, goal)
    ensures Covers(anc, s - anc[p] + {p}, goal)
  {
    forall t | t in goal ensures Covered(anc, s - anc[p] + {p}, t) {
      assert Covered(anc, s, t);
      var q :| q in s && q in anc && t in anc[q];
      if q in anc[p] {
        assert Inherits(anc, p, q);
      }
    }
  }

  lemma {:induction false} AddIsolated(deps: set<Dep>, anc: Anc, idx: Tx)
    requires IsClosure(anc) && Generated(deps, anc) && idx !in anc
    ensures IsClosure(anc[idx := {idx}]) && Generated(deps, anc[idx := {idx}])
  {
    var anc' := anc[idx := {idx}];
    forall i, j | i in anc' && j in anc'[i] ensures Inherits(anc', i, j) {
      assert i in anc ==> Inherits(anc, i, j);
    }
    forall i, j | i in anc' && j in anc'[i] ensures Reaches(deps, j, i) {
      PathRefl(deps, idx);
    }
    forall e | e in deps ensures e.parent in anc'[e.child] {
      PathEdge(deps, e);
    }
    LeastIsGenerated(deps, anc');
  }

  lemma {:induction false} AllCovered(anc: Anc, i: Tx)
    requires IsClosure(anc) && i in anc
    ensures Covers(anc, anc[i] - {i}, anc[i] - {i})
  {
    forall t | t in anc[i] - {i} ensures Covered(anc, anc[i] - {i}, t) {
      assert t in anc[t];
    }
  }

  lemma {:induction false} InverseIsolated(before: seq<Entry>, used: set<Tx>, idx: Tx, after: seq<Entry>)
    requires (forall i :: i in used ==> 0 <= i < |before| && before[i].ancestors <= used) && Inverse(before, used)
    requires idx !in used && |before| <= |after| && idx < |after|
    requires forall i :: i in used ==> after[i] == before[i]
    requires after[idx].ancestors == {idx} == after[idx].descendants
    ensures Inverse(after, used + {idx})
  {
    forall i, j | i in used + {idx} && j in used + {idx} ensures Mirrored(after, i, j) {
      if i != idx && j != idx { assert Mirrored(before, i, j); }
    }
  }

  lemma {:induction false} IsolatedEntries(capacity: nat, before: seq<Entry>, used: set<Tx>, deps: set<Dep>, idx: Tx, after: seq<Entry>)
    requires Fits(capacity, before, used) && Inverse(before, used)
    requires IsClosure(AncestorMap(before, used)) && Generated(deps, AncestorMap(before, used))
    requires idx !in used && 0 <= idx < capacity
    requires |after| == if idx == |before| then |before| + 1 else |before|
    requires idx < |after| && forall i :: 0 <= i < |before| && i != idx ==> after[i] == before[i]
    requires after[idx].ancestors == {idx} == after[idx].descendants && after[idx].feerate.size > 0
    ensures Fits(capacity, after, used + {idx}) && Inverse(after, used + {idx})
    ensures FeesOf(capacity, after, used + {idx}) == FeesOf(capacity, before, used)[idx := after[idx].feerate]
    ensures var anc := AncestorMap(after, used + {idx});
            && anc == AncestorMap(before, used)[idx := {idx}]
            && IsClosure(anc) && Generated(deps, anc)
  {
    var anc := AncestorMap(before, used);
    IsolatedInverse(before, used, idx, after);
    IsolatedMaps(capacity, before, used, idx, after);
    AddIsolated(deps, anc, idx);
  }

  lemma {:induction false} IsolatedInverse(before: seq<Entry>, used: set<Tx>, idx: Tx, after: seq<Entry>)
    requires (forall i :: i in used ==> 0 <= i < |before|) && Inverse(before, used) && IsClosure(AncestorMap(before, used))
    requires idx !in used && |before| <= |after| && idx < |after|
    requires forall i :: 0 <= i < |before| && i != idx ==> after[i] == before[i]
    requires after[idx].ancestors == {idx} == after[idx].descendants
    ensures Inverse(after, used + {idx})
  {
    var anc := AncestorMap(before, used);
    assert forall i :: i in used ==> anc[i] <= used;
    InverseIsolated(before, used, idx, after);
  }

  lemma {:induction false} IsolatedMaps(capacity: nat, before: seq<Entry>, used: set<Tx>, idx: Tx, after: seq<Entry>)
    requires Fits(capacity, before, used) && idx !in used && 0 <= idx < capacity
    requires |after| == if idx == |before| then |before| + 1 else |before|
    requires idx < |after| && forall i :: 0 <= i < |before| && i != idx ==> after[i] == before[i]
    requires after[idx].ancestors == {idx} && after[idx].feerate.size > 0
    ensures Fits(capacity, after, used + {idx})
    ensures FeesOf(capacity, after, used + {idx}) == FeesOf(capacity, before, used)[idx := after[idx].feerate]
    ensures AncestorMap(after, used + {idx}) == AncestorMap(before, used)[idx := {idx}]
  {
    IsolatedFits(capacity, before, used, idx, after);
  }

  lemma {:induction false} IsolatedFits(capacity: nat, before: seq<Entry>, used: set<Tx>, idx: Tx, after: seq<Entry>)
    requires Fits(capacity, before, used) && idx !in used && 0 <= idx < capacity
    requires |after| == if idx == |before| then |before| + 1 else |before|
    requires idx < |after| && (forall i :: 0 <= i < |before| && i != idx ==> after[i] == before[i]) && after[idx].feerate.size > 0
    ensures Fits(capacity, after, used + {idx}) && forall i :: i in used ==> after[i] == before[i]
  {
  }

  lemma {:induction false} RestrictedEntries(capacity: nat, before: seq<Entry>, all: set<Tx>, used: set<Tx>, after: seq<Entry>)
    requires Fits(capacity, before, all) && Inverse(before, all) && used <= all
    requires IsClosure(AncestorMap(before, all)) && |after| <= |before|
    requires (forall i :: i in used ==> 0 <= i < |after|) && (|after| > 0 ==> |after| - 1 in used)
    requires forall i :: 0 <= i < |after| ==>
      after[i] == Entry(before[i].feerate, before[i].ancestors * used, before[i].descendants * used)
    ensures Fits(capacity, after, used) && Inverse(after, used)
    ensures FeesOf(capacity, after, used) == map i | i in used :: FeesOf(capacity, before, all)[i]
    ensures var anc := AncestorMap(after, used);
            && anc == Restrict(AncestorMap(before, all), used)
            && IsClosure(anc) && Generated(AllPairs(anc), anc)
  {
    forall i, j | i in used && j in used ensures Mirrored(after, i, j) {
      assert Mirrored(before, i, j);
    }
    assert AncestorMap(after, used) == Restrict(AncestorMap(before, all), used);
    RestrictClosed(AncestorMap(before, all), used);
  }

  /** Updating descendants of the new ancestors, and ancestors of the child's descendants, keeps the
      two relations inverse. */
  lemma {:induction false} InverseExtended(before: seq<Entry>, used: set<Tx>, child: Tx, more: set<Tx>, after: seq<Entry>)
    requires (forall i :: i in used ==> 0 <= i < |before|) && Inverse(before, used) && |after| == |before|
    requires child in used && more <= used
    requires forall i :: i in used ==> after[i] == Extended(before[i], i, more, before[child].descendants)
    ensures Inverse(after, used)
    ensures AncestorMap(after, used) == WithParents(AncestorMap(before, used), more, child)
  {
    forall i, j | i in used && j in used ensures Mirrored(after, i, j) {
      assert Mirrored(before, i, j) && Mirrored(before, i, child);
    }
    forall i | i in used ensures after[i].ancestors == WithParents(AncestorMap(before, used), more, child)[i] {
      assert Mirrored(before, i, child);
    }
  }

  lemma {:induction false} ExtendedEntries(capacity: nat, before: seq<Entry>, used: set<Tx>, child: Tx, more: set<Tx>, after: seq<Entry>)
    requires Fits(capacity, before, used) && Inverse(before, used) && |after| == |before|
    requires child in used && more <= used
    requires forall i :: 0 <= i < |after| ==> after[i] == Extended(before[i], i, more, before[child].descendants)
    ensures Fits(capacity, after, used) && Inverse(after, used)
    ensures AncestorMap(after, used) == WithParents(AncestorMap(before, used), more, child)
    ensures FeesOf(capacity, after, used) == FeesOf(capacity, before, used)
  {
    InverseExtended(before, used, child, more, after);
  }
}
