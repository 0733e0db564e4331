/** `FixLinearization`: make any order of the transactions topological, in place. */
module FixLinearization {
  import opened TxSets
  import opened Diagrams
  import opened Ancestry
  import opened DepGraphs
  import opened Orders

  /** No transaction of `s` comes before one of its ancestors. */
  ghost predicate Ordered(anc: Anc, s: seq<Tx>) {
    forall k, l :: 0 <= k < l < |s| && s[k] in anc ==> s[l] !in anc[s[k]]
  }

  /** Placing `x` right behind its last ancestor in `s`. */
  lemma {:induction false} InsertOrdered(anc: Anc, s: seq<Tx>, m: nat, x: Tx)
    requires IsClosure(anc) && Acyclic(anc) && Ordered(anc, s) && m <= |s| && x in anc && x !in s && Elems(s) <= anc.Keys
    requires forall l :: m <= l < |s| ==> s[l] !in anc[x]
    requires m > 0 ==> s[m - 1] in anc[x]
    ensures Ordered(anc, s[..m] + [x] + s[m..])
  {
    var t := s[..m] + [x] + s[m..];
    forall k, l | 0 <= k < l < |t| && t[k] in anc ensures t[l] !in anc[t[k]] {
      if l == m {
        var a, b := s[m - 1], s[k];
        assert t[k] == b && t[l] == x;
        assert a in Elems(s) && b in Elems(s);
        assert x in anc[b] ==> Inherits(anc, b, x);
      } else if k == m {
        assert t[k] == x && t[l] == s[l - 1];
      } else {
        assert t[k] == s[if k < m then k else k - 1] && t[l] == s[if l < m then l else l - 1];
      }
    }
  }

  lemma {:induction false} OrderedIsTopological(anc: Anc, l: seq<Tx>)
    requires IsClosure(anc) && IsPermutation(l, anc.Keys)
    ensures Ordered(anc, l) <==> AncestorsFirst(anc, l)
  {
    if Ordered(anc, l) {
      forall k | 0 <= k < |l| ensures HasBefore(anc, l, k) {
        assert l[k] in Elems(l);
        forall t | t in anc[l[k]] ensures t in l[..k + 1] {
          assert t in Elems(l);
          var j :| 0 <= j < |l| && l[j] == t;
          assert j <= k;
        }
      }
    }
    if AncestorsFirst(anc, l) {
      forall j, k | 0 <= j < k < |l| && l[j] in anc ensures l[k] !in anc[l[j]] {
        assert HasBefore(anc, l, j);
        assert l[k] !in l[..j + 1];
      }
    }
  }

  /** The array while `elem` is being moved: `m` transactions of the fixed part `s` have been shifted
      to the front, and the place after them is free. */
  ghost predicate Shifting(l: seq<Tx>, front: seq<Tx>, s: seq<Tx>, m: nat) {
    && m <= |s| && |l| == |front| + 1 + |s|
    && l[..|front|] == front
    && (forall k :: 0 <= k < m ==> l[|front| + k] == s[k])
    && forall k :: m <= k < |s| ==> l[|front| + 1 + k] == s[k]
  }

  lemma {:induction false} ShiftOne(l: seq<Tx>, front: seq<Tx>, s: seq<Tx>, m: nat)
    requires Shifting(l, front, s, m) && m < |s|
    ensures Shifting(l[|front| + m := s[m]], front, s, m + 1)
  {
    var l2 := l[|front| + m := s[m]];
    assert l2[..|front|] == l[..|front|];
  }

  lemma {:induction false} ShiftDone(l: seq<Tx>, front: seq<Tx>, s: seq<Tx>, m: nat, x: Tx)
    requires Shifting(l, front, s, m)
    ensures l[|front| + m := x] == front + (s[..m] + [x] + s[m..])
  {
    var l2, t := l[|front| + m := x], front + (s[..m] + [x] + s[m..]);
    forall k | 0 <= k < |l| ensures l2[k] == t[k] {
      if k < |front| {
        assert l[k] == l[..|front|][k];
      } else if k < |front| + m {
        assert l[k] == s[k - |front|];
      } else if k > |front| + m {
        assert l[|front| + 1 + (k - |front| - 1)] == s[k - |front| - 1];
      }
    }
  }

  /** Shift transactions of the fixed part to the front until no ancestor is left behind, and put
      `elem` after them. */
  method ShiftAncestors(lin: array<Tx>, i: nat, elem: Tx, ancestors: set<Tx>, done: set<Tx>, ghost front: seq<Tx>, ghost s: seq<Tx>)
    returns (ghost m: nat)
    requires i < lin.Length && |s| == i && OncePerItem(s) && done == Elems(s) && Shifting(lin[..], front, s, 0)
    modifies lin
    ensures m <= i && lin[..] == front + (s[..m] + [elem] + s[m..])
    ensures Elems(s[m..]) * ancestors == {} && (m > 0 ==> s[m - 1] in ancestors)
  {
    var j: nat := i;
    var placeBefore := done * ancestors;
    assert s[0..] == s;
    while placeBefore != {}
      invariant j <= i && Shifting(lin[..], front, s, i - j)
      invariant placeBefore == Elems(s[i - j..]) * ancestors
      invariant j < i && placeBefore == {} ==> s[i - j - 1] in ancestors
      decreases j
    {
      m := i - j;
      NextToShift(s, m, ancestors);
      var toSwap := lin[lin.Length - 1 - (j - 1)];
      ShiftOne(lin[..], front, s, m);
      placeBefore := placeBefore - {toSwap};
      lin[lin.Length - 1 - j] := toSwap;
      j := j - 1;
    }
    m := i - j;
    ShiftDone(lin[..], front, s, m, elem);
    lin[lin.Length - 1 - j] := elem;
  }

  ghost predicate RestAt(s: seq<Tx>, m: nat)
    requires m < |s|
  {
    Elems(s[m..]) == Elems(s[m + 1..]) + {s[m]} && s[m] !in Elems(s[m + 1..])
  }

  ghost predicate OncePerItem(s: seq<Tx>) {
    forall m {:trigger RestAt(s, m)} :: 0 <= m < |s| ==> RestAt(s, m)
  }

  /** What is left to be shifted. */
  lemma {:induction false} NextToShift(s: seq<Tx>, m: nat, ancestors: set<Tx>)
    requires m <= |s| && OncePerItem(s) && Elems(s[m..]) * ancestors != {}
    ensures m < |s| && Elems(s[m..]) * ancestors - {s[m]} == Elems(s[m + 1..]) * ancestors
    ensures Elems(s[m + 1..]) * ancestors == {} ==> s[m] in ancestors
  {
    var next :| next in Elems(s[m..]) * ancestors;
    assert next in s[m..];
    assert RestAt(s, m);
  }

  lemma {:induction false} DistinctRest(s: seq<Tx>)
    requires Distinct(s)
    ensures OncePerItem(s)
  {
    forall m | 0 <= m < |s| ensures RestAt(s, m) {
      assert s[m..] == [s[m]] + s[m + 1..];
    }
  }

  lemma {:induction false} AroundOne(l: seq<Tx>, n: nat)
    requires Distinct(l) && n < |l|
    ensures l == l[..n] + [l[n]] + l[n + 1..] && l[n] in Elems(l) && OncePerItem(l[n + 1..])
  {
    var s := l[n + 1..];
    assert forall k :: 0 <= k < |s| ==> l[n + 1 + k] == s[k];
    DistinctRest(s);
  }

  // ---------- What keeps its order ----------

  /** The last position with an ancestor of `x`, or -1. */
  ghost function LastAncestor(anc: Anc, was: seq<Tx>, x: Tx): (p: int)
    requires x in anc
    ensures -1 <= p < |was| && (p >= 0 ==> was[p] in anc[x]) && forall q :: p < q < |was| ==> was[q] !in anc[x]
  {
    if was == [] then -1
    else if was[|was| - 1] in anc[x] then |was| - 1
    else LastAncestor(anc, was[..|was| - 1], x)
  }

  /** The last ancestor of `x` in `was` does not come after that of `y`. */
  ghost predicate NotAfter(anc: Anc, was: seq<Tx>, x: Tx, y: Tx) {
    x in anc && y in anc && LastAncestor(anc, was, x) <= LastAncestor(anc, was, y)
  }

  /** The transactions are in the order of their last ancestors in `was`. */
  ghost predicate ByLastAncestor(anc: Anc, was: seq<Tx>, s: seq<Tx>) {
    forall j, k {:trigger NotAfter(anc, was, s[j], s[k])} :: 0 <= j < k < |s| ==> NotAfter(anc, was, s[j], s[k])
  }

  lemma {:induction false} AncestorNotAfter(anc: Anc, was: seq<Tx>, a: Tx, x: Tx)
    requires IsClosure(anc) && x in anc && a in anc[x]
    ensures NotAfter(anc, was, a, x)
  {
    assert Inherits(anc, x, a);
  }

  lemma {:induction false} NoneBehind(s: seq<Tx>, m: nat, ancestors: set<Tx>)
    requires m <= |s| && Elems(s[m..]) * ancestors == {}
    ensures forall k :: m <= k < |s| ==> s[k] !in ancestors
  {
    forall k | m <= k < |s| ensures s[k] !in ancestors {
      assert s[m..][k - m] == s[k];
      assert s[k] !in Elems(s[m..]) * ancestors;
    }
  }

  /** Behind the place of `x` stand only transactions with no earlier last ancestor. */
  lemma {:induction false} BehindNotEarlier(anc: Anc, was: seq<Tx>, n: nat, s: seq<Tx>, m: nat, k: nat)
    requires IsClosure(anc) && Elems(was) <= anc.Keys && n < |was| && was[n] in anc && ByLastAncestor(anc, was, s)
    requires Elems(s) == Elems(was[n + 1..]) && m <= k < |s| && Elems(s[m..]) * anc[was[n]] == {}
    ensures NotAfter(anc, was, was[n], s[k])
  {
    assert s[k] in Elems(s);
    var q :| 0 <= q < |was| - n - 1 && was[n + 1..][q] == s[k];
    assert was[n + 1 + q] == s[k] && s[k] in Elems(was) && s[k] in anc[s[k]];
    var p := LastAncestor(anc, was, was[n]);
    if p > n {
      assert was[n + 1..][p - n - 1] == was[p] && was[p] in Elems(s) && was[p] in Elems(was);
      var l :| 0 <= l < |s| && s[l] == was[p];
      NoneBehind(s, m, anc[was[n]]);
      assert was[p] in anc[was[p]] && NotAfter(anc, was, s[l], s[k]);
    }
  }

  lemma {:induction false} InsertSorted(anc: Anc, was: seq<Tx>, n: nat, s: seq<Tx>, m: nat)
    requires IsClosure(anc) && Elems(was) <= anc.Keys && n < |was| && was[n] in anc && ByLastAncestor(anc, was, s)
    requires Elems(s) == Elems(was[n + 1..]) && m <= |s| && Elems(s[m..]) * anc[was[n]] == {} && (m > 0 ==> s[m - 1] in anc[was[n]])
    ensures ByLastAncestor(anc, was, s[..m] + [was[n]] + s[m..])
  {
    var t, x := s[..m] + [was[n]] + s[m..], was[n];
    forall j, k | 0 <= j < k < |t| ensures NotAfter(anc, was, t[j], t[k]) {
      if j == m {
        BehindNotEarlier(anc, was, n, s, m, k - 1);
      } else if k == m {
        AncestorNotAfter(anc, was, s[m - 1], x);
        assert j < m - 1 ==> NotAfter(anc, was, s[j], s[m - 1]);
      } else {
        assert NotAfter(anc, was, s[if j < m then j else j - 1], s[if k < m then k else k - 1]);
      }
    }
  }

  /** The state of the outer loop: the transactions before position `n` are untouched, those from there on are in the order
      of their last ancestors. */
  ghost predicate Sorted(anc: Anc, was: seq<Tx>, n: nat, l: seq<Tx>) {
    n <= |l| == |was| && l[..n] == was[..n] && ByLastAncestor(anc, was, l[n..])
  }

  lemma {:induction false} SortedStep(anc: Anc, was: seq<Tx>, n: nat, l: seq<Tx>, s: seq<Tx>, m: nat)
    requires IsClosure(anc) && Elems(was) <= anc.Keys && n < |was| && Sorted(anc, was, n + 1, l) && s == l[n + 1..]
    requires Distinct(l) && Distinct(was) && Elems(l) == Elems(was) && m <= |s| && l[n] in anc
    requires Elems(s[m..]) * anc[l[n]] == {} && (m > 0 ==> s[m - 1] in anc[l[n]])
    ensures Sorted(anc, was, n, l[..n] + (s[..m] + [l[n]] + s[m..]))
  {
    assert l[n] == l[..n + 1][n] == was[n];
    SameRest(was, l, n + 1);
    InsertSorted(anc, was, n, s, m);
    var t := s[..m] + [l[n]] + s[m..];
    assert (l[..n] + t)[n..] == t && (l[..n] + t)[..n] == l[..n + 1][..n] == was[..n];
  }

  lemma {:induction false} SameRest(was: seq<Tx>, l: seq<Tx>, n: nat)
    requires n <= |l| == |was| && l[..n] == was[..n] && Distinct(l) && Distinct(was) && Elems(l) == Elems(was)
    ensures Elems(l[n..]) == Elems(was[n..])
  {
    RestWithout(was, n);
    RestWithout(l, n);
  }

  lemma {:induction false} RestWithout(l: seq<Tx>, n: nat)
    requires n <= |l| && Distinct(l)
    ensures Elems(l[n..]) == Elems(l) - Elems(l[..n])
  {
    assert l == l[..n] + l[n..];
    forall x | x in l[..n] ensures x !in l[n..] {}
  }

  lemma {:induction false} SortedStart(anc: Anc, was: seq<Tx>)
    ensures Sorted(anc, was, |was|, was)
  {
    assert was[|was|..] == [];
  }

  /** A transaction comes to stand behind one it was before only if one of its ancestors was there, or behind. */
  lemma {:induction false} OnlyBehindAncestors(anc: Anc, was: seq<Tx>, l: seq<Tx>, i: nat, j: nat, a: nat, b: nat) returns (q: nat)
    requires IsClosure(anc) && ByLastAncestor(anc, was, l)
    requires i < j < |was| && a < b < |l| && l[a] == was[j] && l[b] == was[i]
    ensures j <= q < |was| && was[i] in anc && was[q] in anc[was[i]]
  {
    assert NotAfter(anc, was, l[a], l[b]);
    assert was[j] in anc[was[j]];
    q := LastAncestor(anc, was, was[i]);
  }

  /** Move the transaction before the last `i` ones behind all its ancestors among them. */
  method PlaceOne(depgraph: DepGraph, lin: array<Tx>, i: nat, done: set<Tx>, ghost was: seq<Tx>) returns (elem: Tx)
    requires depgraph.Valid() && Acyclic(depgraph.Ancestors()) && i < lin.Length && Elems(was) <= depgraph.used
    requires Fixed(depgraph.Ancestors(), was, lin.Length - i, lin[..], done)
    requires Distinct(was) && Sorted(depgraph.Ancestors(), was, lin.Length - i, lin[..])
    modifies lin
    ensures Fixed(depgraph.Ancestors(), was, lin.Length - 1 - i, lin[..], done + {elem})
    ensures Sorted(depgraph.Ancestors(), was, lin.Length - 1 - i, lin[..])
  {
    ghost var anc, n, l := depgraph.Ancestors(), lin.Length - 1 - i, lin[..];
    ghost var front, s := l[..n], l[n + 1..];
    elem := lin[lin.Length - 1 - i];
    AroundOne(l, n);
    var m := ShiftAncestors(lin, i, elem, depgraph.entries[elem].ancestors, done, front, s);
    Finish(anc, l, front, elem, s, m);
    SortedStep(anc, was, n, l, s, m);
    FixedStep(anc, was, n, l, lin[..], done);
  }

  /** The transactions from position `n` on are in order now, the others are untouched. */
  ghost predicate Placed(anc: Anc, was: seq<Tx>, n: nat, l: seq<Tx>)
    requires n < |was|
  {
    && |l| == |was| && l[..n] == was[..n] && Distinct(l) && Elems(l) == Elems(was)
    && Ordered(anc, l[n..]) && Elems(l[n..]) == Elems(was[n + 1..]) + {was[n]}
    && (Ordered(anc, was[n..]) ==> l == was)
  }

  lemma {:induction false} Finish(anc: Anc, was: seq<Tx>, front: seq<Tx>, elem: Tx, s: seq<Tx>, m: nat)
    requires IsClosure(anc) && Acyclic(anc) && was == front + [elem] + s && Distinct(was) && Elems(was) <= anc.Keys
    requires Ordered(anc, s) && elem in anc && m <= |s|
    requires Elems(s[m..]) * anc[elem] == {} && (m > 0 ==> s[m - 1] in anc[elem])
    ensures Placed(anc, was, |front|, front + (s[..m] + [elem] + s[m..]))
  {
    var t := s[..m] + [elem] + s[m..];
    SameElements(front, elem, s, m);
    InOrder(anc, was, front, elem, s, m);
    assert (front + t)[|front|..] == t && (front + t)[..|front|] == front;
    assert was[..|front|] == front && was[|front|..] == [elem] + s && was[|front| + 1..] == s && was[|front|] == elem;
    InsertElems(s, m, elem);
    StaysIfOrdered(anc, front, elem, s, m);
  }

  lemma {:induction false} InsertElems(s: seq<Tx>, m: nat, x: Tx)
    requires m <= |s|
    ensures Elems(s[..m] + [x] + s[m..]) == Elems(s) + {x}
  {
    assert s == s[..m] + s[m..];
    assert Elems(s) == Elems(s[..m]) + Elems(s[m..]);
  }

  lemma {:induction false} StaysIfOrdered(anc: Anc, front: seq<Tx>, elem: Tx, s: seq<Tx>, m: nat)
    requires elem in anc && m <= |s| && (m > 0 ==> s[m - 1] in anc[elem])
    ensures Ordered(anc, [elem] + s) ==> front + (s[..m] + [elem] + s[m..]) == front + [elem] + s
  {
    if m > 0 {
      assert ([elem] + s)[0] == elem && ([elem] + s)[m] == s[m - 1];
    }
  }

  lemma {:induction false} InOrder(anc: Anc, was: seq<Tx>, front: seq<Tx>, elem: Tx, s: seq<Tx>, m: nat)
    requires IsClosure(anc) && Acyclic(anc) && was == front + [elem] + s && Distinct(was) && Elems(was) <= anc.Keys
    requires Ordered(anc, s) && elem in anc && m <= |s|
    requires Elems(s[m..]) * anc[elem] == {} && (m > 0 ==> s[m - 1] in anc[elem])
    ensures Ordered(anc, s[..m] + [elem] + s[m..])
  {
    assert forall k :: 0 <= k < |s| ==> was[|front| + 1 + k] == s[k];
    assert was[|front|] == elem;
    NoneBehind(s, m, anc[elem]);
    assert Elems(s) <= Elems(was);
    InsertOrdered(anc, s, m, elem);
  }

  lemma {:induction false} SameElements(front: seq<Tx>, x: Tx, s: seq<Tx>, m: nat)
    requires m <= |s| && Distinct(front + [x] + s)
    ensures Distinct(front + (s[..m] + [x] + s[m..])) && Elems(front + (s[..m] + [x] + s[m..])) == Elems(front + [x] + s)
  {
    var l, n := front + [x] + s, front + (s[..m] + [x] + s[m..]);
    forall k | 0 <= k < |n| ensures n[k] == l[Origin(|front|, m, k)] {}
    forall j, k | 0 <= j < k < |n| ensures n[j] != n[k] {
      assert n[j] == l[Origin(|front|, m, j)] && n[k] == l[Origin(|front|, m, k)];
    }
    InsertElems(s, m, x);
    assert Elems(n) == Elems(front) + Elems(s[..m] + [x] + s[m..]);
    assert Elems(l) == Elems(front) + {x} + Elems(s);
  }

  ghost function Origin(f: nat, m: nat, k: nat): nat {
    if f <= k < f + m then k + 1 else if k == f + m then f else k
  }

  /** The state of the outer loop: from position `n` on, where `done` is, everything is in order. */
  ghost predicate Fixed(anc: Anc, was: seq<Tx>, n: nat, l: seq<Tx>, done: set<Tx>) {
    && n <= |l| == |was| && Distinct(l) && Elems(l) == Elems(was) && Ordered(anc, l[n..]) && Elems(l[n..]) == done
    && (Ordered(anc, was) ==> l == was)
  }

  lemma {:induction false} FixedStep(anc: Anc, was: seq<Tx>, n: nat, l: seq<Tx>, l2: seq<Tx>, done: set<Tx>)
    requires Fixed(anc, was, n + 1, l, done) && Placed(anc, l, n, l2)
    ensures Fixed(anc, was, n, l2, done + {l[n]})
  {
    assert Ordered(anc, was) ==> Ordered(anc, was[n..]);
  }

  lemma {:induction false} FixedStart(anc: Anc, was: seq<Tx>)
    requires Distinct(was)
    ensures Fixed(anc, was, |was|, was, {})
  {
    assert was[|was|..] == [];
  }

  lemma {:induction false} FixedEnd(anc: Anc, was: seq<Tx>, l: seq<Tx>, done: set<Tx>)
    requires IsClosure(anc) && IsPermutation(was, anc.Keys) && Fixed(anc, was, 0, l, done)
    ensures IsLinearization(anc, l) && (IsLinearization(anc, was) ==> l == was)
  {
    assert l[0..] == l;
    OrderedIsTopological(anc, l);
    OrderedIsTopological(anc, was);
  }

  /** Make a permutation topological. One that is topological already stays as it is; in any case the transactions come in
      the order of their last ancestors in the given one. */
  method FixLinearization(depgraph: DepGraph, lin: array<Tx>)
    requires depgraph.Valid() && Acyclic(depgraph.Ancestors()) && IsPermutation(lin[..], depgraph.used)
    modifies lin
    ensures IsLinearization(depgraph.Ancestors(), lin[..])
    ensures IsLinearization(depgraph.Ancestors(), old(lin[..])) ==> lin[..] == old(lin[..])
    ensures ByLastAncestor(depgraph.Ancestors(), old(lin[..]), lin[..])
  {
    ghost var anc, was := depgraph.Ancestors(), lin[..];
    var done: set<Tx> := {};
    FixedStart(anc, was);
    SortedStart(anc, was);
    for i := 0 to lin.Length
      invariant Fixed(anc, was, lin.Length - i, lin[..], done) && Sorted(anc, was, lin.Length - i, lin[..])
    {
      var elem := PlaceOne(depgraph, lin, i, done, was);
      done := done + {elem};
    }
    FixedEnd(anc, was, lin[..], done);
    assert lin[0..] == lin[..];
  }
}
