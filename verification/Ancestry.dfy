/** Ancestor relations as maps from a transaction to its ancestors, itself included, and what it
    means for one to be the reflexive-transitive closure of a set of dependencies. */
module Ancestry {
  import opened TxSets
  import opened Partitions

  type Anc = map<Tx, set<Tx>>

  /** The ancestors of `j` are ancestors of `i`. */
  ghost predicate Inherits(anc: Anc, i: Tx, j: Tx) {
    i in anc && j in anc && anc[j] <= anc[i]
  }

  /** Reflexive, transitive, and within its own domain. */
  ghost predicate IsClosure(anc: Anc) {
    && (forall i :: i in anc ==> i in anc[i] && anc[i] <= anc.Keys)
    && forall i, j {:trigger Inherits(anc, i, j)} :: i in anc && j in anc[i] ==> Inherits(anc, i, j)
  }

  ghost predicate IsPath(deps: set<Dep>, p: seq<Tx>) {
    |p| > 0 && forall k :: 0 <= k < |p| - 1 ==> Dep(p[k], p[k + 1]) in deps
  }

  ghost predicate PathFromTo(deps: set<Dep>, p: seq<Tx>, a: Tx, b: Tx) {
    IsPath(deps, p) && p[0] == a && p[|p| - 1] == b
  }

  /** A chain of dependencies leads from the ancestor `a` down to `b`. */
  ghost predicate Reaches(deps: set<Dep>, a: Tx, b: Tx) {
    exists p :: PathFromTo(deps, p, a, b)
  }

  /** `anc` is the reflexive-transitive closure of `deps`. */
  ghost predicate Generated(deps: set<Dep>, anc: Anc) {
    && DepsWithin(deps, anc.Keys)
    && forall i, j :: i in anc && j in anc ==> (j in anc[i] <==> Reaches(deps, j, i))
  }

  lemma {:induction false} PathConcat(deps: set<Dep>, a: Tx, b: Tx, c: Tx)
    requires Reaches(deps, a, b) && Reaches(deps, b, c)
    ensures Reaches(deps, a, c)
  {
    var p :| PathFromTo(deps, p, a, b);
    var q :| PathFromTo(deps, q, b, c);
    var r := p + q[1..];
    forall k | 0 <= k < |r| - 1 ensures Dep(r[k], r[k + 1]) in deps {
      if k < |p| - 1 {
        assert Dep(p[k], p[k + 1]) in deps;
      } else {
        assert Dep(q[k - |p| + 1], q[k - |p| + 2]) in deps;
      }
    }
    assert PathFromTo(deps, r, a, c);
  }

  lemma {:induction false} PathMonotone(deps: set<Dep>, more: set<Dep>, a: Tx, b: Tx)
    requires deps <= more && Reaches(deps, a, b)
    ensures Reaches(more, a, b)
  {
    var p :| PathFromTo(deps, p, a, b);
    assert PathFromTo(more, p, a, b);
  }

  lemma {:induction false} PathEdge(deps: set<Dep>, e: Dep)
    requires e in deps
    ensures Reaches(deps, e.parent, e.child)
  {
    assert PathFromTo(deps, [e.parent, e.child], e.parent, e.child);
  }

  lemma {:induction false} PathRefl(deps: set<Dep>, a: Tx)
    ensures Reaches(deps, a, a)
  {
    assert PathFromTo(deps, [a], a, a);
  }

  /** A closed relation that holds the dependencies holds every chain of them. */
  lemma {:induction false} PathInClosure(deps: set<Dep>, anc: Anc, p: seq<Tx>)
    requires IsClosure(anc) && IsPath(deps, p) && p[|p| - 1] in anc
    requires forall e :: e in deps ==> e.child in anc && e.parent in anc[e.child]
    ensures p[0] in anc[p[|p| - 1]]
    decreases |p|
  {
    if |p| > 1 {
      assert Dep(p[|p| - 2], p[|p| - 1]) in deps;
      var q := p[..|p| - 1];
      assert forall k :: 0 <= k < |q| - 1 ==> Dep(q[k], q[k + 1]) == Dep(p[k], p[k + 1]);
      assert Inherits(anc, p[|p| - 1], p[|p| - 2]);
      PathInClosure(deps, anc, q);
    }
  }

  /** The least closed relation above `deps` is the closure of `deps`. */
  lemma {:induction false} LeastIsGenerated(deps: set<Dep>, anc: Anc)
    requires IsClosure(anc) && DepsWithin(deps, anc.Keys)
    requires forall e :: e in deps ==> e.parent in anc[e.child]
    requires forall i, j :: i in anc && j in anc[i] ==> Reaches(deps, j, i)
    ensures Generated(deps, anc)
  {
    forall i, j | i in anc && j in anc && Reaches(deps, j, i) ensures j in anc[i] {
      var p :| PathFromTo(deps, p, j, i);
      PathInClosure(deps, anc, p);
    }
  }

  ghost function ParentDeps(parents: set<Tx>, child: Tx): set<Dep> {
    set p | p in parents :: Dep(p, child)
  }

  /** What `AddDependencies` makes of the relation, given the ancestors `more` that the parents add. */
  ghost function WithParents(anc: Anc, more: set<Tx>, child: Tx): Anc {
    map i | i in anc :: if child in anc[i] then anc[i] + more else anc[i]
  }

  /** `t` is an ancestor of a member of `s`. */
  ghost predicate Covered(anc: Anc, s: set<Tx>, t: Tx) {
    exists p :: p in s && p in anc && t in anc[p]
  }

  ghost predicate IsMore(anc: Anc, parents: set<Tx>, child: Tx, more: set<Tx>)
    requires child in anc && parents <= anc.Keys
  {
    && more !! anc[child]
    && (forall j {:trigger Covered(anc, parents, j)} :: j in more ==> Covered(anc, parents, j))
    && forall p :: p in parents ==> anc[p] <= anc[child] + more
  }

  lemma {:induction false} WithParentsClosed(anc: Anc, parents: set<Tx>, child: Tx, more: set<Tx>)
    requires IsClosure(anc) && child in anc && parents <= anc.Keys && IsMore(anc, parents, child, more)
    ensures IsClosure(WithParents(anc, more, child))
    ensures forall p :: p in parents ==> p in WithParents(anc, more, child)[child]
  {
    var anc' := WithParents(anc, more, child);
    forall i, j | i in anc' && j in anc'[i] ensures Inherits(anc', i, j) {
      assert child in anc[i] ==> Inherits(anc, i, child);
      if j in anc[i] {
        assert Inherits(anc, i, j);
      } else {
        assert Covered(anc, parents, j);
        var p :| p in parents && p in anc && j in anc[p];
        assert Inherits(anc, p, j);
      }
    }
  }

  /** Adding dependencies keeps the relation the closure of everything added so far. */
  lemma {:induction false} AddKeepsGenerated(deps: set<Dep>, anc: Anc, parents: set<Tx>, child: Tx, more: set<Tx>)
    requires IsClosure(anc) && Generated(deps, anc)
    requires child in anc && parents <= anc.Keys && IsMore(anc, parents, child, more)
    ensures IsClosure(WithParents(anc, more, child))
    ensures Generated(deps + ParentDeps(parents, child), WithParents(anc, more, child))
  {
    var anc' := WithParents(anc, more, child);
    var deps' := deps + ParentDeps(parents, child);
    WithParentsClosed(anc, parents, child, more);
    forall i, j | i in anc' && j in anc'[i] ensures Reaches(deps', j, i) {
      if j in anc[i] {
        PathMonotone(deps, deps', j, i);
      } else {
        assert Covered(anc, parents, j);
        var p :| p in parents && p in anc && j in anc[p];
        PathMonotone(deps, deps', j, p);
        PathEdge(deps', Dep(p, child));
        PathMonotone(deps, deps', child, i);
        PathConcat(deps', j, p, child);
        PathConcat(deps', j, child, i);
      }
    }
    forall e | e in deps' ensures e.parent in anc'[e.child] {
      if e in deps {
        PathEdge(deps, e);
      }
    }
    LeastIsGenerated(deps', anc');
  }

  /** The relation restricted to a part of its domain, and dependencies that generate it. */
  ghost function Restrict(anc: Anc, s: set<Tx>): Anc {
    map i | i in anc && i in s :: anc[i] * s
  }

  ghost function AllPairs(anc: Anc): set<Dep> {
    set i, j | i in anc && j in anc[i] :: Dep(j, i)
  }

  lemma {:induction false} RestrictClosed(anc: Anc, s: set<Tx>)
    requires IsClosure(anc)
    ensures IsClosure(Restrict(anc, s)) && Generated(AllPairs(Restrict(anc, s)), Restrict(anc, s))
  {
    var r := Restrict(anc, s);
    var deps := AllPairs(r);
    forall i, j | i in r && j in r[i] ensures Inherits(r, i, j) {
      assert Inherits(anc, i, j);
    }
    forall i, j | i in r && j in r[i] ensures Reaches(deps, j, i) {
      assert Dep(j, i) in deps;
      PathEdge(deps, Dep(j, i));
    }
    LeastIsGenerated(deps, r);
  }

  /** No two transactions are ancestors of each other. */
  ghost predicate Acyclic(anc: Anc) {
    forall i, j :: i in anc && j in anc && j in anc[i] && i in anc[j] ==> i == j
  }

  /** The ancestors of the members of `s`. */
  ghost function AncestorsOf(anc: Anc, s: set<Tx>): set<Tx> {
    set t | t in anc && Covered(anc, s, t)
  }

  ghost predicate Covers(anc: Anc, s: set<Tx>, goal: set<Tx>) {
    forall t {:trigger Covered(anc, s, t)} :: t in goal ==> Covered(anc, s, t)
  }

  ghost predicate Unrelated(anc: Anc, p: Tx, q: Tx) {
    p in anc && q !in anc[p]
  }

  /** `r` covers the strict ancestors of `i`, and no member of it is an ancestor of another. */
  ghost predicate IsReduced(anc: Anc, i: Tx, r: set<Tx>)
    requires i in anc
  {
    && r <= anc[i] - {i}
    && Covers(anc, r, anc[i] - {i})
    && forall p, q {:trigger Unrelated(anc, p, q)} :: p in r && q in r && p != q ==> Unrelated(anc, p, q)
  }

  /** In an acyclic graph, a reduced set of parents is the least set whose ancestors are exactly the
      strict ancestors. */
  lemma {:induction false} ReducedIsLeast(anc: Anc, i: Tx, r: set<Tx>)
    requires IsClosure(anc) && Acyclic(anc) && i in anc && IsReduced(anc, i, r)
    ensures AncestorsOf(anc, r) == anc[i] - {i}
    ensures forall s :: AncestorsOf(anc, s) == anc[i] - {i} && s <= anc.Keys ==> r <= s
  {
    forall j | j in anc && Covered(anc, r, j) ensures j in anc[i] - {i} {
      var p :| p in r && p in anc && j in anc[p];
      assert Inherits(anc, i, p);
    }
    assert forall j :: j in anc[i] - {i} ==> Covered(anc, r, j);
    forall s | AncestorsOf(anc, s) == anc[i] - {i} && s <= anc.Keys ensures r <= s {
      ReducedWithin(anc, i, r, s);
    }
  }

  lemma {:induction false} ReducedWithin(anc: Anc, i: Tx, r: set<Tx>, s: set<Tx>)
    requires IsClosure(anc) && Acyclic(anc) && i in anc && IsReduced(anc, i, r)
    requires AncestorsOf(anc, s) == anc[i] - {i} && s <= anc.Keys
    ensures r <= s
  {
    forall p | p in r ensures p in s {
      assert p in AncestorsOf(anc, s);
      var q :| q in s && q in anc && p in anc[q];
      assert Covered(anc, s, q);
      assert q in AncestorsOf(anc, s);
      assert Covered(anc, r, q);
      var p' :| p' in r && p' in anc && q in anc[p'];
      assert Inherits(anc, p', q);
      assert p == p' || Unrelated(anc, p', p);
    }
  }

  /** A set closed under reduced parents is closed under all ancestors. */
  lemma {:induction false} ClosedUnderAncestors(anc: Anc, reduced: map<Tx, set<Tx>>, s: set<Tx>, t: Tx)
    requires IsClosure(anc) && Acyclic(anc) && reduced.Keys == anc.Keys
    requires forall i :: i in anc ==> IsReduced(anc, i, reduced[i])
    requires forall i, p :: i in s && i in anc && p in reduced[i] ==> p in s
    requires t in s && t in anc
    ensures anc[t] <= s
    decreases |anc[t]|
  {
    forall a | a in anc[t] ensures a in s {
      if a != t {
        assert Covered(anc, reduced[t], a);
        var p :| p in reduced[t] && p in anc && a in anc[p];
        assert Inherits(anc, t, p) && t !in anc[p];
        Smaller(anc[p], anc[t]);
        ClosedUnderAncestors(anc, reduced, s, p);
      }
    }
  }

  lemma {:induction false} Smaller(a: set<Tx>, b: set<Tx>)
    requires a < b
    ensures |a| < |b|
  {
    assert b == a + (b - a);
    assert |b| == |a| + |b - a|;
  }
}
