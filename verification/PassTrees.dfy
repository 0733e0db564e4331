/** What a pass achieves on graphs of the right tree shape: an optimal result. */
module PassTrees {
  import opened FeeFracs
  import opened TxSets
  import opened Diagrams
  import opened Chunking
  import opened Ancestry
  import opened Orders
  import opened Connections
  import opened PassMirror
  import opened PassSteps

  // ---------- Tree shapes ----------

  /** What depends on the same transaction is ordered: no transaction has two children. */
  ghost predicate Chains(dm: Anc) {
    forall q, u, v :: u in dm && v in dm && q in dm[u] && q in dm[v] ==> u in dm[v] || v in dm[u]
  }

  /** Graphs where no transaction has more than one child, as found by `GetReducedChildren`. */
  lemma {:induction false} ChainsFromSingle(anc: Anc, des: Anc, children: map<Tx, set<Tx>>)
    requires Inverses(anc, des) && IsClosure(des) && Acyclic(des) && children.Keys == des.Keys
    requires forall i :: i in des ==> IsReduced(des, i, children[i]) && |children[i]| <= 1
    ensures Chains(anc)
  {
    forall q, u, v | u in anc && v in anc && q in anc[u] && q in anc[v] ensures u in anc[v] || v in anc[u] {
      SingleChain(anc, des, children, q, u, v);
    }
  }

  lemma {:induction false} SingleChain(anc: Anc, des: Anc, children: map<Tx, set<Tx>>, q: Tx, u: Tx, v: Tx)
    requires Inverses(anc, des) && IsClosure(des) && Acyclic(des) && children.Keys == des.Keys
    requires forall i :: i in des ==> IsReduced(des, i, children[i]) && |children[i]| <= 1
    requires q in des && u in des[q] && v in des[q]
    ensures u in anc[v] || v in anc[u]
    decreases |des[q]|
  {
    if u != q && v != q {
      assert Covered(des, children[q], u) && Covered(des, children[q], v);
      var p :| p in children[q] && p in des && u in des[p];
      var p' :| p' in children[q] && p' in des && v in des[p'];
      OnlyMember(children[q], p, p');
      assert Inherits(des, q, p) && q !in des[p];
      Smaller(des[p], des[q]);
      SingleChain(anc, des, children, p, u, v);
    }
  }

  lemma {:induction false} OnlyMember(s: set<Tx>, p: Tx, q: Tx)
    requires |s| <= 1 && p in s && q in s
    ensures p == q
  {
    assert s == {p} + (s - {p});
  }

  ghost predicate Rooted(dm: Anc, g: set<Tx>, x: Tx) {
    x in g && x in dm && g <= dm[x]
  }

  /** The part `t` of the group `g` includes all its dependencies in `g`. */
  ghost predicate ClosedIn(dm: Anc, g: set<Tx>, t: set<Tx>) {
    t <= g && forall u, v :: u in t && u in dm && v in g && v in dm[u] ==> v in t
  }

  /** No closed part of `g` without `x` has a higher feerate than `r`. */
  ghost predicate LowWithout(dm: Anc, fees: Fees, g: set<Tx>, x: Tx, r: FeeFrac) {
    forall t {:trigger ClosedIn(dm, g, t)} :: ClosedIn(dm, g, t) && x !in t ==> SetExcess(fees, t, r) <= 0
  }

  /** No closed part of `g` has a higher feerate than `g`. */
  ghost predicate Topped(dm: Anc, fees: Fees, g: set<Tx>) {
    g != {} && forall t {:trigger ClosedIn(dm, g, t)} :: ClosedIn(dm, g, t) ==> SetExcess(fees, t, Total(fees, g)) <= 0
  }

  lemma {:induction false} LowerExcess(fees: Fees, t: set<Tx>, r: FeeFrac, q: FeeFrac)
    requires SetExcess(fees, t, r) <= 0 && r.size > 0 && q.size > 0 && AtLeast(q, r)
    ensures SetExcess(fees, t, q) <= 0
  {
    if t != {} {
      ExcessOfTotal(fees, t, r);
      ExcessOfTotal(fees, t, q);
      ExcessFlip(Total(fees, t), r);
      ExcessFlip(Total(fees, t), q);
      HigherTrans(q, r, Total(fees, t));
    }
  }

  lemma {:induction false} LowWithoutMore(dm: Anc, fees: Fees, g: set<Tx>, x: Tx, r: FeeFrac, q: FeeFrac)
    requires LowWithout(dm, fees, g, x, r) && r.size > 0 && q.size > 0 && AtLeast(q, r)
    ensures LowWithout(dm, fees, g, x, q)
  {
    forall t | ClosedIn(dm, g, t) && x !in t ensures SetExcess(fees, t, q) <= 0 {
      LowerExcess(fees, t, r, q);
    }
  }

  lemma {:induction false} LowWithoutSingle(dm: Anc, fees: Fees, x: Tx, r: FeeFrac)
    ensures LowWithout(dm, fees, {x}, x, r)
  {
    forall t | ClosedIn(dm, {x}, t) && x !in t ensures SetExcess(fees, t, r) <= 0 {
      assert t == {};
    }
  }

  /** Merging with a topped group of feerate `r`. */
  lemma {:induction false} LowWithoutMerge(dm: Anc, fees: Fees, p: set<Tx>, c: set<Tx>, x: Tx)
    requires Topped(dm, fees, p) && LowWithout(dm, fees, c, x, Total(fees, p)) && p !! c
    ensures LowWithout(dm, fees, p + c, x, Total(fees, p))
  {
    forall t | ClosedIn(dm, p + c, t) && x !in t ensures SetExcess(fees, t, Total(fees, p)) <= 0 {
      assert ClosedIn(dm, p, t * p) && ClosedIn(dm, c, t * c);
      assert t == t * p + t * c;
      ExcessUnion(fees, t * p, t * c, Total(fees, p));
    }
  }

  lemma {:induction false} ToppedFrom(dm: Anc, fees: Fees, g: set<Tx>, x: Tx)
    requires Rooted(dm, g, x) && LowWithout(dm, fees, g, x, Total(fees, g))
    ensures Topped(dm, fees, g)
  {
    forall t | ClosedIn(dm, g, t) ensures SetExcess(fees, t, Total(fees, g)) <= 0 {
      if x in t {
        assert t == g;
        ExcessOfTotal(fees, g, Total(fees, g));
      }
    }
  }

  /** In a graph of chains, a group that a rooted group depends on joins it below the same root. */
  lemma {:induction false} RootedMerge(dm: Anc, p: set<Tx>, s: Tx, c: set<Tx>, x: Tx, q: Tx, y: Tx)
    requires IsClosure(dm) && Chains(dm) && Rooted(dm, p, s) && Rooted(dm, c, x) && x !in dm[s]
    requires q in p && y in c && y in dm && q in dm[y]
    ensures Rooted(dm, p + c, x)
  {
    assert Inherits(dm, x, y);
    assert q in dm[x] && q in dm[s];
    assert s in dm[x];
    assert Inherits(dm, x, s);
  }

  // ---------- The groups of a pass ----------

  /** What holds of a group that stays in its place, if the graph has chains only. */
  ghost predicate TreeGroup(dm: Anc, fees: Fees, p: seq<Tx>) {
    p != [] && Rooted(dm, Elems(p), p[|p| - 1]) && Topped(dm, fees, Elems(p)) && SeqTotal(fees, p) == Total(fees, Elems(p))
  }

  ghost predicate TreeGroups(dm: Anc, fees: Fees, ps: seq<seq<Tx>>) {
    forall i {:trigger TreeGroup(dm, fees, ps[i])} :: 0 <= i < |ps| ==> TreeGroup(dm, fees, ps[i])
  }

  lemma {:induction false} TreeGroupsParts(dm: Anc, fees: Fees, a: seq<seq<Tx>>, z: seq<seq<Tx>>)
    requires TreeGroups(dm, fees, a) && TreeGroups(dm, fees, z)
    ensures TreeGroups(dm, fees, a + z) && (a != [] ==> TreeGroups(dm, fees, a[..|a| - 1]))
  {
    forall i | 0 <= i < |a + z| ensures TreeGroup(dm, fees, (a + z)[i]) {
      if i < |a| {
        assert TreeGroup(dm, fees, a[i]);
      } else {
        assert TreeGroup(dm, fees, z[i - |a|]);
      }
    }
    if a != [] {
      var b := a[..|a| - 1];
      forall i | 0 <= i < |b| ensures TreeGroup(dm, fees, b[i]) {
        assert TreeGroup(dm, fees, a[i]);
      }
    }
  }

  lemma {:induction false} TreeGroupsOne(dm: Anc, fees: Fees, p: seq<Tx>)
    requires TreeGroup(dm, fees, p)
    ensures TreeGroups(dm, fees, [p])
  {
    forall i | 0 <= i < |[p]| ensures TreeGroup(dm, fees, [p][i]) {}
  }

  /** What holds of the current group, which ends in the transaction that started it. */
  ghost predicate TreeCurrent(dm: Anc, fees: Fees, c: seq<Tx>) {
    && c != [] && Rooted(dm, Elems(c), c[|c| - 1]) && SeqTotal(fees, c) == Total(fees, Elems(c))
    && Bounded(dm, fees, c, SeqTotal(fees, c))
  }

  ghost predicate Bounded(dm: Anc, fees: Fees, c: seq<Tx>, r: FeeFrac) {
    c != [] && LowWithout(dm, fees, Elems(c), c[|c| - 1], r)
  }

  lemma {:induction false} TreeStart(dm: Anc, fees: Fees, x: Tx)
    requires IsClosure(dm) && x in dm
    ensures TreeCurrent(dm, fees, [x]) && forall r :: Bounded(dm, fees, [x], r)
  {
    SolidSingle(fees, x);
    TotalSingle(fees, x);
    forall r ensures Bounded(dm, fees, [x], r) {
      LowWithoutSingle(dm, fees, x, r);
    }
  }

  lemma {:induction false} TreeDone(dm: Anc, fees: Fees, c: seq<Tx>)
    requires TreeCurrent(dm, fees, c)
    ensures TreeGroup(dm, fees, c)
  {
    ToppedFrom(dm, fees, Elems(c), c[|c| - 1]);
  }

  lemma {:induction false} BoundedMore(dm: Anc, fees: Fees, c: seq<Tx>, r: FeeFrac, q: FeeFrac)
    requires Bounded(dm, fees, c, r) && r.size > 0 && q.size > 0 && AtLeast(q, r)
    ensures Bounded(dm, fees, c, q)
  {
    LowWithoutMore(dm, fees, Elems(c), c[|c| - 1], r, q);
  }

  /** Merging the group before the current one into it, because `y` depends on `q`. */
  lemma {:induction false} TreeMerge(dm: Anc, fees: Fees, p: seq<Tx>, c: seq<Tx>, q: Tx, y: Tx)
    requires IsClosure(dm) && Chains(dm) && TreeCurrent(dm, fees, c) && TreeGroup(dm, fees, p)
    requires Bounded(dm, fees, c, SeqTotal(fees, p))
    requires Distinct(p + c) && c[|c| - 1] !in dm[p[|p| - 1]]
    requires q in p && y in c && y in dm && q in dm[y]
    requires Higher(SeqTotal(fees, p + c), SeqTotal(fees, p))
    ensures TreeCurrent(dm, fees, p + c) && Bounded(dm, fees, p + c, SeqTotal(fees, p))
  {
    assert [] + p + c == p + c;
    PiecesDisjoint([], p, c, p + c);
    RootedMerge(dm, Elems(p), p[|p| - 1], Elems(c), c[|c| - 1], q, y);
    BoundedMerge(dm, fees, p, c);
    SeqAsSet(fees, p + c, SeqTotal(fees, p));
    BoundedMore(dm, fees, p + c, SeqTotal(fees, p), SeqTotal(fees, p + c));
  }

  lemma {:induction false} BoundedMerge(dm: Anc, fees: Fees, p: seq<Tx>, c: seq<Tx>)
    requires TreeGroup(dm, fees, p) && Bounded(dm, fees, c, SeqTotal(fees, p))
    requires Elems(p) !! Elems(c) && Elems(p + c) == Elems(p) + Elems(c)
    ensures Bounded(dm, fees, p + c, SeqTotal(fees, p))
  {
    LowWithoutMerge(dm, fees, Elems(p), Elems(c), c[|c| - 1]);
  }

  // ---------- Optimality ----------

  /** A closed part of a topped group is worth no more than the group. */
  lemma {:induction false} ToppedWorth(dm: Anc, fees: Fees, g: set<Tx>, t: set<Tx>, r: FeeFrac)
    requires Topped(dm, fees, g) && ClosedIn(dm, g, t) && r.size > 0
    ensures SetExcess(fees, t, r) <= Pos(SetExcess(fees, g, r))
  {
    var f, u := Total(fees, g), g - t;
    ExcessOfTotal(fees, g, r);
    ExcessOfTotal(fees, g, f);
    assert g == t + u;
    ExcessUnion(fees, t, u, f);
    ExcessUnion(fees, t, u, r);
    if AtLeast(f, r) {
      if u != {} {
        ExcessOfTotal(fees, u, f);
        ExcessOfTotal(fees, u, r);
        HigherTrans(Total(fees, u), f, r);
      }
    } else {
      ExcessFlip(f, r);
      LowerExcess(fees, t, f, r);
    }
  }

  lemma {:induction false} ToppedStep(dm: Anc, fees: Fees, l: seq<Tx>, p: seq<Tx>, s: set<Tx>, r: FeeFrac)
    requires Topped(dm, fees, Elems(p)) && Distinct(l + p) && r.size > 0
    requires forall t :: t in s ==> t in dm && dm[t] <= s
    ensures SetExcess(fees, s * Elems(l + p), r) <= SetExcess(fees, s * Elems(l), r) + Pos(SeqExcess(fees, p, r))
  {
    assert [] + l + p == l + p;
    PiecesDisjoint([], l, p, l + p);
    assert s * Elems(l + p) == s * Elems(l) + s * Elems(p);
    ExcessUnion(fees, s * Elems(l), s * Elems(p), r);
    ToppedWorth(dm, fees, Elems(p), s * Elems(p), r);
    assert forall i :: 0 <= i < |p| ==> (l + p)[|l| + i] == p[i];
    SeqAsSet(fees, p, r);
  }

  /** No closed set is worth more than the topped groups it is spread over. */
  lemma {:induction false} ToppedBound(dm: Anc, fees: Fees, ps: seq<seq<Tx>>, s: set<Tx>, r: FeeFrac)
    requires forall i :: 0 <= i < |ps| ==> Topped(dm, fees, Elems(ps[i]))
    requires Distinct(Flatten(ps)) && r.size > 0
    requires forall t :: t in s ==> t in dm && dm[t] <= s
    ensures SetExcess(fees, s * Elems(Flatten(ps)), r) <= SumWorth(fees, ps, r)
    decreases |ps|
  {
    if ps == [] {
      assert s * Elems(Flatten(ps)) == {};
    } else {
      var qs, p := ps[..|ps| - 1], ps[|ps| - 1];
      assert Distinct(Flatten(qs)) by {
        assert forall i :: 0 <= i < |Flatten(qs)| ==> Flatten(ps)[i] == Flatten(qs)[i];
      }
      ToppedBound(dm, fees, qs, s, r);
      ToppedStep(dm, fees, Flatten(qs), p, s, r);
    }
  }

  /** A linearization made of topped groups, by non-increasing feerate, is optimal. */
  lemma {:induction false} TreeOptimal(dm: Anc, fees: Fees, ps: seq<seq<Tx>>)
    requires TreeGroups(dm, fees, ps) && IsChunking(fees, Flatten(ps), ps) && IsPermutation(Flatten(ps), dm.Keys)
    ensures IsOptimal(dm, fees, Flatten(ps))
  {
    assert forall i :: 0 <= i < |ps| ==> TreeGroup(dm, fees, ps[i]);
    forall s | AncestorClosed(dm, s) ensures NotAbove(fees, s, Flatten(ps)) {
      forall r: FeeFrac | r.size > 0 ensures SetExcess(fees, s, r) <= Best(fees, Flatten(ps), r) {
        ToppedBound(dm, fees, ps, s, r);
        assert s * Elems(Flatten(ps)) == s;
        ChunksAreDiagram(fees, ps, r);
      }
    }
  }
}
