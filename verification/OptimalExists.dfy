/** For every acyclic graph there is an optimal state: topological, and without improvable dependency. */
module OptimalStates {
  import opened FeeFracs
  import opened TxSets
  import opened Partitions
  import opened Forests
  import opened ForestStates
  import opened MergeSearch
  import opened ForestRuns
  import opened Outputs

  /** `x` holds, with a transaction, its parents in `c`. */
  ghost predicate ClosedIn(deps: seq<Dep>, c: set<Tx>, x: set<Tx>) {
    x <= c && forall d :: 0 <= d < |deps| && deps[d].child in x && deps[d].parent in c ==> deps[d].parent in x
  }

  /** The weights of `c` add up to zero, and no closed part of it is heavier. */
  ghost predicate Balanced(deps: seq<Dep>, w: map<Tx, int>, c: set<Tx>) {
    && c <= w.Keys && Weight(w, c) == 0
    && forall x {:trigger ClosedIn(deps, c, x)} :: ClosedIn(deps, c, x) ==> Weight(w, x) <= 0
  }

  /** Transactions of `c` are in chunks of weight zero inside of it, and no top there weighs more than zero. */
  ghost predicate ChunkGood(w: map<Tx, int>, f: Forest, c: set<Tx>, t: Tx) {
    t in f.part && f.part[t] <= c && Weight(w, f.part[t]) == 0
  }

  ghost predicate GoodOn(deps: seq<Dep>, w: map<Tx, int>, f: Forest, c: set<Tx>)
    requires InRange(deps, f.act)
  {
    && (forall t {:trigger ChunkGood(w, f, c, t)} :: t in c ==> ChunkGood(w, f, c, t))
    && forall d :: d in f.act && deps[d].parent in c ==> d in f.top && Weight(w, f.top[d]) <= 0
  }

  /** No dependency inside of `c` leads from one chunk to another. */
  ghost predicate NoneBetween(deps: seq<Dep>, f: Forest, c: set<Tx>) {
    forall d :: 0 <= d < |deps| && deps[d].parent in c && deps[d].child in c ==>
      deps[d].parent in f.part && deps[d].child in f.part && f.part[deps[d].parent] == f.part[deps[d].child]
  }

  /** Nothing changed outside of `c`. */
  ghost predicate SameOutside(deps: seq<Dep>, f: Forest, h: Forest, c: set<Tx>)
    requires InRange(deps, f.act) && InRange(deps, h.act)
  {
    f.part.Keys == h.part.Keys && forall t {:trigger SameAt(deps, f, h, t)} :: t in f.part && t !in c ==> SameAt(deps, f, h, t)
  }

  lemma {:induction false} SameOutsideTrans(deps: seq<Dep>, f: Forest, g: Forest, h: Forest, c: set<Tx>)
    requires InRange(deps, f.act) && InRange(deps, g.act) && InRange(deps, h.act)
    requires SameOutside(deps, f, g, c) && SameOutside(deps, g, h, c)
    ensures SameOutside(deps, f, h, c)
  {
    forall t | t in f.part && t !in c ensures SameAt(deps, f, h, t) {
      assert SameAt(deps, f, g, t) && SameAt(deps, g, h, t);
      SameTrans(deps, f, g, h, t);
    }
  }

  lemma {:induction false} SameOutsideRefl(deps: seq<Dep>, f: Forest, c: set<Tx>)
    requires IsForest(deps, f)
    ensures SameOutside(deps, f, f, c)
  {
    forall t | t in f.part && t !in c ensures SameAt(deps, f, f, t) {
      forall d | d in ActiveIn(deps, f.act, f.part[t]) ensures d in f.top {}
    }
  }

  // ---------- Joining chunks of weight zero ----------

  /** Joining two chunks of weight zero changes the weight of no top. */
  lemma {:induction false} JoinedTopWeight(deps: seq<Dep>, w: map<Tx, int>, f: Forest, c: set<Tx>, d: DepIdx, e: DepIdx)
    requires IsForest(deps, f) && GoodOn(deps, w, f, c) && d < |deps| && deps[d].parent in c && deps[d].child in c
    requires f.part[deps[d].parent] != f.part[deps[d].child] && e in Activated(deps, f, d).act && deps[e].parent in c
    ensures e in Activated(deps, f, d).top && Weight(w, Activated(deps, f, d).top[e]) <= 0
  {
    var a, b := f.part[deps[d].parent], f.part[deps[d].child];
    assert ChunkGood(w, f, c, deps[d].parent) && ChunkGood(w, f, c, deps[d].child);
    OtherChunk(f.part, deps[d].parent, deps[d].child);
    if e != d {
      TreeEnds(deps, f, e);
      var T := f.top[e];
      if deps[e].parent in a && deps[d].parent in T {
        assert f.part[deps[e].parent] == a;
        WeightUnion(w, T, b);
      } else if deps[e].parent in b && deps[d].child in T {
        assert f.part[deps[e].parent] == b;
        WeightUnion(w, T, a);
      }
    }
  }

  lemma {:induction false} JoinedChunkGood(deps: seq<Dep>, w: map<Tx, int>, f: Forest, c: set<Tx>, d: DepIdx, t: Tx)
    requires IsForest(deps, f) && GoodOn(deps, w, f, c) && d < |deps| && deps[d].parent in c && deps[d].child in c && t in c
    requires f.part[deps[d].parent] != f.part[deps[d].child]
    ensures ChunkGood(w, Activated(deps, f, d), c, t)
  {
    var p, q := deps[d].parent, deps[d].child;
    assert ChunkGood(w, f, c, p) && ChunkGood(w, f, c, q) && ChunkGood(w, f, c, t);
    OtherChunk(f.part, p, q);
    WeightUnion(w, f.part[p], f.part[q]);
  }

  lemma {:induction false} JoinGood(deps: seq<Dep>, w: map<Tx, int>, f: Forest, c: set<Tx>, d: DepIdx)
    requires IsForest(deps, f) && GoodOn(deps, w, f, c) && d < |deps| && deps[d].parent in c && deps[d].child in c
    requires f.part[deps[d].parent] != f.part[deps[d].child]
    ensures IsForest(deps, Activated(deps, f, d)) && GoodOn(deps, w, Activated(deps, f, d), c) && SameOutside(deps, f, Activated(deps, f, d), c)
    ensures |Chunks(Activated(deps, f, d).part)| < |Chunks(f.part)|
  {
    var h := Activated(deps, f, d);
    var p, q := deps[d].parent, deps[d].child;
    ActivateKeepsForest(deps, f, d);
    forall t | t in c ensures ChunkGood(w, h, c, t) {
      JoinedChunkGood(deps, w, f, c, d, t);
    }
    forall e | e in h.act && deps[e].parent in c ensures e in h.top && Weight(w, h.top[e]) <= 0 {
      JoinedTopWeight(deps, w, f, c, d, e);
    }
    forall t | t in f.part && t !in c ensures SameAt(deps, f, h, t) {
      ActivatedSame(deps, f, d, t);
    }
    FewerChunks(f.part, p, q);
  }

  /** Join chunks until no dependency leads from one to another. */
  lemma {:induction false} JoinAll(deps: seq<Dep>, w: map<Tx, int>, f: Forest, c: set<Tx>) returns (h: Forest)
    requires IsForest(deps, f) && GoodOn(deps, w, f, c)
    ensures IsForest(deps, h) && GoodOn(deps, w, h, c) && NoneBetween(deps, h, c) && SameOutside(deps, f, h, c) && f.act <= h.act
    decreases |Chunks(f.part)|
  {
    if d :| 0 <= d < |deps| && deps[d].parent in c && deps[d].child in c && f.part[deps[d].parent] != f.part[deps[d].child] {
      JoinGood(deps, w, f, c, d);
      var g := Activated(deps, f, d);
      h := JoinAll(deps, w, g, c);
      SameOutsideTrans(deps, f, g, h, c);
    } else {
      h := f;
      SameOutsideRefl(deps, f, c);
    }
  }

  // ---------- Splitting a balanced set ----------

  /** A closed part of weight zero and the rest are balanced too. */
  lemma {:induction false} BalancedParts(deps: seq<Dep>, w: map<Tx, int>, c: set<Tx>, x: set<Tx>)
    requires Balanced(deps, w, c) && ClosedIn(deps, c, x) && Weight(w, x) == 0
    ensures Balanced(deps, w, x) && Balanced(deps, w, c - x)
  {
    assert c == x + (c - x);
    WeightUnion(w, x, c - x);
    forall y | ClosedIn(deps, x, y) ensures Weight(w, y) <= 0 {
      assert ClosedIn(deps, c, y);
    }
    forall y | ClosedIn(deps, c - x, y) ensures Weight(w, y) <= 0 {
      assert ClosedIn(deps, c, x + y);
      WeightUnion(w, x, y);
    }
  }

  /** All transactions of `c` are alone. */
  ghost predicate Apart(f: Forest, c: set<Tx>) {
    forall t :: t in c ==> t in f.part && f.part[t] == {t}
  }

  lemma {:induction false} StillGood(deps: seq<Dep>, w: map<Tx, int>, f: Forest, h: Forest, x: set<Tx>, y: set<Tx>)
    requires IsForest(deps, f) && IsForest(deps, h) && GoodOn(deps, w, f, x) && SameOutside(deps, f, h, y) && x !! y && x <= f.part.Keys
    ensures GoodOn(deps, w, h, x)
  {
    forall t | t in x ensures ChunkGood(w, h, x, t) {
      assert ChunkGood(w, f, x, t) && SameAt(deps, f, h, t);
    }
    forall d | d in h.act && deps[d].parent in x ensures d in h.top && Weight(w, h.top[d]) <= 0 {
      assert SameAt(deps, f, h, deps[d].parent);
      assert deps[d].parent in h.part[deps[d].parent];
      assert d in ActiveIn(deps, h.act, h.part[deps[d].parent]);
    }
  }

  lemma {:induction false} GoodTogether(deps: seq<Dep>, w: map<Tx, int>, f: Forest, x: set<Tx>, y: set<Tx>)
    requires InRange(deps, f.act) && GoodOn(deps, w, f, x) && GoodOn(deps, w, f, y)
    ensures GoodOn(deps, w, f, x + y)
  {
    forall t | t in x + y ensures ChunkGood(w, f, x + y, t) {
      assert t in x ==> ChunkGood(w, f, x, t);
      assert t in y ==> ChunkGood(w, f, y, t);
    }
  }

  /** A transaction alone in its chunk has no active dependency to a child. */
  lemma {:induction false} AloneGood(deps: seq<Dep>, w: map<Tx, int>, f: Forest, t: Tx)
    requires IsForest(deps, f) && t in f.part && f.part[t] == {t} && Weight(w, {t}) == 0
    ensures GoodOn(deps, w, f, {t})
  {
    forall u | u in {t} ensures ChunkGood(w, f, {t}, u) {}
    forall d | d in f.act ensures deps[d].parent != t {
      TreeEnds(deps, f, d);
    }
  }

  // ---------- Shifting weight along a dependency ----------

  lemma {:induction false} Heaviest(w: map<Tx, int>, fam: set<set<Tx>>) returns (x: set<Tx>)
    requires fam != {}
    ensures x in fam && forall y :: y in fam ==> Weight(w, y) <= Weight(w, x)
    decreases |fam|
  {
    var y :| y in fam;
    if fam == {y} {
      x := y;
    } else {
      x := Heaviest(w, fam - {y});
      if Weight(w, y) > Weight(w, x) {
        x := y;
      }
    }
  }

  /** The weights after `k` is moved from `q` to `p`. */
  ghost function Moved(w: map<Tx, int>, p: Tx, q: Tx, k: int): map<Tx, int>
    requires p in w && q in w && p != q
  {
    var v := w[p := w[p] + k];
    v[q := v[q] + -k]
  }

  lemma {:induction false} MovedWeight(w: map<Tx, int>, p: Tx, q: Tx, k: int, x: set<Tx>)
    requires p in w && q in w && p != q
    ensures Weight(Moved(w, p, q, k), x) == Weight(w, x) + (if p in x then k else 0) - if q in x then k else 0
  {
    WeightBump(w, x, p, k);
    WeightBump(w[p := w[p] + k], x, q, -k);
  }

  /** The closed parts of `c` with `p` but without `q`. */
  ghost function Between(deps: seq<Dep>, c: set<Tx>, p: Tx, q: Tx): set<set<Tx>> {
    set x | x <= c && ClosedIn(deps, c, x) && p in x && q !in x
  }

  lemma {:induction false} SomeBetween(deps: seq<Dep>, c: set<Tx>, rank: map<Tx, nat>, d: DepIdx)
    requires Ranked(deps, rank) && c <= rank.Keys && d < |deps| && deps[d].parent in c && deps[d].child in c
    ensures Between(deps, c, deps[d].parent, deps[d].child) != {}
  {
    var e := deps[d];
    assert e in deps;
    var x := set t | t in c && rank[t] <= rank[e.parent];
    assert ClosedIn(deps, c, x) by {
      forall i | 0 <= i < |deps| && deps[i].child in x && deps[i].parent in c ensures deps[i].parent in x {
        assert deps[i] in deps;
      }
    }
    assert x in Between(deps, c, e.parent, e.child);
  }

  /** Moving weight from the child of a dependency to its parent, as much as possible, leaves the set balanced and makes
      the weight of a closed part with only the parent zero. */
  lemma {:induction false} ShiftWeight(deps: seq<Dep>, w: map<Tx, int>, c: set<Tx>, rank: map<Tx, nat>, d: DepIdx)
    returns (k: int, x: set<Tx>)
    requires Balanced(deps, w, c) && Ranked(deps, rank) && c <= rank.Keys && d < |deps| && deps[d].parent in c && deps[d].child in c
    ensures deps[d].parent != deps[d].child && k >= 0
    ensures var v := Moved(w, deps[d].parent, deps[d].child, k);
            Balanced(deps, v, c) && ClosedIn(deps, c, x) && Weight(v, x) == 0 && deps[d].parent in x && deps[d].child !in x
  {
    var p, q := deps[d].parent, deps[d].child;
    assert deps[d] in deps;
    SomeBetween(deps, c, rank, d);
    x := Heaviest(w, Between(deps, c, p, q));
    k := -Weight(w, x);
    var v := Moved(w, p, q, k);
    MovedWeight(w, p, q, k, c);
    MovedWeight(w, p, q, k, x);
    forall y | ClosedIn(deps, c, y) ensures Weight(v, y) <= 0 {
      MovedWeight(w, p, q, k, y);
      if p in y && q !in y {
        assert y in Between(deps, c, p, q);
      }
    }
  }

  /** Back to the weights before the shift, once the dependency is active: other tops hold both its ends or none. */
  lemma {:induction false} ShiftBack(deps: seq<Dep>, w: map<Tx, int>, h: Forest, c: set<Tx>, d: DepIdx, k: int)
    requires IsForest(deps, h) && d in h.act && deps[d].parent in c && deps[d].child in c && c <= w.Keys && c <= h.part.Keys
    requires deps[d].parent != deps[d].child && k >= 0 && GoodOn(deps, Moved(w, deps[d].parent, deps[d].child, k), h, c)
    ensures GoodOn(deps, w, h, c)
  {
    var p, q := deps[d].parent, deps[d].child;
    var v := Moved(w, p, q, k);
    TreeEnds(deps, h, d);
    forall t | t in c ensures ChunkGood(w, h, c, t) {
      assert ChunkGood(v, h, c, t);
      MovedWeight(w, p, q, k, h.part[t]);
      assert p in h.part[t] <==> q in h.part[t];
    }
    forall e | e in h.act && deps[e].parent in c ensures e in h.top && Weight(w, h.top[e]) <= 0 {
      MovedWeight(w, p, q, k, h.top[e]);
      TreeEnds(deps, h, e);
      if e != d {
        NotAcross(deps, h, e, d);
      }
    }
  }

  /** A top holds both ends of another active dependency or none of them. */
  lemma {:induction false} NotAcross(deps: seq<Dep>, h: Forest, e: DepIdx, d: DepIdx)
    requires IsForest(deps, h) && d in h.act && e in h.act && d != e
    ensures e in h.top && !Crosses(deps[d], h.top[e])
  {
    TreeEnds(deps, h, d);
    TreeEnds(deps, h, e);
    var c := h.part[deps[e].parent];
    assert TreeAt(deps, h, deps[e].parent);
    assert IsBridge(deps, ActiveIn(deps, h.act, c), h.top, c, e);
    if deps[d].parent !in c {
      OtherChunk(h.part, deps[e].parent, deps[d].parent);
    }
  }

  lemma {:induction false} Smaller(x: set<Tx>, c: set<Tx>)
    requires x <= c && x != {} && x != c
    ensures |x| < |c| && |c - x| < |c| && x + (c - x) == c
  {
    assert c == x + (c - x);
    assert c - x != {};
  }

  lemma {:induction false} SettleParts(deps: seq<Dep>, w: map<Tx, int>, c: set<Tx>, x: set<Tx>, rank: map<Tx, nat>, f: Forest)
    returns (h: Forest)
    requires IsForest(deps, f) && Balanced(deps, w, c) && Apart(f, c) && Ranked(deps, rank) && c <= rank.Keys
    requires ClosedIn(deps, c, x) && x != {} && x != c && Weight(w, x) == 0
    ensures IsForest(deps, h) && GoodOn(deps, w, h, c) && GoodOn(deps, w, h, x) && SameOutside(deps, f, h, c)
    decreases |c|, 0
  {
    Smaller(x, c);
    BalancedParts(deps, w, c, x);
    var g := Settle(deps, w, x, rank, f);
    assert Apart(g, c - x) by {
      forall t | t in c - x ensures t in g.part && g.part[t] == {t} {
        assert SameAt(deps, f, g, t);
      }
    }
    h := Settle(deps, w, c - x, rank, g);
    StillGood(deps, w, g, h, x, c - x);
    GoodTogether(deps, w, h, x, c - x);
    forall t | t in f.part && t !in c ensures SameAt(deps, f, h, t) {
      assert SameAt(deps, f, g, t) && SameAt(deps, g, h, t);
      SameTrans(deps, f, g, h, t);
    }
  }

  /** Any balanced set can be made into chunks of weight zero, with no dependency between them, and no top above zero. */
  lemma {:induction false} Settle(deps: seq<Dep>, w: map<Tx, int>, c: set<Tx>, rank: map<Tx, nat>, f: Forest) returns (h: Forest)
    requires IsForest(deps, f) && Balanced(deps, w, c) && Apart(f, c) && Ranked(deps, rank) && c <= rank.Keys
    ensures IsForest(deps, h) && GoodOn(deps, w, h, c) && NoneBetween(deps, h, c) && SameOutside(deps, f, h, c)
    decreases |c|, 2
  {
    if c == {} {
      h := f;
      SameOutsideRefl(deps, f, c);
    } else if x :| ClosedIn(deps, c, x) && x != {} && x != c && Weight(w, x) == 0 {
      var g := SettleParts(deps, w, c, x, rank, f);
      h := JoinAll(deps, w, g, c);
      SameOutsideTrans(deps, f, g, h, c);
    } else if d :| 0 <= d < |deps| && deps[d].parent in c && deps[d].child in c {
      h := SettleAlong(deps, w, c, rank, f, d);
    } else {
      NoDependencies(deps, w, c, f);
      h := f;
      SameOutsideRefl(deps, f, c);
    }
  }

  lemma {:induction false} SettleAlong(deps: seq<Dep>, w: map<Tx, int>, c: set<Tx>, rank: map<Tx, nat>, f: Forest, d: DepIdx)
    returns (h: Forest)
    requires IsForest(deps, f) && Balanced(deps, w, c) && Apart(f, c) && Ranked(deps, rank) && c <= rank.Keys
    requires d < |deps| && deps[d].parent in c && deps[d].child in c
    ensures IsForest(deps, h) && GoodOn(deps, w, h, c) && NoneBetween(deps, h, c) && SameOutside(deps, f, h, c)
    decreases |c|, 1
  {
    var k, x := ShiftWeight(deps, w, c, rank, d);
    var v := Moved(w, deps[d].parent, deps[d].child, k);
    var g := SettleParts(deps, v, c, x, rank, f);
    assert ChunkGood(v, g, x, deps[d].parent);
    JoinGood(deps, v, g, c, d);
    var j := Activated(deps, g, d);
    h := JoinAll(deps, v, j, c);
    SameOutsideTrans(deps, f, g, j, c);
    SameOutsideTrans(deps, f, j, h, c);
    ShiftBack(deps, w, h, c, d, k);
  }

  lemma {:induction false} NoDependencies(deps: seq<Dep>, w: map<Tx, int>, c: set<Tx>, f: Forest)
    requires IsForest(deps, f) && Balanced(deps, w, c) && Apart(f, c) && c != {}
    requires forall x :: ClosedIn(deps, c, x) && x != {} && x != c ==> Weight(w, x) != 0
    requires forall d :: 0 <= d < |deps| ==> !(deps[d].parent in c && deps[d].child in c)
    ensures GoodOn(deps, w, f, c)
  {
    var t :| t in c;
    assert ClosedIn(deps, c, {t}) && ClosedIn(deps, c, c - {t});
    assert c == {t} + (c - {t});
    WeightUnion(w, {t}, c - {t});
    assert c == {t};
    AloneGood(deps, w, f, t);
  }

  // ---------- All chunks, from the highest feerate on ----------

  /** A member of a family with the highest feerate, and with the most transactions among these. */
  lemma {:induction false} BestOf(fees: Fees, fam: set<set<Tx>>) returns (m: set<Tx>)
    requires fam != {}
    ensures m in fam
    ensures forall y :: y in fam ==> AtLeast(Total(fees, m), Total(fees, y)) && (AtLeast(Total(fees, y), Total(fees, m)) ==> |y| <= |m|)
    decreases |fam|
  {
    var y :| y in fam;
    if fam == {y} {
      m := y;
      ExcessFlip(Total(fees, y), Total(fees, y));
    } else {
      m := BestOf(fees, fam - {y});
      var a, b := Total(fees, m), Total(fees, y);
      ExcessFlip(a, b);
      ExcessFlip(b, b);
      if Higher(b, a) || (Excess(b, a) == 0 && |y| > |m|) {
        forall z | z in fam && z != y ensures AtLeast(b, Total(fees, z)) && (AtLeast(Total(fees, z), b) ==> |z| <= |y|) {
          HigherTrans(b, a, Total(fees, z));
          ExcessFlip(b, Total(fees, z));
          if AtLeast(Total(fees, z), b) {
            HigherTrans(Total(fees, z), b, a);
          }
        }
        m := y;
      }
    }
  }

  /** `m` is a largest one of the non-empty closed parts of `rest` with the highest feerate. */
  ghost predicate Best(deps: seq<Dep>, fees: Fees, rest: set<Tx>, m: set<Tx>) {
    && ClosedIn(deps, rest, m) && m != {}
    && forall y {:trigger ClosedIn(deps, rest, y)} :: ClosedIn(deps, rest, y) && y != {} ==>
         AtLeast(Total(fees, m), Total(fees, y)) && (AtLeast(Total(fees, y), Total(fees, m)) ==> |y| <= |m|)
  }

  lemma {:induction false} BestExists(deps: seq<Dep>, fees: Fees, rest: set<Tx>) returns (m: set<Tx>)
    requires rest != {}
    ensures Best(deps, fees, rest, m)
  {
    var fam := set x | x <= rest && ClosedIn(deps, rest, x) && x != {};
    assert ClosedIn(deps, rest, rest) && rest in fam;
    m := BestOf(fees, fam);
    forall y | ClosedIn(deps, rest, y) && y != {} ensures y in fam {}
  }

  lemma {:induction false} BestBalanced(deps: seq<Dep>, fees: Fees, rest: set<Tx>, m: set<Tx>)
    requires Best(deps, fees, rest, m)
    ensures Balanced(deps, ExcessWeights(fees, m, Total(fees, m)), m)
  {
    var r := Total(fees, m);
    WeightIsExcess(fees, m, m, r);
    ExcessOfTotal(fees, m, r);
    ExcessFlip(r, r);
    forall x | ClosedIn(deps, m, x) ensures Weight(ExcessWeights(fees, m, r), x) <= 0 {
      WeightIsExcess(fees, m, x, r);
      if x != {} {
        assert ClosedIn(deps, rest, x);
        ExcessOfTotal(fees, x, r);
        ExcessFlip(Total(fees, x), r);
      }
    }
  }

  /** What is closed in the rest has a strictly lower feerate. */
  lemma {:induction false} RestLower(deps: seq<Dep>, fees: Fees, rest: set<Tx>, m: set<Tx>, x: set<Tx>)
    requires Best(deps, fees, rest, m) && ClosedIn(deps, rest - m, x) && x != {}
    ensures Higher(Total(fees, m), Total(fees, x))
  {
    var a, b := Total(fees, m), Total(fees, x);
    ExcessFlip(a, b);
    if !Higher(a, b) {
      assert ClosedIn(deps, rest, m + x);
      TotalUnion(fees, m, x);
      Mediant(b, a);
    }
  }

  /** Chunks of excess zero have the feerate of the set, and no top in them a higher one. */
  lemma {:induction false} SettledRates(deps: seq<Dep>, fees: Fees, h: Forest, m: set<Tx>, t: Tx)
    requires IsForest(deps, h) && m != {} && t in m && GoodOn(deps, ExcessWeights(fees, m, Total(fees, m)), h, m)
    ensures t in h.part && Excess(Total(fees, h.part[t]), Total(fees, m)) == 0
    ensures forall d :: d in h.act && deps[d].parent in h.part[t] ==> d in h.top && !Higher(Total(fees, h.top[d]), Total(fees, h.part[t]))
  {
    var r := Total(fees, m);
    var w := ExcessWeights(fees, m, r);
    assert ChunkGood(w, h, m, t);
    var c := h.part[t];
    WeightIsExcess(fees, m, c, r);
    ExcessOfTotal(fees, c, r);
    forall d | d in h.act && deps[d].parent in c ensures d in h.top && !Higher(Total(fees, h.top[d]), Total(fees, c)) {
      TreeEnds(deps, h, d);
      WeightIsExcess(fees, m, h.top[d], r);
      ExcessOfTotal(fees, h.top[d], r);
      ExcessFlip(Total(fees, c), r);
      if Higher(Total(fees, h.top[d]), Total(fees, c)) {
        HigherTrans(Total(fees, h.top[d]), Total(fees, c), r);
      }
    }
  }

  /** What holds once the chunks of all transactions but `rest` are made: those are closed, topological among themselves and
      without improvable dependency, and higher than all that can still come. */
  ghost predicate MadeUpTo(deps: seq<Dep>, fees: Fees, f: Forest, rest: set<Tx>) {
    && IsForest(deps, f) && rest <= f.part.Keys && Apart(f, rest) && Topped(deps, fees, f)
    && (forall d {:trigger DepMade(deps, fees, f, rest, d)} :: 0 <= d < |deps| ==> DepMade(deps, fees, f, rest, d))
    && forall t, x {:trigger AboveRest(deps, fees, f, rest, t, x)} :: AboveRest(deps, fees, f, rest, t, x)
  }

  ghost predicate Topped(deps: seq<Dep>, fees: Fees, f: Forest)
    requires InRange(deps, f.act)
  {
    forall d {:trigger TopAt(deps, fees, f, d)} :: d in f.act ==> TopAt(deps, fees, f, d)
  }

  ghost predicate TopAt(deps: seq<Dep>, fees: Fees, f: Forest, d: DepIdx)
    requires d < |deps|
  {
    d in f.top && deps[d].parent in f.part && !Higher(Total(fees, f.top[d]), Total(fees, f.part[deps[d].parent]))
  }

  ghost predicate DepMade(deps: seq<Dep>, fees: Fees, f: Forest, rest: set<Tx>, d: DepIdx)
    requires d < |deps|
  {
    var p, q := deps[d].parent, deps[d].child;
    q !in rest ==> p !in rest && p in f.part && q in f.part && (f.part[p] != f.part[q] ==> Higher(Total(fees, f.part[p]), Total(fees, f.part[q])))
  }

  ghost predicate AboveRest(deps: seq<Dep>, fees: Fees, f: Forest, rest: set<Tx>, t: Tx, x: set<Tx>) {
    t in f.part && t !in rest && ClosedIn(deps, rest, x) && x != {} ==> Higher(Total(fees, f.part[t]), Total(fees, x))
  }

  lemma {:induction false} NextAbove(deps: seq<Dep>, fees: Fees, f: Forest, h: Forest, rest: set<Tx>, m: set<Tx>, t: Tx, x: set<Tx>)
    requires MadeUpTo(deps, fees, f, rest) && Best(deps, fees, rest, m) && IsForest(deps, h)
    requires GoodOn(deps, ExcessWeights(fees, m, Total(fees, m)), h, m) && SameOutside(deps, f, h, m)
    ensures AboveRest(deps, fees, h, rest - m, t, x)
  {
    if t in h.part && t !in rest - m && ClosedIn(deps, rest - m, x) && x != {} {
      RestLower(deps, fees, rest, m, x);
      if t in m {
        SettledRates(deps, fees, h, m, t);
      } else {
        assert SameAt(deps, f, h, t) && AboveRest(deps, fees, f, rest, t, m);
      }
      HigherTrans(Total(fees, h.part[t]), Total(fees, m), Total(fees, x));
    }
  }

  lemma {:induction false} NextDep(deps: seq<Dep>, fees: Fees, f: Forest, h: Forest, rest: set<Tx>, m: set<Tx>, d: DepIdx)
    requires MadeUpTo(deps, fees, f, rest) && Best(deps, fees, rest, m) && IsForest(deps, h) && d < |deps|
    requires GoodOn(deps, ExcessWeights(fees, m, Total(fees, m)), h, m) && NoneBetween(deps, h, m) && SameOutside(deps, f, h, m)
    ensures DepMade(deps, fees, h, rest - m, d)
  {
    var p, q := deps[d].parent, deps[d].child;
    assert DepMade(deps, fees, f, rest, d) && p in f.part && q in f.part;
    if q !in rest {
      assert SameAt(deps, f, h, p) && SameAt(deps, f, h, q);
    } else if q in m && p !in m {
      assert p !in rest && SameAt(deps, f, h, p) && AboveRest(deps, fees, f, rest, p, m);
      SettledRates(deps, fees, h, m, q);
      ExcessFlip(Total(fees, h.part[q]), Total(fees, m));
      HigherTrans(Total(fees, h.part[p]), Total(fees, m), Total(fees, h.part[q]));
    }
  }

  lemma {:induction false} NextTop(deps: seq<Dep>, fees: Fees, f: Forest, h: Forest, m: set<Tx>, d: DepIdx)
    requires IsForest(deps, f) && Topped(deps, fees, f) && m != {} && IsForest(deps, h) && d in h.act
    requires GoodOn(deps, ExcessWeights(fees, m, Total(fees, m)), h, m) && SameOutside(deps, f, h, m)
    ensures TopAt(deps, fees, h, d)
  {
    var p := deps[d].parent;
    assert p in h.part && p in h.part[p];
    if p in m {
      SettledRates(deps, fees, h, m, p);
    } else {
      assert SameAt(deps, f, h, p);
      assert d in ActiveIn(deps, h.act, h.part[p]);
      assert TopAt(deps, fees, f, d);
    }
  }

  /** The next chunks: those of the best closed part of the rest. */
  lemma {:induction false} MakeNext(deps: seq<Dep>, fees: Fees, rank: map<Tx, nat>, f: Forest, rest: set<Tx>) returns (h: Forest, m: set<Tx>)
    requires MadeUpTo(deps, fees, f, rest) && rest != {} && Ranked(deps, rank) && f.part.Keys <= rank.Keys
    ensures m != {} && m <= rest && h.part.Keys == f.part.Keys && MadeUpTo(deps, fees, h, rest - m)
  {
    m := BestExists(deps, fees, rest);
    BestBalanced(deps, fees, rest, m);
    h := Settle(deps, ExcessWeights(fees, m, Total(fees, m)), m, rank, f);
    forall t | t in rest - m ensures t in h.part && h.part[t] == {t} {
      assert SameAt(deps, f, h, t);
    }
    forall d | d in h.act ensures TopAt(deps, fees, h, d) {
      NextTop(deps, fees, f, h, m, d);
    }
    forall d | 0 <= d < |deps| ensures DepMade(deps, fees, h, rest - m, d) {
      NextDep(deps, fees, f, h, rest, m, d);
    }
    forall t, x ensures AboveRest(deps, fees, h, rest - m, t, x) {
      NextAbove(deps, fees, f, h, rest, m, t, x);
    }
  }

  lemma {:induction false} MakeAll(deps: seq<Dep>, fees: Fees, rank: map<Tx, nat>, f: Forest, rest: set<Tx>) returns (h: Forest)
    requires MadeUpTo(deps, fees, f, rest) && Ranked(deps, rank) && f.part.Keys <= rank.Keys
    ensures h.part.Keys == f.part.Keys && MadeUpTo(deps, fees, h, {})
    decreases rest
  {
    if rest == {} {
      h := f;
    } else {
      var g, m := MakeNext(deps, fees, rank, f, rest);
      h := MakeAll(deps, fees, rank, g, rest - m);
    }
  }

  /** For every acyclic graph there is an optimal state. */
  lemma {:induction false} OptimalStateExists(deps: seq<Dep>, txs: set<Tx>, fees: Fees, rank: map<Tx, nat>) returns (f: Forest)
    requires EndsIn(deps, txs) && Ranked(deps, rank) && txs <= rank.Keys
    ensures f.part.Keys == txs && IsForest(deps, f) && NoImprovable(deps, fees, f) && Topological(DepSet(deps), fees, f.part)
  {
    var start := Singletons(txs);
    SingletonsForest(deps, txs);
    assert MadeUpTo(deps, fees, start, txs);
    f := MakeAll(deps, fees, rank, start, txs);
    forall d | d in f.act ensures !Higher(Total(fees, f.top[d]), Total(fees, f.part[deps[d].parent])) {
      assert TopAt(deps, fees, f, d);
    }
    forall e | e in DepSet(deps) ensures e.parent in f.part &&
      (f.part[e.child] != f.part[e.parent] ==> Higher(Total(fees, f.part[e.parent]), Total(fees, f.part[e.child])))
    {
      var d :| 0 <= d < |deps| && deps[d] == e;
      assert DepMade(deps, fees, f, {}, d);
    }
  }
}
