/** Spanning trees of chunks. A dependency is an index into the list of dependencies; each active
    one is kept with its top: the side of the tree that holds its parent. */
module Forests {
  import opened FeeFracs
  import opened TxSets
  import opened Partitions

  type DepIdx = nat

  ghost predicate Crosses(e: Dep, x: set<Tx>) {
    (e.parent in x) != (e.child in x)
  }

  ghost predicate InRange(deps: seq<Dep>, E: set<DepIdx>) {
    forall d :: d in E ==> d < |deps|
  }

  /** Some edge leads out of `x`. */
  ghost predicate Linked(deps: seq<Dep>, E: set<DepIdx>, x: set<Tx>)
    requires InRange(deps, E)
  {
    exists d :: d in E && Crosses(deps[d], x)
  }

  /** `d` lies inside `C`, and it is the one edge of `E` between its top and the rest of `C`. */
  ghost predicate IsBridge(deps: seq<Dep>, E: set<DepIdx>, top: map<DepIdx, set<Tx>>, C: set<Tx>, d: DepIdx)
    requires InRange(deps, E) && d in E
  {
    && deps[d].parent in C && deps[d].child in C
    && d in top && top[d] <= C
    && deps[d].parent in top[d] && deps[d].child !in top[d]
    && forall e :: e in E && e != d ==> !Crosses(deps[e], top[d])
  }

  /** The edges `E` connect `C`: no proper part of it is cut off. */
  ghost predicate Connected(deps: seq<Dep>, E: set<DepIdx>, C: set<Tx>)
    requires InRange(deps, E)
  {
    forall x :: x < C && x != {} ==> Linked(deps, E, x)
  }

  /** `E` is a spanning tree of `C`: connected, and every edge is a bridge. */
  ghost predicate IsTree(deps: seq<Dep>, E: set<DepIdx>, top: map<DepIdx, set<Tx>>, C: set<Tx>) {
    && C != {} && InRange(deps, E)
    && (forall d :: d in E ==> IsBridge(deps, E, top, C, d))
    && Connected(deps, E, C)
  }

  /** The tops after joining the trees of `A` and `B` by the edge `d` from `A` to `B`. */
  ghost function JoinedTops(deps: seq<Dep>, top: map<DepIdx, set<Tx>>, A: set<Tx>, B: set<Tx>, d: DepIdx): map<DepIdx, set<Tx>>
    requires InRange(deps, top.Keys) && d < |deps|
  {
    map e | e in top.Keys + {d} ::
      if e == d then A
      else if deps[e].parent in A && deps[d].parent in top[e] then top[e] + B
      else if deps[e].parent in B && deps[d].child in top[e] then top[e] + A
      else top[e]
  }

  /** The tops after cutting the edge `d` of a tree into `T`, with its parent, and `B`. */
  ghost function SplitTops(deps: seq<Dep>, top: map<DepIdx, set<Tx>>, T: set<Tx>, B: set<Tx>, d: DepIdx): map<DepIdx, set<Tx>>
    requires InRange(deps, top.Keys) && d < |deps|
  {
    map e | e in top.Keys - {d} ::
      if deps[e].parent in T && deps[d].parent in top[e] then top[e] - B
      else if deps[e].parent in B && deps[d].child in top[e] then top[e] - T
      else top[e]
  }

  lemma {:induction false} JoinConnected(deps: seq<Dep>, EA: set<DepIdx>, EB: set<DepIdx>, A: set<Tx>, B: set<Tx>, d: DepIdx)
    requires InRange(deps, EA) && InRange(deps, EB) && d < |deps|
    requires Connected(deps, EA, A) && Connected(deps, EB, B) && A !! B
    requires forall e :: e in EA ==> deps[e].parent in A && deps[e].child in A
    requires forall e :: e in EB ==> deps[e].parent in B && deps[e].child in B
    requires deps[d].parent in A && deps[d].child in B
    ensures Connected(deps, EA + EB + {d}, A + B)
  {
    forall x | x < A + B && x != {} ensures Linked(deps, EA + EB + {d}, x) {
      if x * A != {} && x * A != A {
        assert Linked(deps, EA, x * A);
        var e :| e in EA && Crosses(deps[e], x * A);
        assert Crosses(deps[e], x);
      } else if x * B != {} && x * B != B {
        assert Linked(deps, EB, x * B);
        var e :| e in EB && Crosses(deps[e], x * B);
        assert Crosses(deps[e], x);
      } else {
        assert x == x * A + x * B;
        assert Crosses(deps[d], x);
      }
    }
  }

  /** Joining two trees by an edge gives a tree. */
  lemma {:induction false} JoinTrees(deps: seq<Dep>, EA: set<DepIdx>, EB: set<DepIdx>, top: map<DepIdx, set<Tx>>,
                  A: set<Tx>, B: set<Tx>, d: DepIdx)
    requires IsTree(deps, EA, top, A) && IsTree(deps, EB, top, B) && A !! B
    requires InRange(deps, top.Keys) && d < |deps| && d !in EA && d !in EB
    requires deps[d].parent in A && deps[d].child in B
    ensures IsTree(deps, EA + EB + {d}, JoinedTops(deps, top, A, B, d), A + B)
  {
    assert forall e :: e in EA ==> IsBridge(deps, EA, top, A, e);
    assert forall e :: e in EB ==> IsBridge(deps, EB, top, B, e);
    JoinConnected(deps, EA, EB, A, B, d);
    forall e | e in EA + EB + {d} ensures IsBridge(deps, EA + EB + {d}, JoinedTops(deps, top, A, B, d), A + B, e) {
      JoinedBridge(deps, EA, EB, top, A, B, d, e);
    }
  }

  lemma {:induction false} JoinedBridge(deps: seq<Dep>, EA: set<DepIdx>, EB: set<DepIdx>, top: map<DepIdx, set<Tx>>,
                                        A: set<Tx>, B: set<Tx>, d: DepIdx, e: DepIdx)
    requires IsTree(deps, EA, top, A) && IsTree(deps, EB, top, B) && A !! B
    requires InRange(deps, top.Keys) && d < |deps| && d !in EA && d !in EB
    requires deps[d].parent in A && deps[d].child in B && e in EA + EB + {d}
    ensures IsBridge(deps, EA + EB + {d}, JoinedTops(deps, top, A, B, d), A + B, e)
  {
    var E := EA + EB + {d};
    assert e in EA ==> IsBridge(deps, EA, top, A, e);
    assert e in EB ==> IsBridge(deps, EB, top, B, e);
    forall f | f in E && f != e ensures !Crosses(deps[f], JoinedTops(deps, top, A, B, d)[e]) {
      assert f in EA ==> IsBridge(deps, EA, top, A, f);
      assert f in EB ==> IsBridge(deps, EB, top, B, f);
    }
  }

  /** One side of the cut through the edge `d`. */
  ghost predicate IsSide(deps: seq<Dep>, top: map<DepIdx, set<Tx>>, C: set<Tx>, d: DepIdx, s: set<Tx>)
    requires d < |deps|
  {
    d in top && top[d] <= C && (s == top[d] || s == C - top[d])
  }

  /** The edges of `E` that remain on a side. */
  ghost function EdgesOn(deps: seq<Dep>, E: set<DepIdx>, d: DepIdx, s: set<Tx>): set<DepIdx>
    requires InRange(deps, E)
  {
    set e | e in E && e != d && deps[e].parent in s
  }

  lemma {:induction false} CutConnected(deps: seq<Dep>, E: set<DepIdx>, C: set<Tx>, d: DepIdx, s: set<Tx>)
    requires InRange(deps, E) && d in E && Connected(deps, E, C)
    requires forall e :: e in E && e != d ==> !Crosses(deps[e], s)
    requires s < C && Crosses(deps[d], s)
    ensures Connected(deps, EdgesOn(deps, E, d, s), s)
  {
    var F := EdgesOn(deps, E, d, s);
    forall x | x < s && x != {} ensures Linked(deps, F, x) {
      var y := if Crosses(deps[d], x) then s - x else x;
      assert y < C && y != {};
      assert Linked(deps, E, y);
      var e :| e in E && Crosses(deps[e], y);
      assert e != d;
      assert Crosses(deps[e], x);
      assert e in F;
    }
  }

  /** Seen from an edge `e` on one side of `d`, the other side of `d` is all in `e`'s top or all out
      of it. */
  lemma {:induction false} OnOneSide(deps: seq<Dep>, E: set<DepIdx>, top: map<DepIdx, set<Tx>>, C: set<Tx>, d: DepIdx,
                                     s: set<Tx>, e: DepIdx, a: Tx)
    requires IsTree(deps, E, top, C) && d in E && IsSide(deps, top, C, d, s)
    requires e in EdgesOn(deps, E, d, s) && e in top
    requires a in s && (a == deps[d].parent || a == deps[d].child)
    ensures a in top[e] ==> C - s <= top[e]
    ensures a !in top[e] ==> top[e] <= s
  {
    assert IsBridge(deps, E, top, C, d) && IsBridge(deps, E, top, C, e);
    var x := if a in top[e] then C - s - top[e] else top[e] - s;
    forall f | f in E ensures !Crosses(deps[f], x) {
      assert IsBridge(deps, E, top, C, f);
    }
    assert a in C && a !in x;
    Uncut(deps, E, C, x);
    assert x == {};
    forall t | t in C ensures (a in top[e] && t !in s ==> t in top[e]) && (a !in top[e] && t in top[e] ==> t in s) {
      assert t !in x;
    }
  }

  /** A part of a connected set that no edge leaves is nothing or everything. */
  lemma {:induction false} Uncut(deps: seq<Dep>, E: set<DepIdx>, C: set<Tx>, x: set<Tx>)
    requires InRange(deps, E) && Connected(deps, E, C) && x <= C
    requires forall e :: e in E ==> !Crosses(deps[e], x)
    ensures x == {} || x == C
  {
    assert !Linked(deps, E, x);
  }

  /** `top'` agrees with cutting the far side `C - s` off the tops that reach over `d`. */
  ghost predicate TopsOn(deps: seq<Dep>, E: set<DepIdx>, top: map<DepIdx, set<Tx>>, C: set<Tx>, d: DepIdx, s: set<Tx>,
                         top': map<DepIdx, set<Tx>>)
    requires InRange(deps, E) && d < |deps|
  {
    forall e :: e in EdgesOn(deps, E, d, s) ==> e in top && e in top' && top'[e] == top[e] * s
  }

  /** Cutting an edge of a tree leaves a tree on either side. */
  lemma {:induction false} CutTree(deps: seq<Dep>, E: set<DepIdx>, top: map<DepIdx, set<Tx>>, C: set<Tx>, d: DepIdx, s: set<Tx>,
                top': map<DepIdx, set<Tx>>)
    requires IsTree(deps, E, top, C) && d in E && IsSide(deps, top, C, d, s)
    requires TopsOn(deps, E, top, C, d, s, top')
    ensures IsTree(deps, EdgesOn(deps, E, d, s), top', s)
  {
    var F := EdgesOn(deps, E, d, s);
    assert IsBridge(deps, E, top, C, d);
    assert forall e :: e in E ==> IsBridge(deps, E, top, C, e);
    CutConnected(deps, E, C, d, s);
    forall e | e in F ensures IsBridge(deps, F, top', s, e) {
      assert IsBridge(deps, E, top, C, e);
      assert forall f :: f in F ==> deps[f].parent in s && deps[f].child in s;
    }
  }

  lemma {:induction false} SideTops(deps: seq<Dep>, E: set<DepIdx>, top: map<DepIdx, set<Tx>>, C: set<Tx>, d: DepIdx, s: set<Tx>)
    returns (top': map<DepIdx, set<Tx>>)
    requires IsTree(deps, E, top, C) && d in E && IsSide(deps, top, C, d, s)
    ensures TopsOn(deps, E, top, C, d, s, top') && IsTree(deps, EdgesOn(deps, E, d, s), top', s)
    ensures forall e :: e in EdgesOn(deps, E, d, s) ==> deps[e].parent in s && deps[e].child in s
  {
    EndsInside(deps, E, top, C);
    top' := map e | e in EdgesOn(deps, E, d, s) :: top[e] * s;
    CutTree(deps, E, top, C, d, s, top');
    EndsInside(deps, EdgesOn(deps, E, d, s), top', s);
  }

  /** The tops after `Deactivate` are those of the two sides. */
  lemma {:induction false} SplitTopsOn(deps: seq<Dep>, E: set<DepIdx>, top: map<DepIdx, set<Tx>>, C: set<Tx>, d: DepIdx, s: set<Tx>)
    requires IsTree(deps, E, top, C) && d in E && InRange(deps, top.Keys) && IsSide(deps, top, C, d, s)
    ensures TopsOn(deps, E, top, C, d, s, SplitTops(deps, top, top[d], C - top[d], d))
  {
    assert IsBridge(deps, E, top, C, d);
    forall e | e in EdgesOn(deps, E, d, s)
      ensures e in top && SplitTops(deps, top, top[d], C - top[d], d)[e] == top[e] * s
    {
      assert IsBridge(deps, E, top, C, e);
      OnOneSide(deps, E, top, C, d, s, e, if deps[d].parent in s then deps[d].parent else deps[d].child);
    }
  }

  lemma {:induction false} EndsInside(deps: seq<Dep>, E: set<DepIdx>, top: map<DepIdx, set<Tx>>, C: set<Tx>)
    requires IsTree(deps, E, top, C)
    ensures forall e :: e in E ==> e in top && deps[e].parent in C && deps[e].child in C
  {
    forall e | e in E ensures e in top && deps[e].parent in C && deps[e].child in C {
      assert IsBridge(deps, E, top, C, e);
    }
  }

  lemma {:induction false} CutEdges(deps: seq<Dep>, E: set<DepIdx>, C: set<Tx>, d: DepIdx, T: set<Tx>)
    requires InRange(deps, E) && d in E && T <= C
    requires forall e :: e in E ==> deps[e].parent in C
    ensures |E| == |EdgesOn(deps, E, d, T)| + |EdgesOn(deps, E, d, C - T)| + 1
    ensures EdgesOn(deps, E, d, T) < E && EdgesOn(deps, E, d, C - T) < E
  {
    var ET, EB := EdgesOn(deps, E, d, T), EdgesOn(deps, E, d, C - T);
    assert E == ET + EB + {d} && ET !! EB && d !in ET + EB;
  }

  /** A chunk of N transactions has exactly N - 1 active dependencies. */
  lemma {:induction false} TreeCount(deps: seq<Dep>, E: set<DepIdx>, top: map<DepIdx, set<Tx>>, C: set<Tx>)
    requires IsTree(deps, E, top, C)
    ensures |E| == |C| - 1
    decreases |E|
  {
    if E == {} {
      var t :| t in C;
      Uncut(deps, E, C, {t});
    } else {
      var d :| d in E;
      EndsInside(deps, E, top, C);
      assert IsBridge(deps, E, top, C, d);
      CutEdges(deps, E, C, d, top[d]);
      assert C == top[d] + (C - top[d]);
      TreeCountSide(deps, E, top, C, d, top[d]);
      TreeCountSide(deps, E, top, C, d, C - top[d]);
    }
  }

  lemma {:induction false} TreeCountSide(deps: seq<Dep>, E: set<DepIdx>, top: map<DepIdx, set<Tx>>, C: set<Tx>, d: DepIdx, s: set<Tx>)
    requires IsTree(deps, E, top, C) && d in E && IsSide(deps, top, C, d, s)
    requires |EdgesOn(deps, E, d, s)| < |E|
    ensures |EdgesOn(deps, E, d, s)| == |s| - 1
    decreases |E|, 0
  {
    var top' := SideTops(deps, E, top, C, d, s);
    TreeCount(deps, EdgesOn(deps, E, d, s), top', s);
  }

  /** Summed integer weights of a set. */
  ghost function Weight(w: map<Tx, int>, s: set<Tx>): int {
    if s == {} then 0 else
      var t :| t in s;
      (if t in w then w[t] else 0) + Weight(w, s - {t})
  }

  lemma {:induction false} WeightPick(w: map<Tx, int>, s: set<Tx>, x: Tx)
    requires x in s
    ensures Weight(w, s) == (if x in w then w[x] else 0) + Weight(w, s - {x})
  {
    var t :| t in s && Weight(w, s) == (if t in w then w[t] else 0) + Weight(w, s - {t});
    if t != x {
      WeightPick(w, s - {t}, x);
      WeightPick(w, s - {x}, t);
      assert s - {t} - {x} == s - {x} - {t};
    }
  }

  lemma {:induction false} WeightUnion(w: map<Tx, int>, a: set<Tx>, b: set<Tx>)
    requires a !! b
    ensures Weight(w, a + b) == Weight(w, a) + Weight(w, b)
  {
    if a == {} {
      assert a + b == b;
    } else {
      var x :| x in a;
      WeightUnion(w, a - {x}, b);
      WeightPick(w, a, x);
      WeightPick(w, a + b, x);
      assert a + b - {x} == (a - {x}) + b;
    }
  }

  /** Adding weight at one transaction. */
  lemma {:induction false} WeightBump(w: map<Tx, int>, s: set<Tx>, x: Tx, k: int)
    requires x in w
    ensures Weight(w[x := w[x] + k], s) == Weight(w, s) + if x in s then k else 0
  {
    if s != {} {
      var t :| t in s;
      WeightBump(w, s - {t}, x, k);
      WeightPick(w, s, t);
      WeightPick(w[x := w[x] + k], s, t);
    }
  }

  /** Nothing that is closed under the parents of a tree's edges outweighs the whole tree, if no top
      does: moving the bottom's excess along each edge from parent to child is a flow that accounts
      for every weight. */
  lemma {:induction false} ClosedBound(deps: seq<Dep>, E: set<DepIdx>, top: map<DepIdx, set<Tx>>, C: set<Tx>,
                                       w: map<Tx, int>, x: set<Tx>)
    requires IsTree(deps, E, top, C) && C <= w.Keys && x <= C
    requires Weight(w, C) == 0
    requires forall d :: d in E ==> d in top && Weight(w, top[d]) <= 0
    requires forall d :: d in E && deps[d].child in x ==> deps[d].parent in x
    ensures Weight(w, x) <= 0
    decreases |E|
  {
    if E == {} {
      TreeCount(deps, E, top, C);
      var t :| t in C;
      assert C == {t} by { assert C - {t} == {}; }
      assert x == {} || x == C;
    } else {
      var d :| d in E;
      var T, B := top[d], C - top[d];
      assert IsBridge(deps, E, top, C, d);
      assert C == T + B;
      EndsInside(deps, E, top, C);
      CutEdges(deps, E, C, d, T);
      WeightUnion(w, T, B);
      ClosedBoundSide(deps, E, top, C, w, x, d, T, deps[d].parent, Weight(w, B));
      ClosedBoundSide(deps, E, top, C, w, x, d, B, deps[d].child, Weight(w, T));
      assert x == x * T + x * B;
      WeightUnion(w, x * T, x * B);
    }
  }

  /** The moved weight makes up for the part of a top that was cut off. */
  lemma {:induction false} SideTop(deps: seq<Dep>, E: set<DepIdx>, top: map<DepIdx, set<Tx>>, C: set<Tx>,
                w: map<Tx, int>, d: DepIdx, s: set<Tx>, a: Tx, e: DepIdx)
    requires IsTree(deps, E, top, C) && C <= w.Keys
    requires d in E && IsSide(deps, top, C, d, s) && e in EdgesOn(deps, E, d, s) && e in top
    requires a in s && a in w && (a == deps[d].parent || a == deps[d].child)
    ensures Weight(w[a := w[a] + Weight(w, C - s)], top[e] * s) == Weight(w, top[e])
  {
    OnOneSide(deps, E, top, C, d, s, e, a);
    assert IsBridge(deps, E, top, C, e);
    WeightBump(w, top[e] * s, a, Weight(w, C - s));
    if a in top[e] {
      assert top[e] == top[e] * s + (C - s);
      WeightUnion(w, top[e] * s, C - s);
    } else {
      assert top[e] * s == top[e];
    }
  }

  /** One side of the cut: giving the far side's weight to the end `a` of the cut edge restores all
      the premises, on a smaller tree. */
  lemma {:induction false} ClosedBoundSide(deps: seq<Dep>, E: set<DepIdx>, top: map<DepIdx, set<Tx>>, C: set<Tx>,
                        w: map<Tx, int>, x: set<Tx>, d: DepIdx, s: set<Tx>, a: Tx, far: int)
    requires IsTree(deps, E, top, C) && C <= w.Keys && x <= C
    requires Weight(w, C) == 0
    requires forall e :: e in E ==> e in top && Weight(w, top[e]) <= 0
    requires forall e :: e in E && deps[e].child in x ==> deps[e].parent in x
    requires d in E && IsSide(deps, top, C, d, s)
    requires a in s && (a == deps[d].parent || a == deps[d].child) && far == Weight(w, C - s)
    requires |EdgesOn(deps, E, d, s)| < |E|
    ensures Weight(w, x * s) + (if a in x then far else 0) <= 0
    decreases |E|, 0
  {
    var top' := SideTops(deps, E, top, C, d, s);
    SideWeights(deps, E, top, C, w, d, s, a, top');
    ClosedBound(deps, EdgesOn(deps, E, d, s), top', s, w[a := w[a] + far], x * s);
    WeightBump(w, x * s, a, far);
  }

  lemma {:induction false} SideWeights(deps: seq<Dep>, E: set<DepIdx>, top: map<DepIdx, set<Tx>>, C: set<Tx>,
                    w: map<Tx, int>, d: DepIdx, s: set<Tx>, a: Tx, top': map<DepIdx, set<Tx>>)
    requires IsTree(deps, E, top, C) && C <= w.Keys && Weight(w, C) == 0
    requires forall e :: e in E ==> e in top && Weight(w, top[e]) <= 0
    requires d in E && IsSide(deps, top, C, d, s) && TopsOn(deps, E, top, C, d, s, top')
    requires a in s && a in w && (a == deps[d].parent || a == deps[d].child)
    ensures var w' := w[a := w[a] + Weight(w, C - s)];
            && Weight(w', s) == 0
            && forall e :: e in EdgesOn(deps, E, d, s) ==> e in top' && Weight(w', top'[e]) <= 0
  {
    WeightBump(w, s, a, Weight(w, C - s));
    assert IsBridge(deps, E, top, C, d);
    assert C == s + (C - s);
    WeightUnion(w, s, C - s);
    forall e | e in EdgesOn(deps, E, d, s)
      ensures e in top' && Weight(w[a := w[a] + Weight(w, C - s)], top'[e]) <= 0
    {
      SideTop(deps, E, top, C, w, d, s, a, e);
    }
  }
}
