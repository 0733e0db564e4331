/** Picking one of the dependencies between two chunks (`MergeChunks`). */
module DepPicking {
  import opened TxSets
  import opened Partitions
  import opened Forests
  import opened ForestStates
  import opened ForestGraphs

  /** The number of dependencies from children in `bottom` to parents in `s`. */
  ghost function CrossCount(children: map<Tx, set<Tx>>, s: set<Tx>, bottom: set<Tx>): nat {
    if s == {} then 0 else
      var t :| t in s;
      (if t in children then |children[t] * bottom| else 0) + CrossCount(children, s - {t}, bottom)
  }

  lemma {:induction false} CrossPick(children: map<Tx, set<Tx>>, s: set<Tx>, bottom: set<Tx>, x: Tx)
    requires x in s
    ensures CrossCount(children, s, bottom)
         == (if x in children then |children[x] * bottom| else 0) + CrossCount(children, s - {x}, bottom)
  {
    var t :| t in s && CrossCount(children, s, bottom)
                       == (if t in children then |children[t] * bottom| else 0) + CrossCount(children, s - {t}, bottom);
    if t != x {
      CrossPick(children, s - {t}, bottom, x);
      CrossPick(children, s - {x}, bottom, t);
      assert s - {t} - {x} == s - {x} - {t};
    }
  }

  /** The children in `bottom` that the dependencies from position `k` on lead to. */
  ghost function Remaining(deps: seq<Dep>, ds: seq<DepIdx>, k: nat, bottom: set<Tx>): set<Tx>
    requires forall j :: 0 <= j < |ds| ==> ds[j] < |deps|
  {
    set j | k <= j < |ds| && deps[ds[j]].child in bottom :: deps[ds[j]].child
  }

  lemma {:induction false} AllRemaining(g: Graph, tx: Tx, bottom: set<Tx>)
    requires ChildDepsAt(g.deps, g.childDeps, tx) && ChildrenAt(g.deps, g.children, tx)
    ensures Remaining(g.deps, g.childDeps[tx], 0, bottom) == g.children[tx] * bottom
  {
    var ds := g.childDeps[tx];
    forall c | c in g.children[tx] * bottom ensures c in Remaining(g.deps, ds, 0, bottom) {
      assert Dep(tx, c) in g.deps;
      var d :| 0 <= d < |g.deps| && g.deps[d] == Dep(tx, c);
      var j :| 0 <= j < |ds| && ds[j] == d;
    }
    forall c | c in Remaining(g.deps, ds, 0, bottom) ensures c in g.children[tx] * bottom {
      var j :| 0 <= j < |ds| && g.deps[ds[j]].child in bottom && g.deps[ds[j]].child == c;
      assert g.deps[ds[j]] == Dep(tx, c);
    }
  }

  /** Passing one matching dependency leaves one fewer. */
  lemma {:induction false} OneFewer(g: Graph, tx: Tx, bottom: set<Tx>, k: nat)
    requires GraphOk(g) && ChildDepsAt(g.deps, g.childDeps, tx) && k < |g.childDeps[tx]|
    ensures var ds := g.childDeps[tx];
            |Remaining(g.deps, ds, k + 1, bottom)|
              == |Remaining(g.deps, ds, k, bottom)| - if g.deps[ds[k]].child in bottom then 1 else 0
  {
    var ds := g.childDeps[tx];
    var c := g.deps[ds[k]].child;
    var now, next := Remaining(g.deps, ds, k, bottom), Remaining(g.deps, ds, k + 1, bottom);
    if c in bottom {
      assert c !in next by {
        forall j | k + 1 <= j < |ds| ensures g.deps[ds[j]].child != c {
          assert ds[j] != ds[k];
          assert g.deps[ds[j]] != g.deps[ds[k]];
        }
      }
      assert now == next + {c};
    } else {
      assert now == next;
    }
  }

  /** Some dependency makes the count positive. */
  lemma {:induction false} CrossPositive(g: Graph, top: set<Tx>, bottom: set<Tx>, e: Dep)
    requires GraphOk(g) && top <= g.txs && e in g.deps && e.parent in top && e.child in bottom
    ensures CrossCount(g.children, top, bottom) > 0
  {
    CrossPick(g.children, top, bottom, e.parent);
    assert ChildrenAt(g.deps, g.children, e.parent);
    assert e == Dep(e.parent, e.child);
    assert e.child in g.children[e.parent] * bottom;
  }

  /** The dependency that `MergeChunks` activates: any one with its parent in `top` and its child in
      `bottom`, picked by a random number below their count. */
  method PickDependency(g: Graph, top: set<Tx>, bottom: set<Tx>) returns (d: DepIdx)
    requires GraphOk(g) && top <= g.txs
    requires exists e :: e in g.deps && e.parent in top && e.child in bottom
    ensures d < |g.deps| && g.deps[d].parent in top && g.deps[d].child in bottom
  {
    var count := CountDependencies(g, top, bottom);
    var pick: nat :| pick < count;
    var todo := top;
    var tx :| tx in todo;
    assert ChildrenAt(g.deps, g.children, tx);
    while pick >= |g.children[tx] * bottom|
      invariant todo <= top && tx in todo && ChildrenAt(g.deps, g.children, tx)
      invariant pick < CrossCount(g.children, todo, bottom)
      decreases todo
    {
      CrossPick(g.children, todo, bottom, tx);
      pick := pick - |g.children[tx] * bottom|;
      todo := todo - {tx};
      tx :| tx in todo;
      assert ChildrenAt(g.deps, g.children, tx);
    }
    d := PickChild(g, tx, bottom, pick);
  }

  /** The dependency of `tx` on the child in `bottom` with number `pick`. */
  method PickChild(g: Graph, tx: Tx, bottom: set<Tx>, first: nat) returns (d: DepIdx)
    requires GraphOk(g) && tx in g.txs && tx in g.children && first < |g.children[tx] * bottom|
    ensures d < |g.deps| && g.deps[d].parent == tx && g.deps[d].child in bottom
  {
    var pick: nat := first;
    assert ChildDepsAt(g.deps, g.childDeps, tx);
    AllRemaining(g, tx, bottom);
    var ds := g.childDeps[tx];
    var k := 0;
    assert ds != [];
    while g.deps[ds[k]].child !in bottom || pick > 0
      invariant k < |ds| && pick < |Remaining(g.deps, ds, k, bottom)|
      decreases |ds| - k
    {
      OneFewer(g, tx, bottom, k);
      if g.deps[ds[k]].child in bottom {
        pick := pick - 1;
      }
      k := k + 1;
      assert Remaining(g.deps, ds, |ds|, bottom) == {};
    }
    d := ds[k];
  }

  method CountDependencies(g: Graph, top: set<Tx>, bottom: set<Tx>) returns (count: nat)
    requires GraphOk(g) && top <= g.txs
    ensures count == CrossCount(g.children, top, bottom)
    ensures (exists e :: e in g.deps && e.parent in top && e.child in bottom) ==> count > 0
  {
    count := 0;
    var todo := top;
    while todo != {}
      invariant todo <= top && count + CrossCount(g.children, todo, bottom) == CrossCount(g.children, top, bottom)
      decreases todo
    {
      var tx :| tx in todo;
      assert ChildrenAt(g.deps, g.children, tx);
      CrossPick(g.children, todo, bottom, tx);
      count := count + |g.children[tx] * bottom|;
      todo := todo - {tx};
    }
    if e :| e in g.deps && e.parent in top && e.child in bottom {
      CrossPositive(g, top, bottom, e);
    }
  }
}
