/** Connected sets of transactions, and `GetConnectedComponent`. */
module Connections {
  import opened TxSets
  import opened Ancestry
  import opened DepGraphs

  ghost predicate Related(dm: Anc, u: Tx, v: Tx) {
    (v in dm && u in dm[v]) || (u in dm && v in dm[u])
  }

  ghost predicate Touching(dm: Anc, a: set<Tx>, b: set<Tx>) {
    exists u, v :: u in a && v in b && Related(dm, u, v)
  }

  /** The set does not fall apart into two unrelated parts. */
  ghost predicate IsConnected(dm: Anc, s: set<Tx>) {
    s != {} && forall a {:trigger Touching(dm, a, s - a)} :: a != {} && a < s ==> Touching(dm, a, s - a)
  }

  lemma {:induction false} TouchingMore(dm: Anc, a: set<Tx>, b: set<Tx>, c: set<Tx>, d: set<Tx>)
    requires Touching(dm, a, b) && a <= c && b <= d
    ensures Touching(dm, c, d)
  {
  }

  lemma {:induction false} TouchingFlip(dm: Anc, a: set<Tx>, b: set<Tx>)
    requires Touching(dm, a, b)
    ensures Touching(dm, b, a)
  {
    var u, v :| u in a && v in b && Related(dm, u, v);
    assert Related(dm, v, u);
  }

  lemma {:induction false} SingleConnected(dm: Anc, x: Tx)
    ensures IsConnected(dm, {x})
  {
    forall a: set<Tx> | a <= {x} ensures a == {} || a == {x} {
      if a != {} {
        var t :| t in a;
        assert t == x;
      }
    }
  }

  /** Two related connected sets are connected together. */
  lemma {:induction false} UnionConnected(dm: Anc, p: set<Tx>, c: set<Tx>)
    requires IsConnected(dm, p) && IsConnected(dm, c) && Touching(dm, p, c)
    ensures IsConnected(dm, p + c)
  {
    var s := p + c;
    forall a | a != {} && a < s ensures Touching(dm, a, s - a) {
      assert !(s <= a);
      if a * p != {} && !(p <= a) {
        assert a * p < p;
        TouchingMore(dm, a * p, p - a * p, a, s - a);
      } else if a * c != {} && !(c <= a) {
        assert a * c < c;
        TouchingMore(dm, a * c, c - a * c, a, s - a);
      } else if p <= a {
        assert c <= a ==> s <= a;
        assert a * c == {};
        forall t | t in c ensures t in s - a {
          assert t !in a * c;
        }
        TouchingMore(dm, p, c, a, s - a);
      } else {
        assert a == a * p + a * c;
        forall t | t in p ensures t in s - a {
          assert t !in a * p;
        }
        TouchingFlip(dm, p, c);
        TouchingMore(dm, c, p, a, s - a);
      }
    }
  }

  lemma {:induction false} AddRelated(dm: Anc, s: set<Tx>, more: set<Tx>)
    requires IsConnected(dm, s)
    requires forall x :: x in more ==> Touching(dm, s, {x})
    ensures IsConnected(dm, s + more)
    decreases |more|
  {
    if more == {} {
      assert s + more == s;
    } else {
      var x :| x in more;
      AddRelated(dm, s, more - {x});
      SingleConnected(dm, x);
      TouchingMore(dm, s, {x}, s + (more - {x}), {x});
      UnionConnected(dm, s + (more - {x}), {x});
      assert s + (more - {x}) + {x} == s + more;
    }
  }

  /** All transactions of `todo` that are related to one of `from` are in `ret`. */
  ghost predicate Explored(dm: Anc, todo: set<Tx>, from: set<Tx>, ret: set<Tx>) {
    forall u, v {:trigger Related(dm, u, v)} :: u in from && v in todo && Related(dm, u, v) ==> v in ret
  }

  /** The transactions related to `add`. */
  lemma {:induction false} RelatedTo(depgraph: DepGraph, add: Tx, v: Tx)
    requires depgraph.Valid() && add in depgraph.used
    ensures v in depgraph.entries[add].descendants + depgraph.entries[add].ancestors <==> Related(depgraph.Ancestors(), add, v)
  {
    var anc := depgraph.Ancestors();
    assert anc[add] <= anc.Keys;
    if v in depgraph.used {
      assert Mirrored(depgraph.entries, v, add) && Mirrored(depgraph.entries, add, v);
      assert anc[v] == depgraph.entries[v].ancestors;
    }
  }

  /** Add everything related to `toAdd`. */
  method Neighbourhood(depgraph: DepGraph, start: set<Tx>, toAdd: set<Tx>) returns (ret: set<Tx>)
    requires depgraph.Valid() && toAdd <= depgraph.used
    ensures start <= ret && Explored(depgraph.Ancestors(), depgraph.used, toAdd, ret)
    ensures forall v :: v in ret - start ==> Touching(depgraph.Ancestors(), toAdd, {v})
  {
    ghost var anc := depgraph.Ancestors();
    ret := start;
    var left := toAdd;
    while left != {}
      invariant left <= toAdd && start <= ret && Explored(anc, depgraph.used, toAdd - left, ret)
      invariant forall v :: v in ret - start ==> Touching(anc, toAdd, {v})
      decreases left
    {
      var add :| add in left;
      ghost var was := ret;
      ret := ret + depgraph.entries[add].descendants;
      ret := ret + depgraph.entries[add].ancestors;
      forall v ensures v in ret <==> v in was || Related(anc, add, v) {
        RelatedTo(depgraph, add, v);
      }
      forall v | v in ret - start ensures Touching(anc, toAdd, {v}) {
        if v !in was {
          assert Related(anc, add, v);
        }
      }
      left := left - {add};
    }
    assert toAdd - left == toAdd;
  }

  /** The connected component of `tx` within `todo`. */
  method GetConnectedComponent(depgraph: DepGraph, todo: set<Tx>, tx: Tx) returns (ret: set<Tx>)
    requires depgraph.Valid() && tx in todo && todo <= depgraph.used
    ensures tx in ret && ret <= todo && IsConnected(depgraph.Ancestors(), ret)
    ensures !Touching(depgraph.Ancestors(), ret, todo - ret)
  {
    ghost var anc := depgraph.Ancestors();
    var toAdd := {tx};
    ret := {};
    SingleConnected(anc, tx);
    assert ret + {tx} == {tx};
    while toAdd != {}
      invariant ret <= todo && toAdd <= ret + {tx} && (tx in ret || toAdd == {tx}) && IsConnected(anc, ret + {tx})
      invariant Explored(anc, todo, ret - toAdd, ret)
      decreases todo - ret, |toAdd|
    {
      var was, from := ret, toAdd;
      ret := Neighbourhood(depgraph, ret, toAdd);
      ret := ret * todo;
      toAdd := ret - was;
      assert Related(anc, tx, tx);
      ComponentGrows(anc, todo, tx, was, from, ret);
    }
    assert ret + {tx} == ret;
    assert ret - toAdd == ret;
  }

  lemma {:induction false} ComponentGrows(anc: Anc, todo: set<Tx>, tx: Tx, was: set<Tx>, from: set<Tx>, ret: set<Tx>)
    requires was <= ret <= todo && from <= was + {tx} && IsConnected(anc, was + {tx})
    requires forall v :: v in ret - was ==> Touching(anc, from, {v})
    ensures IsConnected(anc, ret + {tx})
  {
    forall v | v in ret - was ensures Touching(anc, was + {tx}, {v}) {
      TouchingMore(anc, from, {v}, was + {tx}, {v});
    }
    AddRelated(anc, was + {tx}, ret - was);
    assert was + {tx} + (ret - was) == ret + {tx};
  }

  /** A subset is connected if the component of any of its members is all of it. */
  method IsConnectedSubset(depgraph: DepGraph, subset: set<Tx>) returns (connected: bool)
    requires depgraph.Valid() && subset <= depgraph.used
    ensures connected <==> subset == {} || IsConnected(depgraph.Ancestors(), subset)
  {
    var component := subset;
    if subset != {} {
      var first :| first in subset;
      component := GetConnectedComponent(depgraph, subset, first);
      if component != subset {
        assert !Touching(depgraph.Ancestors(), component, subset - component);
      }
    }
    connected := component == subset;
  }
}
