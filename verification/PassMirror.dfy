/** A backward pass is a forward pass over the reversed linearization, with descendants in the place
    of ancestors and with negated fees. What the one promises, the other promises too. */
module PassMirror {
  import opened FeeFracs
  import opened TxSets
  import opened Diagrams
  import opened Ancestry
  import opened Orders

  function Reversed(l: seq<Tx>): seq<Tx> {
    seq(|l|, i requires 0 <= i < |l| => l[|l| - 1 - i])
  }

  lemma {:induction false} ReversedTwice(l: seq<Tx>)
    ensures Reversed(Reversed(l)) == l
  {
  }

  lemma {:induction false} ReversedSame(l: seq<Tx>)
    ensures Elems(Reversed(l)) == Elems(l)
    ensures Distinct(l) ==> Distinct(Reversed(l))
  {
    var m := Reversed(l);
    forall t | t in l ensures t in m {
      var i :| 0 <= i < |l| && l[i] == t;
      assert m[|l| - 1 - i] == t;
    }
  }

  ghost predicate Inverses(anc: Anc, des: Anc) {
    && anc.Keys == des.Keys && (forall t :: t in anc ==> anc[t] <= anc.Keys && des[t] <= anc.Keys)
    && forall t, u :: t in anc && u in anc ==> (u in anc[t] <==> t in des[u])
  }

  lemma {:induction false} InversesFlip(anc: Anc, des: Anc)
    requires Inverses(anc, des)
    ensures Inverses(des, anc)
  {
  }

  lemma {:induction false} InverseClosure(anc: Anc, des: Anc)
    requires Inverses(anc, des) && IsClosure(anc)
    ensures IsClosure(des)
  {
    forall i, j | i in des && j in des[i] ensures Inherits(des, i, j) {
      forall t | t in des[j] ensures t in des[i] {
        assert Inherits(anc, t, j);
      }
    }
  }

  lemma {:induction false} MirrorOrder(anc: Anc, des: Anc, l: seq<Tx>)
    requires Inverses(anc, des) && IsLinearization(anc, l)
    ensures IsLinearization(des, Reversed(l))
  {
    var m := Reversed(l);
    ReversedSame(l);
    forall k | 0 <= k < |m| ensures HasBefore(des, m, k) {
      assert m[k] in Elems(m);
      forall t | t in des[m[k]] ensures t in m[..k + 1] {
        assert t in Elems(l);
        var j :| 0 <= j < |l| && l[j] == t;
        assert HasBefore(anc, l, j);
        MirrorBefore(l, j, k);
      }
    }
  }

  /** What was not before comes after in the mirror. */
  lemma {:induction false} MirrorBefore(l: seq<Tx>, j: nat, k: nat)
    requires Distinct(l) && j < |l| && k < |l| && Reversed(l)[k] in l[..j + 1]
    ensures l[j] in Reversed(l)[..k + 1]
  {
    var m, n := Reversed(l), |l|;
    var i :| 0 <= i <= j && l[i] == m[k];
    assert l[n - 1 - k] == m[k];
    assert m[n - 1 - j] == l[j];
  }

  /** The mirrored diagram is the diagram, seen from its end. */
  lemma {:induction false} MirrorPrefix(fees: Fees, l: seq<Tx>, k: nat, r: FeeFrac)
    requires Distinct(l) && Elems(l) <= fees.Keys && k <= |l|
    ensures SeqExcess(Negated(fees), Reversed(l)[..|l| - k], r.Negated()) == SeqExcess(fees, l[..k], r) - SeqExcess(fees, l, r)
  {
    var n := |l| - k;
    var m := Reversed(l)[..n];
    assert l == l[..k] + l[k..];
    SeqExcessConcat(fees, l[..k], l[k..], r);
    ReversedSame(l[k..]);
    assert m == Reversed(l[k..]);
    SeqAsSet(fees, l[k..], r);
    SeqAsSet(Negated(fees), m, r.Negated());
    ExcessNegatedSet(fees, Elems(l[k..]), r);
  }

  lemma {:induction false} MirrorBest(fees: Fees, l: seq<Tx>, r: FeeFrac)
    requires Distinct(l) && Elems(l) <= fees.Keys
    ensures Best(Negated(fees), Reversed(l), r.Negated()) == Best(fees, l, r) - SeqExcess(fees, l, r)
  {
    var nf, m, nr := Negated(fees), Reversed(l), r.Negated();
    BestIsMaximum(fees, l, r);
    BestIsMaximum(nf, m, nr);
    var k :| 0 <= k <= |l| && PrefixExcess(fees, l, k, r) == Best(fees, l, r);
    MirrorPrefix(fees, l, k, r);
    assert PrefixExcess(nf, m, |l| - k, nr) <= Best(nf, m, nr);
    var j :| 0 <= j <= |m| && PrefixExcess(nf, m, j, nr) == Best(nf, m, nr);
    MirrorPrefix(fees, l, |l| - j, r);
    assert PrefixExcess(fees, l, |l| - j, r) <= Best(fees, l, r);
  }

  lemma {:induction false} NegatedTwice(r: FeeFrac)
    ensures r.Negated().Negated() == r && r.Negated().size == r.size
  {
  }

  /** Not worse in the mirror, not worse. */
  lemma {:induction false} MirrorNowhereBelow(fees: Fees, a: seq<Tx>, b: seq<Tx>)
    requires IsPermutation(a, fees.Keys) && IsPermutation(b, fees.Keys)
    requires NowhereBelow(Negated(fees), Reversed(a), Reversed(b))
    ensures NowhereBelow(fees, a, b)
  {
    forall r: FeeFrac | r.size > 0 ensures NotBelowAt(fees, a, b, r) {
      MirrorBest(fees, a, r);
      MirrorBest(fees, b, r);
      NegatedTwice(r);
      SeqAsSet(fees, a, r);
      SeqAsSet(fees, b, r);
      assert NotBelowAt(Negated(fees), Reversed(a), Reversed(b), r.Negated());
    }
  }

  /** Optimal in the mirror, optimal. */
  lemma {:induction false} MirrorOptimal(anc: Anc, des: Anc, fees: Fees, l: seq<Tx>)
    requires Inverses(anc, des) && anc.Keys == fees.Keys && IsPermutation(l, fees.Keys)
    requires IsOptimal(des, Negated(fees), Reversed(l))
    ensures IsOptimal(anc, fees, l)
  {
    forall s | AncestorClosed(anc, s) ensures NotAbove(fees, s, l) {
      var u := anc.Keys - s;
      assert AncestorClosed(des, u);
      assert NotAbove(Negated(fees), u, Reversed(l));
      forall r: FeeFrac | r.size > 0 ensures SetExcess(fees, s, r) <= Best(fees, l, r) {
        NegatedTwice(r);
        MirrorBest(fees, l, r);
        ExcessNegatedSet(fees, u, r);
        ExcessUnion(fees, s, u, r);
        assert s + u == fees.Keys;
        SeqAsSet(fees, l, r);
        assert SetExcess(Negated(fees), u, r.Negated()) <= Best(Negated(fees), Reversed(l), r.Negated());
      }
    }
  }
}
