/** Aggregate feerates of transaction sets, and the potential of a family of disjoint sets. */
module TxSets {
  import opened FeeFracs

  type Tx = nat

  /** Feerates of the transactions of a cluster; every transaction has a positive size. */
  type Fees = m: map<Tx, FeeFrac> | forall t :: t in m ==> m[t].size > 0

  function FeeOf(fees: Fees, t: Tx): (r: FeeFrac)
    ensures r.size > 0
  {
    if t in fees then fees[t] else Placeholder(t)
  }

  /** `DepGraph::FeeRate(const SetType&)`: the summed fee and size of a non-empty set. */
  ghost function Total(fees: Fees, s: set<Tx>): (r: FeeFrac)
    ensures r.size > 0
  {
    if s == {} then Placeholder(|fees|) else
      var t :| t in s;
      if s == {t} then FeeOf(fees, t) else FeeOf(fees, t).Plus(Total(fees, s - {t}))
  }

  lemma {:induction false} TotalSingle(fees: Fees, x: Tx)
    ensures Total(fees, {x}) == FeeOf(fees, x)
  {
  }

  lemma {:induction false} TotalPick(fees: Fees, s: set<Tx>, x: Tx)
    requires x in s && s != {x}
    ensures Total(fees, s) == FeeOf(fees, x).Plus(Total(fees, s - {x}))
  {
    var t :| t in s && Total(fees, s) == if s == {t} then FeeOf(fees, t) else FeeOf(fees, t).Plus(Total(fees, s - {t}));
    if t != x {
      if s == {t, x} {
        assert s - {t} == {x} && s - {x} == {t};
      } else {
        assert s - {t} - {x} == s - {x} - {t};
        var u :| u in s && u != t && u != x;
        assert u in s - {t} && u in s - {x};
        TotalPick(fees, s - {t}, x);
        TotalPick(fees, s - {x}, t);
        PlusSwap(FeeOf(fees, t), FeeOf(fees, x), Total(fees, s - {x} - {t}));
      }
    }
  }

  lemma {:induction false} TotalUnion(fees: Fees, a: set<Tx>, b: set<Tx>)
    requires a !! b && a != {} && b != {}
    ensures Total(fees, a + b) == Total(fees, a).Plus(Total(fees, b))
  {
    var x :| x in a;
    assert a + b - {x} == (a - {x}) + b;
    TotalPick(fees, a + b, x);
    if a == {x} {
      assert (a - {x}) + b == b;
    } else {
      TotalUnion(fees, a - {x}, b);
      TotalPick(fees, a, x);
    }
  }

  function Pos(x: int): nat {
    if x > 0 then x else 0
  }

  /** What the transactions of a set carry, together, above the feerate `r`. */
  ghost function SetExcess(fees: Fees, s: set<Tx>, r: FeeFrac): int {
    if s == {} then 0 else
      var t :| t in s;
      Excess(FeeOf(fees, t), r) + SetExcess(fees, s - {t}, r)
  }

  lemma {:induction false} ExcessPick(fees: Fees, s: set<Tx>, x: Tx, r: FeeFrac)
    requires x in s
    ensures SetExcess(fees, s, r) == Excess(FeeOf(fees, x), r) + SetExcess(fees, s - {x}, r)
  {
    var t :| t in s && SetExcess(fees, s, r) == Excess(FeeOf(fees, t), r) + SetExcess(fees, s - {t}, r);
    if t != x {
      ExcessPick(fees, s - {t}, x, r);
      ExcessPick(fees, s - {x}, t, r);
      assert s - {t} - {x} == s - {x} - {t};
    }
  }

  lemma {:induction false} ExcessUnion(fees: Fees, a: set<Tx>, b: set<Tx>, r: FeeFrac)
    requires a !! b
    ensures SetExcess(fees, a + b, r) == SetExcess(fees, a, r) + SetExcess(fees, b, r)
  {
    if a == {} {
      assert a + b == b;
    } else {
      var x :| x in a;
      ExcessUnion(fees, a - {x}, b, r);
      ExcessPick(fees, a, x, r);
      ExcessPick(fees, a + b, x, r);
      assert a + b - {x} == (a - {x}) + b;
    }
  }

  /** The excess of a set is that of its aggregate feerate. */
  lemma {:induction false} ExcessOfTotal(fees: Fees, s: set<Tx>, r: FeeFrac)
    requires s != {}
    ensures SetExcess(fees, s, r) == Excess(Total(fees, s), r)
  {
    var x :| x in s;
    ExcessPick(fees, s, x, r);
    if s != {x} {
      ExcessOfTotal(fees, s - {x}, r);
      TotalPick(fees, s, x);
      ExcessPlus(FeeOf(fees, x), Total(fees, s - {x}), r);
    } else {
      assert s - {x} == {};
    }
  }

  function Negated(fees: Fees): (r: Fees)
  {
    map t | t in fees :: fees[t].Negated()
  }

  lemma {:induction false} TotalNegated(fees: Fees, s: set<Tx>)
    requires s != {} && s <= fees.Keys
    ensures Total(Negated(fees), s) == Total(fees, s).Negated()
  {
    var x :| x in s;
    if s != {x} {
      TotalNegated(fees, s - {x});
      TotalPick(fees, s, x);
      TotalPick(Negated(fees), s, x);
    }
  }

  lemma {:induction false} ExcessNegatedSet(fees: Fees, s: set<Tx>, r: FeeFrac)
    requires s <= fees.Keys
    ensures SetExcess(Negated(fees), s, r.Negated()) == -SetExcess(fees, s, r)
  {
    if s != {} {
      var x :| x in s;
      ExcessNegatedSet(fees, s - {x}, r);
      ExcessPick(fees, s, x, r);
      ExcessPick(Negated(fees), s, x, r.Negated());
      ExcessNegated(FeeOf(fees, x), r);
    }
  }

  /** What a set is worth above the feerate `r`, when it may be left out: the height, at slope
      `r`, that it adds to a feerate diagram. */
  ghost function Worth(fees: Fees, c: set<Tx>, r: FeeFrac): nat {
    Pos(SetExcess(fees, c, r))
  }

  /** The summed worth of a family of sets: how far above the line of slope `r` through the origin
      the feerate diagram made of these chunks reaches. */
  ghost function Potential(fees: Fees, cs: set<set<Tx>>, r: FeeFrac): nat {
    if cs == {} then 0 else
      var c :| c in cs;
      Worth(fees, c, r) + Potential(fees, cs - {c}, r)
  }

  lemma {:induction false} PotentialPick(fees: Fees, cs: set<set<Tx>>, c: set<Tx>, r: FeeFrac)
    requires c in cs
    ensures Potential(fees, cs, r) == Worth(fees, c, r) + Potential(fees, cs - {c}, r)
  {
    var d :| d in cs && Potential(fees, cs, r) == Worth(fees, d, r) + Potential(fees, cs - {d}, r);
    if d != c {
      PotentialPick(fees, cs - {d}, c, r);
      PotentialPick(fees, cs - {c}, d, r);
      assert cs - {d} - {c} == cs - {c} - {d};
    }
  }

  lemma {:induction false} PotentialUnion(fees: Fees, a: set<set<Tx>>, b: set<set<Tx>>, r: FeeFrac)
    requires a !! b
    ensures Potential(fees, a + b, r) == Potential(fees, a, r) + Potential(fees, b, r)
  {
    if a == {} {
      assert a + b == b;
    } else {
      var c :| c in a;
      PotentialUnion(fees, a - {c}, b, r);
      PotentialPick(fees, a, c, r);
      PotentialPick(fees, a + b, c, r);
      assert a + b - {c} == (a - {c}) + b;
    }
  }

  lemma {:induction false} PotentialAdd(fees: Fees, cs: set<set<Tx>>, c: set<Tx>, r: FeeFrac)
    requires c !in cs
    ensures Potential(fees, cs + {c}, r) == Potential(fees, cs, r) + Worth(fees, c, r)
  {
    PotentialPick(fees, cs + {c}, c, r);
    assert cs + {c} - {c} == cs;
  }

  lemma {:induction false} PotentialZero(fees: Fees, cs: set<set<Tx>>, r: FeeFrac)
    requires forall c :: c in cs ==> SetExcess(fees, c, r) <= 0
    ensures Potential(fees, cs, r) == 0
  {
    if cs != {} {
      var c :| c in cs;
      PotentialPick(fees, cs, c, r);
      PotentialZero(fees, cs - {c}, r);
    }
  }

  lemma {:induction false} PotentialSubset(fees: Fees, a: set<set<Tx>>, b: set<set<Tx>>, r: FeeFrac)
    requires a <= b
    ensures Potential(fees, a, r) <= Potential(fees, b, r)
  {
    assert b == a + (b - a);
    PotentialUnion(fees, a, b - a, r);
  }

  /** The union of a family. */
  ghost function Flat(cs: set<set<Tx>>): set<Tx> {
    set c, t | c in cs && t in c :: t
  }

  ghost predicate Disjoint(cs: set<set<Tx>>) {
    forall c, d :: c in cs && d in cs && c != d ==> c !! d
  }

  /** Worth above `r` minus worth below `r` is the plain excess of the union. */
  lemma {:induction false} PotentialBalance(fees: Fees, cs: set<set<Tx>>, r: FeeFrac)
    requires Disjoint(cs) && Flat(cs) <= fees.Keys
    ensures Potential(fees, cs, r) - Potential(Negated(fees), cs, r.Negated()) == SetExcess(fees, Flat(cs), r)
  {
    if cs == {} {
      assert Flat(cs) == {};
    } else {
      var c :| c in cs;
      assert Flat(cs) == c + Flat(cs - {c});
      PotentialBalance(fees, cs - {c}, r);
      PotentialPick(fees, cs, c, r);
      PotentialPick(Negated(fees), cs, c, r.Negated());
      ExcessNegatedSet(fees, c, r);
      ExcessUnion(fees, c, Flat(cs - {c}), r);
    }
  }
}
