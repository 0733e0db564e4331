/** Fees and sizes (`util/feefrac.h`): an integer fee with a positive size, ordered by
    fee/size through cross-multiplication, so that no division is ever needed. */
module FeeFracs {

  /** A feerate to fill a place that is never read, such as the feerate of no transactions at all. */
  function Placeholder(n: nat): (r: FeeFrac)
    ensures r.size > 0
  {
    FeeFrac(n, n + 1)
  }

  datatype FeeFrac = FeeFrac(fee: int, size: int) {
    function Plus(other: FeeFrac): FeeFrac {
      FeeFrac(fee + other.fee, size + other.size)
    }

    function Minus(other: FeeFrac): FeeFrac {
      FeeFrac(fee - other.fee, size - other.size)
    }

    function Negated(): FeeFrac {
      FeeFrac(-fee, size)
    }
  }

  /** The sign of `Excess(a, b)` is `FeeRateCompare(a, b)`. Read as a number, it is the fee that
      `a` carries above what its size would cost at feerate `b`, scaled by the size of `b`. */
  function Excess(a: FeeFrac, b: FeeFrac): int {
    a.fee * b.size - b.fee * a.size
  }

  /** `a >> b`: strictly higher feerate. */
  predicate Higher(a: FeeFrac, b: FeeFrac) {
    Excess(a, b) > 0
  }

  /** `a >= b` by feerate only. */
  predicate AtLeast(a: FeeFrac, b: FeeFrac) {
    Excess(a, b) >= 0
  }

  lemma {:induction false} PlusSwap(a: FeeFrac, b: FeeFrac, c: FeeFrac)
    ensures a.Plus(b.Plus(c)) == b.Plus(a.Plus(c))
  {
  }

  lemma {:induction false} ExcessPlus(a: FeeFrac, b: FeeFrac, r: FeeFrac)
    ensures Excess(a.Plus(b), r) == Excess(a, r) + Excess(b, r)
  {
    assert (a.fee + b.fee) * r.size == a.fee * r.size + b.fee * r.size;
    assert r.fee * (a.size + b.size) == r.fee * a.size + r.fee * b.size;
  }

  lemma {:induction false} ExcessFlip(a: FeeFrac, b: FeeFrac)
    ensures Excess(a, b) == -Excess(b, a)
  {
  }

  lemma {:induction false} ExcessNegated(a: FeeFrac, b: FeeFrac)
    ensures Excess(a.Negated(), b.Negated()) == -Excess(a, b)
  {
    assert (-a.fee) * b.size == -(a.fee * b.size);
    assert (-b.fee) * a.size == -(b.fee * a.size);
  }

  lemma {:induction false} CrossTrans(a: FeeFrac, b: FeeFrac, c: FeeFrac)
    ensures Excess(a, b) * c.size + Excess(b, c) * a.size == Excess(a, c) * b.size
  {
  }

  lemma {:induction false} SignOfSum(x: int, y: int, z: int, a: int, b: int, c: int)
    requires a > 0 && b > 0 && c > 0 && x >= 0 && y >= 0
    requires x * c + y * a == z * b
    ensures z >= 0
    ensures x > 0 || y > 0 ==> z > 0
  {
    assert x * c >= 0 && y * a >= 0;
    assert x > 0 ==> x * c > 0;
    assert y > 0 ==> y * a > 0;
    assert z < 0 ==> z * b < 0;
    assert z <= 0 ==> z * b <= 0;
  }

  /** Comparison by feerate is transitive, and strict as soon as one of its steps is. */
  lemma {:induction false} HigherTrans(a: FeeFrac, b: FeeFrac, c: FeeFrac)
    requires b.size > 0 && a.size > 0 && c.size > 0
    requires AtLeast(a, b) && AtLeast(b, c)
    ensures AtLeast(a, c)
    ensures Higher(a, b) || Higher(b, c) ==> Higher(a, c)
  {
    CrossTrans(a, b, c);
    SignOfSum(Excess(a, b), Excess(b, c), Excess(a, c), a.size, b.size, c.size);
  }

  /** What is not above a set that is not above `r` is not above `r`. */
  lemma {:induction false} LowerTrans(a: FeeFrac, b: FeeFrac, r: FeeFrac)
    requires a.size > 0 && b.size > 0 && r.size > 0
    requires AtLeast(a, b) && !Higher(a, r)
    ensures !Higher(b, r)
  {
    if Higher(b, r) {
      HigherTrans(a, b, r);
    }
  }

  /** A sum lies between its parts. */
  lemma {:induction false} Mediant(a: FeeFrac, b: FeeFrac)
    ensures Excess(a.Plus(b), b) == Excess(a, b)
    ensures Excess(a, a.Plus(b)) == Excess(a, b)
  {
    ExcessPlus(a, b, b);
    ExcessPlus(a, b, a);
    ExcessFlip(a, a.Plus(b));
    ExcessFlip(a, b);
  }

  /** If the first part of a sum is lower than the sum, then the second part is higher. */
  lemma {:induction false} SuffixHigher(f: FeeFrac, f1: FeeFrac, f2: FeeFrac)
    requires f == f1.Plus(f2)
    ensures Excess(f2, f) == Excess(f, f1)
  {
    ExcessPlus(f1, f2, f);
    ExcessFlip(f1, f);
  }
}
