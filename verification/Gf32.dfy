/** The field GF(32), as bits of natural numbers: addition is exclusive or, multiplication is modulo a^5 + a^3 + 1. */
module Gf32 {
  import opened LimbMath
  import opened XorMath

  /** a^5 + a^3 + 1. */
  const FIELD_MOD: nat := 41

  /** {2} * {x}. */
  function Twice(x: nat): nat {
    if x < 16 then 2 * x else Xor(2 * x, FIELD_MOD)
  }

  /** {x} * {y}: the sum of {2^i} * {y} over the bits i of x. */
  function Times(x: nat, y: nat): nat
    decreases x
  {
    if x == 0 then 0 else Xor(if x % 2 == 1 then y else 0, Times(x / 2, Twice(y)))
  }

  // ---------- Doubling ----------

  function Doubling(x: nat): nat {
    if x < 16 then 2 * x else if 20 <= x < 24 || 28 <= x then 2 * x - 39 else 2 * x - 23
  }

  /** Doubling, written out: when bit 4 is carried out, bit 3 changes and bit 0 is set. */
  lemma {:induction false} TwiceIs(x: nat)
    requires x < 32
    ensures Twice(x) < 32
    ensures Twice(x) == Doubling(x)
  {
    if x >= 16 {
      XorMod(x, FIELD_MOD);
    }
  }

  lemma {:induction false} XorMod(x: nat, m: nat)
    requires 16 <= x < 32 && m == FIELD_MOD
    ensures Xor(2 * x, m) == if 20 <= x < 24 || 28 <= x then 2 * x - 39 else 2 * x - 23
  {
    var h, n := x - 16, m - 32;
    assert 2 * h + 32 == 2 * x && n + 32 == m;
    CarryOut(2 * h, n);
    XorNine(h, n);
  }

  lemma {:induction false} CarryOut(x: nat, y: nat)
    requires x < 32 && y < 32
    ensures Xor(x + 32, y + 32) == Xor(x, y)
  {
    PowersOfTwo();
    XorSplit(5, 32, x + 32, x, 1, y + 32, y, 1);
    XorSelf(1);
  }

  lemma {:induction false} XorNine(h: nat, n: nat)
    requires h < 16 && n == 9
    ensures Xor(2 * h, n) == if 4 <= h < 8 || 12 <= h then 2 * h - 7 else 2 * h + 9
  {
    var q := h / 2 / 2;
    XorBit(q, 1, q / 2);
    XorBit(h / 2, 2, Xor(q, 1));
    XorBit(h, 4, Xor(h / 2, 2));
    XorBit(2 * h, n, Xor(h, 4));
  }

  lemma {:induction false} PowersOfTwo()
    ensures Pow(2, 4) == 16 && Pow(2, 5) == 32
  {
  }

  lemma {:induction false} DoubleXor(x: nat, y: nat)
    ensures 2 * Xor(x, y) == Xor(2 * x, 2 * y)
  {
    XorBit(2 * x, 2 * y, Xor(x, y));
  }

  /** Which values carry out of five bits when doubled. */
  lemma {:induction false} TopBit(x: nat, y: nat)
    requires x < 32 && y < 32
    ensures Xor(x, y) < 32 && (Xor(x, y) < 16 <==> (x < 16 <==> y < 16))
  {
    PowersOfTwo();
    XorBelow(5, 32, x, y);
    XorSplit(4, 16, x, x % 16, x / 16, y, y % 16, y / 16);
    XorBelow(4, 16, x % 16, y % 16);
  }

  lemma {:induction false} TwiceLinear(x: nat, y: nat)
    requires x < 32 && y < 32
    ensures Twice(Xor(x, y)) == Xor(Twice(x), Twice(y))
  {
    TopBit(x, y);
    DoubleXor(x, y);
    var a, b := if x < 16 then 0 else FIELD_MOD, if y < 16 then 0 else FIELD_MOD;
    XorPairs(2 * x, a, 2 * y, b);
    XorSelf(FIELD_MOD);
    XorComm(2 * x, 0);
    XorComm(2 * y, 0);
    XorComm(Xor(2 * x, 2 * y), 0);
  }

  // ---------- The ring laws ----------

  lemma {:induction false} TimesBelow(x: nat, y: nat)
    requires y < 32
    ensures Times(x, y) < 32
    decreases x
  {
    if x > 0 {
      TwiceIs(y);
      TimesBelow(x / 2, Twice(y));
      PowersOfTwo();
      XorBelow(5, 32, if x % 2 == 1 then y else 0, Times(x / 2, Twice(y)));
    }
  }

  lemma {:induction false} TimesZero(x: nat)
    ensures Times(x, 0) == 0
    decreases x
  {
    if x > 0 {
      TimesZero(x / 2);
    }
  }

  lemma {:induction false} TimesSum(x: nat, y: nat, z: nat)
    ensures Times(Xor(x, y), z) == Xor(Times(x, z), Times(y, z))
    decreases x + y
  {
    if x > 0 && y > 0 {
      XorHalves(x, y);
      TimesSum(x / 2, y / 2, Twice(z));
      PickXor(x % 2 == 1, y % 2 == 1, z, Times(x / 2, Twice(z)), Times(y / 2, Twice(z)));
      XorSelf(x);
    } else {
      XorComm(x, y);
      XorComm(Times(x, z), Times(y, z));
    }
  }

  lemma {:induction false} SumTimes(x: nat, y: nat, z: nat)
    requires y < 32 && z < 32
    ensures Times(x, Xor(y, z)) == Xor(Times(x, y), Times(x, z))
    decreases x
  {
    if x > 0 {
      TwiceLinear(y, z);
      TwiceIs(y);
      TwiceIs(z);
      SumTimes(x / 2, Twice(y), Twice(z));
      XorPairs(if x % 2 == 1 then y else 0, Times(x / 2, Twice(y)), if x % 2 == 1 then z else 0, Times(x / 2, Twice(z)));
    }
  }

  lemma {:induction false} TimesTwice(x: nat, y: nat)
    requires y < 32
    ensures Times(x, Twice(y)) == Twice(Times(x, y))
    decreases x
  {
    if x > 0 {
      TwiceIs(y);
      TimesTwice(x / 2, Twice(y));
      TimesBelow(x / 2, Twice(y));
      TwiceLinear(if x % 2 == 1 then y else 0, Times(x / 2, Twice(y)));
    }
  }

  /** {1} is neutral. */
  lemma {:induction false} TimesOne(x: nat, t: nat, p: nat)
    requires p == Pow(2, t) && x * p < 32
    ensures Times(x, p) == x * p
    decreases x
  {
    if x > 0 {
      if x / 2 > 0 {
        SmallFactor(x, p);
        TimesOne(x / 2, t + 1, 2 * p);
      }
      BitAndRest(x, t, p);
    }
  }

  lemma {:induction false} SmallFactor(x: nat, p: nat)
    requires x * p < 32 && x / 2 > 0
    ensures p < 16 && (x / 2) * (2 * p) < 32
  {
    MulMono(p, 2 * (x / 2), x);
    assert p * (2 * (x / 2)) == (x / 2) * (2 * p);
    MulMono(2 * p, 1, x / 2);
  }

  lemma {:induction false} TimesUnit(x: nat)
    requires x < 32
    ensures Times(x, 1) == x
  {
    TimesOne(x, 0, 1);
  }

  /** One bit of the left factor. */
  lemma {:induction false} TimesBit(x: nat, y: nat, z: nat)
    requires x > 0 && Twice(y) == z
    ensures Times(x, y) == if x % 2 == 1 then Xor(y, Times(x / 2, z)) else Times(x / 2, z)
  {
  }

  /** a^5 + a^3 + 1 is zero in the field. */
  lemma {:induction false} ModTimesOne(m: nat, one: nat)
    requires m == FIELD_MOD && one == 1
    ensures Times(m, one) == 0
  {
    TimesBit(m, one, 2);
    TimesBit(m / 2, 2, 4);
    TimesBit(m / 2 / 2, 4, 8);
    FiveTimesEight(m / 2 / 2 / 2);
    XorSelf(one);
  }

  lemma {:induction false} FiveTimesEight(x: nat)
    requires x == 5
    ensures Times(x, 8) == 1
  {
    TwiceIs(16);
    TimesBit(x, 8, 16);
    TimesBit(x / 2, 16, 9);
    TimesBit(x / 2 / 2, 9, 18);
    XorIs(8, 9, 1);
  }

  /** What annihilates {1} annihilates everything. */
  lemma {:induction false} Vanishes(m: nat, z: nat)
    requires Times(m, 1) == 0 && z < 32
    ensures Times(m, z) == 0
    decreases z
  {
    if z == 0 {
      TimesZero(m);
    } else if z % 2 == 0 {
      Vanishes(m, z / 2);
      TimesTwice(m, z / 2);
    } else {
      Vanishes(m, z - 1);
      OddXor(z);
      SumTimes(m, 1, z - 1);
    }
  }

  lemma {:induction false} OddXor(z: nat)
    requires z % 2 == 1
    ensures Xor(1, z - 1) == z
  {
    XorBit(1, z - 1, z / 2);
  }

  lemma {:induction false} TwiceTimes(x: nat, y: nat)
    requires x < 32 && y < 32
    ensures Times(Twice(x), y) == Times(x, Twice(y))
  {
    DoubleTimes(x, y);
    if x >= 16 {
      ReducedTimes(2 * x, FIELD_MOD, y);
    }
  }

  lemma {:induction false} DoubleTimes(x: nat, y: nat)
    ensures Times(2 * x, y) == Times(x, Twice(y))
  {
    if x > 0 {
      TimesBit(2 * x, y, Twice(y));
    }
  }

  lemma {:induction false} ReducedTimes(x: nat, m: nat, y: nat)
    requires m == FIELD_MOD && y < 32
    ensures Times(Xor(x, m), y) == Times(x, y)
  {
    TimesSum(x, m, y);
    ModTimesOne(m, 1);
    Vanishes(m, y);
    XorComm(Times(x, y), 0);
  }

  lemma {:induction false} TimesAssoc(x: nat, y: nat, z: nat)
    requires y < 32 && z < 32
    ensures Times(Times(x, y), z) == Times(x, Times(y, z))
    decreases x
  {
    if x > 0 {
      TwiceIs(y);
      TimesAssoc(x / 2, Twice(y), z);
      TimesSum(if x % 2 == 1 then y else 0, Times(x / 2, Twice(y)), z);
      TwiceTimes(y, z);
      TimesTwice(y, z);
    }
  }

  /** The constant coefficient of the generator can be divided by: {18} * {17} = {1}. */
  lemma {:induction false} Inverse(x: nat, y: nat)
    requires x == 18 && y == 17
    ensures Times(x, y) == 1
  {
    TwiceIs(17);
    TwiceIs(22);
    TimesBit(x, y, 11);
    TimesBit(x / 2, 11, 22);
    TimesBit(x / 2 / 2, 22, 5);
    TimesBit(x / 2 / 2 / 2, 5, 10);
    TimesBit(x / 2 / 2 / 2 / 2, 10, 20);
    XorIs(11, 10, 1);
  }
}
