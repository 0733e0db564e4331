/** Bitwise exclusive or of natural numbers. */
module XorMath {
  import opened LimbMath
  import opened LimbArith

  function Xor(x: nat, y: nat): nat {
    if x == 0 then y else if y == 0 then x
    else 2 * Xor(x / 2, y / 2) + (if x % 2 == y % 2 then 0 else 1)
  }

  lemma {:induction false} XorHalves(x: nat, y: nat)
    ensures Xor(x, y) == 2 * Xor(x / 2, y / 2) + (if x % 2 == y % 2 then 0 else 1)
    ensures Xor(x, y) / 2 == Xor(x / 2, y / 2) && (Xor(x, y) % 2 == 0 <==> x % 2 == y % 2)
  {
  }

  function Differ(x: nat, y: nat): nat {
    if x % 2 == y % 2 then 0 else 1
  }

  lemma {:induction false} XorBit(x: nat, y: nat, h: nat)
    requires Xor(x / 2, y / 2) == h
    ensures Xor(x, y) == Differ(x, y) + 2 * h
  {
    XorHalves(x, y);
  }

  /** Five bits, one by one. */
  lemma {:induction false} XorIs(x: nat, y: nat, z: nat)
    requires x < 32 && y < 32
    requires z == Differ(x, y) + 2 * Differ(x / 2, y / 2) + 4 * Differ(x / 2 / 2, y / 2 / 2)
                  + 8 * Differ(x / 2 / 2 / 2, y / 2 / 2 / 2) + 16 * Differ(x / 2 / 2 / 2 / 2, y / 2 / 2 / 2 / 2)
    ensures Xor(x, y) == z
  {
    var x1, y1 := x / 2, y / 2;
    var x2, y2 := x1 / 2, y1 / 2;
    var x3, y3 := x2 / 2, y2 / 2;
    var x4, y4 := x3 / 2, y3 / 2;
    var h4 := Differ(x4, y4);
    var h3 := Differ(x3, y3) + 2 * h4;
    var h2 := Differ(x2, y2) + 2 * h3;
    XorBit(x4, y4, 0);
    XorBit(x3, y3, h4);
    XorBit(x2, y2, h3);
    XorBit(x1, y1, h2);
    XorBit(x, y, Differ(x1, y1) + 2 * h2);
  }

  lemma {:induction false} XorComm(x: nat, y: nat)
    ensures Xor(x, y) == Xor(y, x)
    decreases x
  {
    if x > 0 && y > 0 {
      XorComm(x / 2, y / 2);
    }
  }

  lemma {:induction false} XorAssoc(x: nat, y: nat, z: nat)
    ensures Xor(Xor(x, y), z) == Xor(x, Xor(y, z))
    decreases x + y + z
  {
    if x > 0 && y > 0 && z > 0 {
      XorHalves(x, y);
      XorHalves(y, z);
      XorHalves(Xor(x, y), z);
      XorHalves(x, Xor(y, z));
      XorAssoc(x / 2, y / 2, z / 2);
    }
  }

  lemma {:induction false} XorSelf(x: nat)
    ensures Xor(x, x) == 0
    decreases x
  {
    if x > 0 {
      XorSelf(x / 2);
    }
  }

  lemma {:induction false} XorZero(x: nat, y: nat)
    requires Xor(x, y) == 0
    ensures x == y
    decreases x
  {
    if x > 0 && y > 0 {
      XorZero(x / 2, y / 2);
    }
  }

  lemma {:induction false} XorPairs(a: nat, b: nat, c: nat, d: nat)
    ensures Xor(Xor(a, b), Xor(c, d)) == Xor(Xor(a, c), Xor(b, d))
  {
    XorAssoc(a, b, Xor(c, d));
    XorAssoc(b, c, d);
    XorComm(b, c);
    XorAssoc(c, b, d);
    XorAssoc(a, c, Xor(b, d));
  }

  lemma {:induction false} PickXor(p: bool, q: bool, k: nat, x: nat, y: nat)
    ensures Xor(if p != q then k else 0, Xor(x, y)) == Xor(Xor(if p then k else 0, x), Xor(if q then k else 0, y))
  {
    XorPairs(if p then k else 0, x, if q then k else 0, y);
    XorSelf(k);
  }

  /** What is above the lowest `t` bits, and these bits. */
  function Above(u: nat, t: nat): nat {
    if t == 0 then u else Above(u / 2, t - 1)
  }

  function Lowest(u: nat, t: nat): nat {
    if t == 0 then 0 else u % 2 + 2 * Lowest(u / 2, t - 1)
  }

  lemma {:induction false} PartsOf(u: nat, t: nat, p: nat)
    requires p == Pow(2, t)
    ensures u == Lowest(u, t) + p * Above(u, t) && Lowest(u, t) < p
    decreases t
  {
    if t > 0 {
      PartsOf(u / 2, t - 1, Pow(2, t - 1));
      Doubled(Pow(2, t - 1), Above(u / 2, t - 1));
    }
  }

  lemma {:induction false} PartsAre(u: nat, t: nat, p: nat, x: nat, y: nat)
    requires p == Pow(2, t) && u == x + p * y && x < p
    ensures Lowest(u, t) == x && Above(u, t) == y
  {
    PartsOf(u, t, p);
    DivModUnique(u, p, y, x);
    DivModUnique(u, p, Above(u, t), Lowest(u, t));
  }

  lemma {:induction false} XorAbove(u: nat, v: nat, t: nat)
    ensures Above(Xor(u, v), t) == Xor(Above(u, t), Above(v, t))
    decreases t
  {
    if t > 0 {
      XorHalves(u, v);
      XorAbove(u / 2, v / 2, t - 1);
    }
  }

  lemma {:induction false} LowestHalf(u: nat, t: nat)
    requires t > 0
    ensures Lowest(u, t) / 2 == Lowest(u / 2, t - 1) && Lowest(u, t) % 2 == u % 2
  {
  }

  lemma {:induction false} XorLowest(u: nat, v: nat, t: nat)
    ensures Lowest(Xor(u, v), t) == Xor(Lowest(u, t), Lowest(v, t))
    decreases t
  {
    if t > 0 {
      var w, h := Xor(u, v), Lowest(Xor(u / 2, v / 2), t - 1);
      XorHalves(u, v);
      assert Lowest(w, t) == Differ(u, v) + 2 * h;
      XorLowest(u / 2, v / 2, t - 1);
      LowestHalf(u, t);
      LowestHalf(v, t);
      XorBit(Lowest(u, t), Lowest(v, t), h);
    }
  }

  /** The upper and the lower bits are combined separately. */
  lemma {:induction false} XorSplit(t: nat, p: nat, u: nat, x: nat, y: nat, v: nat, x2: nat, y2: nat)
    requires p == Pow(2, t) && u == x + p * y && v == x2 + p * y2 && x < p && x2 < p
    ensures Xor(u, v) == Xor(x, x2) + p * Xor(y, y2)
  {
    PartsAre(u, t, p, x, y);
    PartsAre(v, t, p, x2, y2);
    XorAbove(u, v, t);
    XorLowest(u, v, t);
    PartsOf(Xor(u, v), t, p);
  }

  lemma {:induction false} XorBelow(t: nat, p: nat, x: nat, y: nat)
    requires p == Pow(2, t) && x < p && y < p
    ensures Xor(x, y) < p
    decreases t
  {
    if t > 0 {
      XorBelow(t - 1, Pow(2, t - 1), x / 2, y / 2);
      XorHalves(x, y);
    }
  }

  /** Without common bits, exclusive or is a sum. */
  lemma {:induction false} XorIsSum(t: nat, p: nat, x: nat, y: nat, k: nat)
    requires p == Pow(2, t) && x < p && k == p * y
    ensures Xor(k, x) == k + x && Xor(x, k) == x + k
  {
    XorSplit(t, p, k, 0, y, x, x, 0);
    XorComm(y, 0);
    XorComm(k, x);
  }

  lemma {:induction false} BitAndRest(c: nat, t: nat, p: nat)
    requires p == Pow(2, t)
    ensures Xor(if c % 2 == 1 then p else 0, (2 * p) * (c / 2)) == p * c
  {
    var bit := if c % 2 == 1 then p else 0;
    XorIsSum(t + 1, 2 * p, bit, c / 2, (2 * p) * (c / 2));
    BitSum(p, c / 2, c % 2);
  }

  lemma {:induction false} BitSum(p: nat, h: nat, b: nat)
    requires b < 2
    ensures (2 * p) * h + (if b == 1 then p else 0) == p * (2 * h + b)
  {
    assert p * (2 * h + b) == p * (2 * h) + p * b;
  }
}
