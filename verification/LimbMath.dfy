/** Numbers as 32-bit limbs, least significant first, and the arithmetic needed to reason about them. */
module LimbMath {

  const B: nat := 0x1_0000_0000

  type Limbs = seq<nat>

  ghost predicate LimbsOk(l: Limbs) {
    forall i :: 0 <= i < |l| ==> l[i] < B
  }

  function Pow(b: nat, n: nat): (p: nat)
    ensures b > 0 ==> p > 0
  {
    if n == 0 then 1 else b * Pow(b, n - 1)
  }

  /** The number that the limbs stand for. */
  ghost function Value(l: Limbs): nat {
    if l == [] then 0 else Value(l[..|l| - 1]) + Pow(B, |l| - 1) * l[|l| - 1]
  }

  lemma {:induction false} PowSum(b: nat, m: nat, n: nat)
    ensures Pow(b, m + n) == Pow(b, m) * Pow(b, n)
    decreases n
  {
    if n > 0 {
      PowSum(b, m, n - 1);
      assert Pow(b, m + n) == b * Pow(b, m + n - 1);
      assert b * (Pow(b, m) * Pow(b, n - 1)) == Pow(b, m) * (b * Pow(b, n - 1));
    }
  }

  lemma {:induction false} ValueBound(l: Limbs)
    requires LimbsOk(l)
    ensures Value(l) < Pow(B, |l|)
    decreases |l|
  {
    if l != [] {
      var n := |l| - 1;
      ValueBound(l[..n]);
      BoundStep(Value(l[..n]), Pow(B, n), l[n], B);
    }
  }

  lemma {:induction false} MulMono(p: nat, x: nat, y: nat)
    requires x <= y
    ensures p * x <= p * y
  {
    assert p * y == p * x + p * (y - x);
  }

  lemma {:induction false} AtLeastOnce(m: nat, p: nat)
    ensures m == 0 ==> m * p == 0
    ensures m > 0 ==> m * p >= p
  {
    if m > 0 {
      MulMono(p, 1, m);
    }
  }

  lemma {:induction false} PowGrows(b: nat, m: nat, n: nat)
    requires b > 0 && m <= n
    ensures Pow(b, m) <= Pow(b, n)
  {
    PowSum(b, m, n - m);
    MulMono(Pow(b, m), 1, Pow(b, n - m));
  }

  lemma {:induction false} Doubled(p: nat, y: nat)
    ensures (2 * p) * y == 2 * (p * y) >= 0
  {
  }

  lemma {:induction false} BoundStep(v: nat, p: nat, x: nat, b: nat)
    requires v < p && x < b
    ensures v + p * x < b * p
  {
    MulMono(p, x, b - 1);
    assert p * (b - 1) == b * p - p;
  }

  lemma {:induction false} ValueTake(l: Limbs, i: nat)
    requires i < |l|
    ensures Value(l[..i + 1]) == Value(l[..i]) + Pow(B, i) * l[i]
  {
    assert l[..i + 1][..i] == l[..i];
  }

  lemma {:induction false} ValueAll(l: Limbs)
    ensures l[..|l|] == l && l[..0] == [] && Value(l[..0]) == 0
  {
  }

  /** Replacing a limb beyond `i` does not change the value of the first `i`. */
  lemma {:induction false} ValueSet(l: Limbs, i: nat, k: nat, x: nat)
    requires k <= i < |l|
    ensures l[i := x][..k] == l[..k]
  {
  }

  /** A sum below the modulus, plus multiples of it. */
  lemma {:induction false} ModIs(r: nat, c: nat, m: nat, t: nat)
    requires r < m && r + c * m == t
    ensures t % m == r && t / m == c
  {
    DivModUnique(t, m, c, r);
  }

  lemma {:induction false} DivModUnique(t: int, m: int, q: int, r: int)
    requires 0 <= r < m && t == q * m + r
    ensures t / m == q && t % m == r
  {
    var q', r' := t / m, t % m;
    assert t == m * q' + r' && 0 <= r' < m;
    NoMultiple(q' - q, m, r - r') by {
      assert (q' - q) * m == m * q' - q * m;
    }
  }

  lemma {:induction false} NoMultiple(k: int, m: int, d: int)
    requires k * m == d && -m < d < m
    ensures k == 0 && d == 0
  {
  }

  /** Adding a carry from one limb to the next. */
  lemma {:induction false} CarryStep(p: nat, v: nat, carry: nat, t: nat, n: nat, x: nat)
    requires v + carry * p == t && n == carry + x
    ensures v + p * (n % B) + (n / B) * (B * p) == t + p * x
  {
    assert n == B * (n / B) + n % B;
    assert p * n == p * carry + p * x;
    assert p * n == p * (B * (n / B)) + p * (n % B);
    assert p * (B * (n / B)) == (n / B) * (B * p);
  }
}
