/** Comparison, bit length and long division of limbs (`base_uint::CompareTo`, `bits` and `operator/=`). */
module LimbDivide {
  import opened LimbMath
  import opened LimbArith
  import opened LimbMultiply
  import opened LimbShift

  datatype Result<T> = Ok(value: T) | DivisionByZero

  // ---------- Comparison ----------

  /** `CompareTo`: the order of the numbers, found from the top limb down. */
  method CompareTo(a: Limbs, b: Limbs) returns (c: int)
    requires LimbsOk(a) && LimbsOk(b) && |a| == |b|
    ensures -1 <= c <= 1 && (c == -1 <==> Value(a) < Value(b)) && (c == 1 <==> Value(a) > Value(b))
  {
    var i := |a|;
    while i > 0
      invariant 0 <= i <= |a| && forall j :: i <= j < |a| ==> a[j] == b[j]
    {
      i := i - 1;
      if a[i] < b[i] {
        LessByLimb(a, b, i);
        return -1;
      }
      if a[i] > b[i] {
        LessByLimb(b, a, i);
        return 1;
      }
    }
    assert a == b;
    return 0;
  }

  lemma {:induction false} LessByLimb(a: Limbs, b: Limbs, i: nat)
    requires LimbsOk(a) && i < |a| == |b| && a[i] < b[i] && forall j :: i < j < |a| ==> a[j] == b[j]
    ensures Value(a) < Value(b)
  {
    ValueTake(a, i);
    ValueTake(b, i);
    ValueBound(a[..i]);
    LimbGap(Value(a[..i]), Pow(B, i), a[i], b[i]);
    SameAbove(a, b, i + 1, |a|, Value(b[..i + 1]) - Value(a[..i + 1]));
    ValueAll(a);
    ValueAll(b);
  }

  lemma {:induction false} LimbGap(v: nat, p: nat, x: nat, y: nat)
    requires v < p && x < y
    ensures v + p * x < p * y
  {
    MulMono(p, x + 1, y);
    Distribute(p, x, 1);
  }

  // ---------- Bit length ----------

  /** `bits`: the number of bits from the highest one that is set. */
  method Bits(a: Limbs) returns (n: nat)
    requires LimbsOk(a)
    ensures n <= 32 * |a| && (n == 0 ==> Value(a) == 0)
    ensures n > 0 ==> Pow(2, n - 1) <= Value(a) < Pow(2, n)
  {
    var pos := |a|;
    while pos > 0
      invariant 0 <= pos <= |a| && forall j :: pos <= j < |a| ==> a[j] == 0
    {
      pos := pos - 1;
      if a[pos] != 0 {
        var nbits := HighBit(a[pos]);
        BitsFound(a, pos, nbits);
        return 32 * pos + nbits + 1;
      }
    }
    ZeroPart(a, |a|);
    ValueAll(a);
    return 0;
  }

  /** The highest bit of a limb, found by testing the bits from 31 down. */
  method HighBit(x: nat) returns (nbits: nat)
    requires 0 < x < B
    ensures nbits < 32 && Pow(2, nbits) <= x < Pow(2, nbits + 1)
  {
    TwoTo32();
    nbits := 31;
    while nbits > 0
      invariant nbits < 32 && x < Pow(2, nbits + 1)
    {
      BitTest(x, Pow(2, nbits));
      if (x / Pow(2, nbits)) % 2 == 1 {
        return;
      }
      nbits := nbits - 1;
    }
  }

  lemma {:induction false} BitTest(x: nat, p: nat)
    requires p > 0 && x < 2 * p
    ensures (x / p) % 2 == 1 <==> x >= p
  {
    if x >= p {
      DivModUnique(x, p, 1, x - p);
    } else {
      DivModUnique(x, p, 0, x);
    }
  }

  lemma {:induction false} BitsFound(a: Limbs, pos: nat, nbits: nat)
    requires LimbsOk(a) && pos < |a| && (forall j :: pos < j < |a| ==> a[j] == 0) && Pow(2, nbits) <= a[pos] < Pow(2, nbits + 1)
    ensures Pow(2, 32 * pos + nbits) <= Value(a) < Pow(2, 32 * pos + nbits + 1)
  {
    ZeroAbove(a, pos + 1, |a|);
    ValueAll(a);
    ValueTake(a, pos);
    ValueBound(a[..pos]);
    PowLimbs(pos);
    PowSum(2, 32 * pos, nbits);
    PowSum(2, 32 * pos, nbits + 1);
    var p := Pow(B, pos);
    MulMono(p, Pow(2, nbits), a[pos]);
    LimbGap(Value(a[..pos]), p, a[pos], Pow(2, nbits + 1));
  }

  // ---------- Division ----------

  /** How many of the lowest `n` bits of the number belong to limb `j`. */
  function BitsBelow(n: nat, j: nat): nat {
    if n <= 32 * j then 0 else if n >= 32 * j + 32 then 32 else n - 32 * j
  }

  /** The lowest `n` bits are zero. */
  ghost predicate ClearBelow(q: Limbs, n: nat) {
    forall j {:trigger q[j]} :: 0 <= j < |q| ==> q[j] % Pow(2, BitsBelow(n, j)) == 0
  }

  /** Set bit `n` of a number whose lower bits are zero: the quotient grows by a power of two. */
  method SetBit(q: Limbs, n: nat) returns (r: Limbs)
    requires LimbsOk(q) && n / 32 < |q| && ClearBelow(q, n + 1)
    ensures LimbsOk(r) && |r| == |q| && ClearBelow(r, n) && Value(r) == Value(q) + Pow(2, n)
  {
    var j, s := n / 32, n % 32;
    SetBitLimb(q[j], s);
    r := q[j := BitOr(Pow(2, s), q[j])];
    SetBitValue(q, r, j, Pow(2, s));
    ShiftSplit(n);
    StillClear(q, n);
  }

  lemma {:induction false} SetBitLimb(x: nat, s: nat)
    requires x < B && s < 32 && x % Pow(2, s + 1) == 0
    ensures BitOr(Pow(2, s), x) == x + Pow(2, s) < B && (x + Pow(2, s)) % Pow(2, s) == 0
  {
    OrIsSum(s + 1, Pow(2, s), x);
    PowSum(2, s + 1, 31 - s);
    TwoTo32();
    LowBits(Pow(2, s), x, Pow(2, s + 1), Pow(2, 31 - s));
    HalfClear(x, Pow(2, s));
  }

  lemma {:induction false} HalfClear(x: nat, p: nat)
    requires p > 0 && x % (2 * p) == 0
    ensures x % p == 0 && (x + p) % p == 0
  {
    var k := x / (2 * p);
    assert x == 2 * p * k;
    assert x == (2 * k) * p;
    DivModUnique(x, p, 2 * k, 0);
    assert (2 * k + 1) * p == (2 * k) * p + p;
    DivModUnique(x + p, p, 2 * k + 1, 0);
  }

  lemma {:induction false} SetBitValue(q: Limbs, r: Limbs, j: nat, p: nat)
    requires j < |q| && r == q[j := q[j] + p]
    ensures Value(r) == Value(q) + p * Pow(B, j)
  {
    ValueSet(q, j, j, q[j] + p);
    ValueTake(q, j);
    ValueTake(r, j);
    Distribute(Pow(B, j), q[j], p);
    SameAbove(q, r, j + 1, |q|, p * Pow(B, j));
    ValueAll(q);
    ValueAll(r);
  }

  /** Without bit `n`, the limbs other than its own have the same bits to keep clear. */
  lemma {:induction false} StillClear(q: Limbs, n: nat)
    requires ClearBelow(q, n + 1)
    ensures ClearBelow(q, n)
  {
    forall j | 0 <= j < |q| ensures q[j] % Pow(2, BitsBelow(n, j)) == 0 {
      if BitsBelow(n, j) != BitsBelow(n + 1, j) {
        HalfClear(q[j], Pow(2, BitsBelow(n, j)));
      }
    }
  }

  lemma {:induction false} AllClear(w: nat, n: nat)
    ensures ClearBelow(Zeros(w), n)
  {
    var q := Zeros(w);
    forall j | 0 <= j < |q| ensures q[j] % Pow(2, BitsBelow(n, j)) == 0 {
      SmallMod(0, Pow(2, BitsBelow(n, j)));
    }
  }

  /** `/=`: the quotient, found bit by bit; an error for a zero divisor. */
  method Divide(a: Limbs, b: Limbs) returns (r: Result<Limbs>)
    requires LimbsOk(a) && LimbsOk(b) && |a| == |b|
    ensures Value(b) == 0 ==> r.DivisionByZero?
    ensures Value(b) > 0 ==> r.Ok? && LimbsOk(r.value) && |r.value| == |a| && Value(r.value) == Value(a) / Value(b)
  {
    var numBits := Bits(a);
    var divBits := Bits(b);
    if divBits == 0 {
      return DivisionByZero;
    }
    if divBits > numBits {
      NoQuotient(Value(a), Value(b), numBits, divBits);
      return Ok(Zeros(|a|));
    }
    var div := ShiftLeft(b, numBits - divBits);
    Aligned(Value(a), Value(b), numBits, divBits, |a|);
    var q := LongDivide(a, div, numBits - divBits, Value(b));
    return Ok(q);
  }

  lemma {:induction false} NoQuotient(v: nat, d: nat, nv: nat, nd: nat)
    requires nv < nd && Pow(2, nd - 1) <= d && if nv == 0 then v == 0 else v < Pow(2, nv)
    ensures d > 0 && v / d == 0
  {
    PowGrows(2, nv, nd - 1);
    DivModUnique(v, d, 0, v);
  }

  /** The aligned divisor fits, and the dividend is less than twice it. */
  lemma {:induction false} Aligned(v: nat, d: nat, nv: nat, nd: nat, w: nat)
    requires 0 < nd <= nv <= 32 * w && Pow(2, nd - 1) <= d < Pow(2, nd) && v < Pow(2, nv)
    ensures (d * Pow(2, nv - nd)) % Pow(B, w) == d * Pow(2, nv - nd) && v < d * Pow(2, nv - nd + 1)
  {
    AlignedFits(d, nv, nd, w);
    PowSum(2, nd - 1, nv - nd + 1);
    AtLeastTimes(Pow(2, nd - 1), d, Pow(2, nv - nd + 1));
  }

  lemma {:induction false} AlignedFits(d: nat, nv: nat, nd: nat, w: nat)
    requires 0 < nd <= nv <= 32 * w && d < Pow(2, nd)
    ensures (d * Pow(2, nv - nd)) % Pow(B, w) == d * Pow(2, nv - nd)
  {
    PowSum(2, nd, nv - nd);
    PowGrows(2, nv, 32 * w);
    PowLimbs(w);
    Fits(d, Pow(2, nd), Pow(2, nv - nd), Pow(B, w));
  }

  lemma {:induction false} Fits(d: nat, pd: nat, pn: nat, m: nat)
    requires d < pd && pn > 0 && pd * pn <= m
    ensures (d * pn) % m == d * pn
  {
    LessTimes(d, pd, pn);
    SmallMod(d * pn, m);
  }

  lemma {:induction false} AtLeastTimes(x: nat, y: nat, p: nat)
    requires x <= y
    ensures x * p <= y * p
  {
    MulMono(p, x, y);
  }

  lemma {:induction false} LessTimes(x: nat, y: nat, p: nat)
    requires x < y && p > 0
    ensures x * p < y * p
  {
    MulMono(p, x + 1, y);
    Distribute(p, x, 1);
  }

  /** What the loop of the division keeps: `q` has all bits of the quotient of `v` by `d` from `shift` + 1 up, and `num` is the rest. */
  ghost predicate Dividing(v: nat, d: nat, num: Limbs, div: Limbs, q: Limbs, shift: int) {
    && -1 <= shift < 32 * |q| && LimbsOk(num) && LimbsOk(div) && LimbsOk(q) && |num| == |div| == |q|
    && (shift >= 0 ==> Value(div) == d * Pow(2, shift))
    && Value(num) < d * Pow(2, shift + 1) && ClearBelow(q, shift + 1) && v == Value(q) * d + Value(num)
  }

  /** The loop of the division: subtract the divisor where it fits, shifted one bit less in each round. */
  method LongDivide(a: Limbs, start: Limbs, top: nat, ghost d: nat) returns (q: Limbs)
    requires LimbsOk(a) && LimbsOk(start) && |a| == |start| && top < 32 * |a|
    requires d > 0 && Value(start) == d * Pow(2, top) && Value(a) < d * Pow(2, top + 1)
    ensures LimbsOk(q) && |q| == |a| && Value(q) == Value(a) / d
  {
    var num, div, shift: int := a, start, top;
    q := Zeros(|a|);
    AllClear(|a|, top + 1);
    while shift >= 0
      invariant -1 <= shift && |q| == |a| && Dividing(Value(a), d, num, div, q, shift)
    {
      num, div, q := DivideRound(num, div, q, shift, Value(a), d);
      shift := shift - 1;
    }
    DivideEnd(Value(a), d, num, div, q);
  }

  lemma {:induction false} DivideEnd(v: nat, d: nat, num: Limbs, div: Limbs, q: Limbs)
    requires Dividing(v, d, num, div, q, -1) && d > 0
    ensures Value(q) == v / d
  {
    assert Pow(2, 0) == 1;
    DivModUnique(v, d, Value(q), Value(num));
  }

  /** One round: one bit of the quotient, and the divisor shifted one bit less. */
  method DivideRound(num: Limbs, div: Limbs, q: Limbs, shift: nat, ghost v: nat, ghost d: nat) returns (num2: Limbs, div2: Limbs, q2: Limbs)
    requires Dividing(v, d, num, div, q, shift)
    ensures |q2| == |q| && Dividing(v, d, num2, div2, q2, shift - 1)
  {
    num2, q2 := DivideBit(num, div, q, shift);
    DivisionStep(v, d, Pow(2, shift), Value(q), Value(num), Value(q2), Value(num2));
    div2 := ShiftRight(div, 1);
    if shift > 0 {
      HalfDivisor(d, shift);
    }
  }

  lemma {:induction false} HalfDivisor(d: nat, n: nat)
    requires n > 0
    ensures (d * Pow(2, n)) / Pow(2, 1) == d * Pow(2, n - 1)
  {
    assert d * (2 * Pow(2, n - 1)) == (d * Pow(2, n - 1)) * 2;
  }

  /** One bit of the quotient: set, and the divisor subtracted, exactly if the divisor is not larger. */
  method DivideBit(num: Limbs, div: Limbs, q: Limbs, n: nat) returns (num2: Limbs, q2: Limbs)
    requires LimbsOk(num) && LimbsOk(div) && LimbsOk(q) && |num| == |div| == |q| && n < 32 * |q| && ClearBelow(q, n + 1)
    ensures LimbsOk(num2) && LimbsOk(q2) && |num2| == |q2| == |q| && ClearBelow(q2, n)
    ensures Value(num) >= Value(div) ==> Value(num2) == Value(num) - Value(div) && Value(q2) == Value(q) + Pow(2, n)
    ensures Value(num) < Value(div) ==> num2 == num && q2 == q
  {
    num2, q2 := num, q;
    var c := CompareTo(num, div);
    if c >= 0 {
      num2 := Subtract(num, div);
      q2 := SetBit(q, n);
    } else {
      StillClear(q, n);
    }
  }

  lemma {:induction false} DivisionStep(t: nat, d: nat, p: nat, q: nat, num: nat, q2: nat, num2: nat)
    requires t == q * d + num && num < d * (2 * p)
    requires if num >= d * p then num2 == num - d * p && q2 == q + p else num2 == num && q2 == q
    ensures t == q2 * d + num2 && num2 < d * p
  {
    assert d * (2 * p) == d * p + d * p;
    assert (q + p) * d == q * d + d * p;
  }
}
