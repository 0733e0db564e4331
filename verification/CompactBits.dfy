/** The compact encoding of a target: a mantissa of 23 bits, a sign and a base-256 exponent in one 32-bit word. */
module CompactBits {
  import opened LimbMath
  import opened LimbArith
  import opened LimbShift
  import opened LimbDivide

  const SIGN: nat := 0x80_0000
  const WORD: nat := 0x100_0000

  function Size(c: nat): nat { c / WORD }

  function Mantissa(c: nat): nat { c % SIGN }

  predicate SignBit(c: nat) { (c / SIGN) % 2 == 1 }

  /** The number encoded: the mantissa times 256 to the power of the size less three, rounded down. */
  ghost function CompactValue(c: nat): nat { Mantissa(c) * Pow(256, Size(c)) / WORD }

  /** `c` encodes `v` rounded down to the digits of the mantissa, with the least size that keeps the sign bit free. */
  ghost predicate IsCompactOf(c: nat, v: nat) {
    && Mantissa(c) * Pow(256, Size(c)) <= v * WORD < (Mantissa(c) + 1) * Pow(256, Size(c))
    && (v > 0 ==> Mantissa(c) >= 0x8000) && (v == 0 ==> Size(c) == 0)
  }

  /** A word that the encoder can produce: nothing is rounded off, and the size is the least possible. */
  ghost predicate Canonical(c: nat) {
    && (Mantissa(c) * Pow(256, Size(c))) % WORD == 0
    && if Mantissa(c) == 0 then Size(c) == 0 else Mantissa(c) >= 0x8000
  }

  // ---------- Powers of 256 ----------

  lemma {:induction false} PowBytes(n: nat)
    ensures Pow(2, 8 * n) == Pow(256, n)
    decreases n
  {
    if n > 0 {
      PowBytes(n - 1);
      assert Pow(2, 4) == 16;
      PowSum(2, 4, 4);
      PowSum(2, 8, 8 * (n - 1));
    }
  }

  lemma {:induction false} ThreeBytes()
    ensures Pow(256, 3) == WORD
  {
    assert Pow(256, 1) == 256;
    assert Pow(256, 2) == 65536;
  }

  lemma {:induction false} BytesMono(m: nat, n: nat)
    requires m <= n
    ensures Pow(256, m) <= Pow(256, n) && (m < n ==> 256 * Pow(256, m) <= Pow(256, n))
  {
    PowSum(256, m, n - m);
    MulMono(Pow(256, m), 1, Pow(256, n - m));
    if m < n {
      PowSum(256, m + 1, n - m - 1);
      MulMono(Pow(256, m + 1), 1, Pow(256, n - m - 1));
    }
  }

  // ---------- One encoding for each number ----------

  /** Two words of the same sign that encode the same number are equal. */
  lemma {:induction false} CompactUnique(c1: nat, c2: nat, v: nat)
    requires IsCompactOf(c1, v) && IsCompactOf(c2, v) && SignBit(c1) == SignBit(c2)
    ensures c1 == c2
  {
    SizeAtMost(c1, c2, v);
    SizeAtMost(c2, c1, v);
    SameQuotient(Mantissa(c1), Mantissa(c2), Pow(256, Size(c1)), v * WORD);
    Parts(c1);
    Parts(c2);
  }

  lemma {:induction false} Parts(c: nat)
    ensures c == Size(c) * WORD + (if SignBit(c) then SIGN else 0) + Mantissa(c)
  {
    assert c == SIGN * (c / SIGN) + Mantissa(c);
    DivModUnique(c, WORD, (c / SIGN) / 2, (c / SIGN) % 2 * SIGN + Mantissa(c));
  }

  lemma {:induction false} SizeAtMost(c1: nat, c2: nat, v: nat)
    requires IsCompactOf(c1, v) && IsCompactOf(c2, v)
    ensures Size(c1) <= Size(c2)
  {
    if v > 0 && Size(c1) > Size(c2) {
      BytesMono(Size(c2), Size(c1));
      Apart(Mantissa(c1), Mantissa(c2), Pow(256, Size(c1)), Pow(256, Size(c2)), v * WORD);
    }
  }

  /** A mantissa with its top digit set, at a larger size, is beyond any mantissa at a smaller one. */
  lemma {:induction false} Apart(m1: nat, m2: nat, p1: nat, p2: nat, t: nat)
    requires 0x8000 <= m1 && m2 < 0x80_0000 && 256 * p2 <= p1
    ensures !(m1 * p1 <= t < (m2 + 1) * p2)
  {
    MulMono(p1, 0x8000, m1);
    MulMono(p2, m2 + 1, 0x80_0000);
    assert p1 * m1 == m1 * p1 && p2 * (m2 + 1) == (m2 + 1) * p2;
  }

  lemma {:induction false} SameQuotient(m1: nat, m2: nat, p: nat, t: nat)
    requires m1 * p <= t < (m1 + 1) * p && m2 * p <= t < (m2 + 1) * p
    ensures m1 == m2
  {
    assert (m1 + 1) * p == m1 * p + p;
    assert (m2 + 1) * p == m2 * p + p;
    DivModUnique(t, p, m1, t - m1 * p);
    DivModUnique(t, p, m2, t - m2 * p);
  }

  /** The canonical words are exactly those that encode the number they decode to. */
  lemma {:induction false} CanonicalExactly(c: nat)
    ensures Canonical(c) <==> IsCompactOf(c, CompactValue(c))
  {
    var p, m := Pow(256, Size(c)), Mantissa(c);
    var v := m * p / WORD;
    assert (m + 1) * p == m * p + p;
    assert m * p == WORD * v + (m * p) % WORD;
    if (m * p) % WORD == 0 {
      ZeroProduct(m, p);
    }
  }

  /** A number that the word encodes is at least the one it decodes to. */
  lemma {:induction false} NoMoreThan(c: nat, v: nat)
    requires IsCompactOf(c, v)
    ensures CompactValue(c) <= v
  {
    var t := Mantissa(c) * Pow(256, Size(c));
    assert t == WORD * (t / WORD) + t % WORD;
  }

  lemma {:induction false} ZeroProduct(m: nat, p: nat)
    requires p > 0
    ensures m * p == 0 <==> m == 0
  {
  }

  // ---------- Reading a word ----------

  /** A size of at most three cuts digits off the mantissa. */
  lemma {:induction false} SmallValue(m: nat, size: nat)
    requires size <= 3
    ensures m * Pow(256, size) / WORD == m / Pow(2, 8 * (3 - size))
  {
    PowBytes(3 - size);
    PowSum(256, 3 - size, size);
    ThreeBytes();
    CancelFactor(m, Pow(256, 3 - size), Pow(256, size));
  }

  lemma {:induction false} CancelFactor(m: nat, q: nat, p: nat)
    requires q > 0 && p > 0
    ensures q * p > 0 && m * p / (q * p) == m / q
  {
    NestedQuotient(0, p, m, q);
    assert p * m == m * p;
  }

  /** A larger size appends zero digits. */
  lemma {:induction false} LargeValue(m: nat, size: nat)
    requires size > 3
    ensures m * Pow(256, size) / WORD == m * Pow(2, 8 * (size - 3))
  {
    PowBytes(size - 3);
    PowSum(256, size - 3, 3);
    ThreeBytes();
    ExactQuotient(m, Pow(256, size - 3), WORD);
  }

  lemma {:induction false} ExactQuotient(m: nat, p: nat, w: nat)
    requires w > 0
    ensures m * (p * w) / w == m * p
  {
    assert m * (p * w) == (m * p) * w;
    DivModUnique(m * (p * w), w, m * p, 0);
  }

  /** The test for overflow finds exactly the words whose number does not fit 256 bits. */
  lemma {:induction false} OverflowExactly(m: nat, size: nat, width: nat)
    requires m < SIGN && size > 3 && width == 8
    ensures m * Pow(2, 8 * (size - 3)) >= Pow(B, width) <==> m != 0 && (size > 34 || (m > 0xff && size > 33) || (m > 0xffff && size > 32))
  {
    PowBytes(size - 3);
    LimbBytes(width);
    if size > 34 {
      BytesMono(4 * width, size - 3);
      AtLeastOnce(m, Pow(256, size - 3));
    } else {
      PowSum(256, size - 3, 4 * width + 3 - size);
      SmallOverflow(m, size, Pow(256, size - 3));
    }
  }

  lemma {:induction false} LimbBytes(width: nat)
    ensures Pow(B, width) == Pow(256, 4 * width)
  {
    PowLimbs(width);
    PowBytes(4 * width);
  }

  lemma {:induction false} SmallOverflow(m: nat, size: nat, p: nat)
    requires m < SIGN && size <= 34 && p > 0
    ensures m * p >= p * Pow(256, 35 - size) <==> (m > 0xff && size > 33) || (m > 0xffff && size > 32)
  {
    assert Pow(256, 1) == 256 && Pow(256, 2) == 65536;
    Threshold(m, p, Pow(256, 35 - size));
    if size <= 32 {
      BytesMono(3, 35 - size);
      ThreeBytes();
    }
  }

  lemma {:induction false} Threshold(m: nat, p: nat, t: nat)
    requires p > 0
    ensures m * p >= p * t <==> m >= t
  {
    if m >= t {
      MulMono(p, t, m);
    } else {
      LimbGap(0, p, m, t);
    }
  }

  // ---------- Writing a word ----------

  /** The mantissa is put together with the size and the sign. */
  lemma {:induction false} WordParts(m: nat, size: nat, sign: bool)
    requires m < SIGN
    ensures var c := m + size * WORD + if sign then SIGN else 0;
            Size(c) == size && Mantissa(c) == m && SignBit(c) == sign
  {
    var bit := if sign then 1 else 0;
    var c := m + size * WORD + bit * SIGN;
    DivModUnique(c, WORD, size, m + bit * SIGN);
    DivModUnique(c, SIGN, 2 * size + bit, m);
  }

  lemma {:induction false} OrSplit(t: nat, p: nat, x: nat, y: nat, x2: nat, y2: nat)
    requires p == Pow(2, t) && x < p && x2 < p
    ensures BitOr(x + p * y, x2 + p * y2) == BitOr(x, x2) + p * BitOr(y, y2)
    decreases t
  {
    if t == 0 {
      assert p * y == y && p * y2 == y2;
    } else {
      var h := Pow(2, t - 1);
      Doubled(h, y);
      Doubled(h, y2);
      Doubled(h, BitOr(y, y2));
      OrSplit(t - 1, h, x / 2, y, x2 / 2, y2);
      OrStep(x, h * y, x2, h * y2, h * BitOr(y, y2));
    }
  }

  lemma {:induction false} OrStep(x: nat, k: nat, x2: nat, k2: nat, e: nat)
    requires BitOr(x / 2 + k, x2 / 2 + k2) == BitOr(x / 2, x2 / 2) + e
    ensures BitOr(x + 2 * k, x2 + 2 * k2) == BitOr(x, x2) + 2 * e
  {
    OrHalves(x, x2);
    OrHalves(x + 2 * k, x2 + 2 * k2);
    assert (x + 2 * k) / 2 == x / 2 + k && (x2 + 2 * k2) / 2 == x2 / 2 + k2;
  }

  lemma {:induction false} OrHalves(x: nat, y: nat)
    ensures BitOr(x, y) == 2 * BitOr(x / 2, y / 2) + if x % 2 == 1 || y % 2 == 1 then 1 else 0
  {
  }

  /** The three parts of a word have no bits in common. */
  lemma {:induction false} WordBits(m: nat, size: nat)
    requires m < SIGN
    ensures BitOr(m, size * WORD) == m + size * WORD
    ensures BitOr(m + size * WORD, SIGN) == m + size * WORD + SIGN
    ensures BitOr(m + size * WORD, 0) == m + size * WORD
  {
    PowSign();
    DivModUnique(size * WORD, SIGN, 2 * size, 0);
    OrIsSum(23, m, size * WORD);
    OrIsSum(23, m, SIGN);
    OrSplit(24, WORD, m, size, SIGN, 0);
  }

  lemma {:induction false} PowSign()
    ensures Pow(2, 23) == SIGN && Pow(2, 24) == WORD
  {
    assert Pow(2, 4) == 16;
    PowSum(2, 4, 4);
    PowSum(2, 8, 8);
    PowSum(2, 16, 8);
    assert Pow(2, 24) == 2 * Pow(2, 23);
  }

  /** The leading three bytes of a number of `size` bytes, and what they stand for. */
  lemma {:induction false} LeadingBytes(v: nat, size: nat, m: nat)
    requires v < Pow(256, size) && (v > 0 ==> size > 0 && v >= Pow(256, size - 1))
    requires m == if size <= 3 then v * Pow(2, 8 * (3 - size)) else v / Pow(2, 8 * (size - 3))
    ensures m < WORD && (v > 0 ==> m >= 0x1_0000) && m * Pow(256, size) <= v * WORD < (m + 1) * Pow(256, size)
  {
    ThreeBytes();
    assert Pow(256, 1) == 256 && Pow(256, 2) == 65536;
    if size <= 3 {
      PowBytes(3 - size);
      PowSum(256, 3 - size, size);
      PadBytes(v, Pow(256, 3 - size), Pow(256, size));
      if v > 0 {
        PowSum(256, 3 - size, size - 1);
        MulMono(Pow(256, 3 - size), Pow(256, size - 1), v);
      }
    } else {
      PowBytes(size - 3);
      PowSum(256, size - 3, 3);
      CutBytes(v, Pow(256, size - 3), WORD);
      if v > 0 {
        PowSum(256, size - 3, 2);
        AtLeastQuotient(v, Pow(256, size - 3), 65536);
      }
    }
  }

  lemma {:induction false} PadBytes(v: nat, q: nat, p: nat)
    requires v < p && q > 0
    ensures v * q < q * p && (v * q) * p == v * (q * p) && v * (q * p) < (v * q + 1) * p
  {
    LessTimes(v, p, q);
    assert (v * q) * p == v * (q * p);
    assert (v * q + 1) * p == (v * q) * p + p;
  }

  lemma {:induction false} CutBytes(v: nat, q: nat, w: nat)
    requires q > 0 && v < q * w
    ensures v / q < w && (v / q) * (q * w) <= v * w < (v / q + 1) * (q * w)
  {
    var d := v / q;
    assert q * w == w * q;
    QuotientBelow(v, q, w);
    assert v == q * d + v % q;
    MulMono(w, d * q, v);
    assert (d + 1) * q == d * q + q;
    LessTimes(v, (d + 1) * q, w);
    assert d * (q * w) == w * (d * q);
    assert (d + 1) * (q * w) == ((d + 1) * q) * w;
  }

  lemma {:induction false} AtLeastQuotient(v: nat, q: nat, t: nat)
    requires q > 0 && v >= q * t
    ensures v / q >= t
  {
    AddMultiple(v - t * q, q, t) by {
      assert t * q == q * t;
    }
  }

  /** Freeing the sign bit: one byte less in the mantissa, one more in the size. */
  lemma {:induction false} DropByte(v: nat, size: nat, m: nat)
    requires m * Pow(256, size) <= v * WORD < (m + 1) * Pow(256, size)
    ensures (m / 256) * Pow(256, size + 1) <= v * WORD < (m / 256 + 1) * Pow(256, size + 1)
  {
    var p, d := Pow(256, size), m / 256;
    AtLeastTimes(256 * d, m, p);
    AtLeastTimes(m + 1, 256 * (d + 1), p);
    assert d * (256 * p) == (256 * d) * p;
    assert (d + 1) * (256 * p) == (256 * (d + 1)) * p;
  }
}
