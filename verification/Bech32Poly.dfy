/** The checksum of Bech32 and Bech32m: the remainder of a polynomial over GF(32), computed on packed coefficients. */
module Bech32Poly {
  import opened LimbMath
  import opened BaseDigits
  import opened XorMath
  import opened Gf32

  type Values = seq<nat>

  const LOW25: nat := 0x200_0000
  const WORD30: nat := 0x4000_0000

  /** k(x) = x^6 mod g(x), and its multiples by {2}, {4}, {8} and {16}, five bits for each coefficient. */
  const GENERATOR: seq<nat> := [0x3b6a57b2, 0x26508e6d, 0x1ea119fa, 0x3d4233dd, 0x2a1462b3]

  /** The sum of the constants whose bit is set in `c0`, from the lowest bit on. */
  function Reduce(c0: nat, ks: seq<nat>): nat
    decreases |ks|
  {
    if ks == [] then 0 else Xor(if c0 % 2 == 1 then ks[0] else 0, Reduce(c0 / 2, ks[1..]))
  }

  /** From f(x) mod g(x) to f(x) * x + v mod g(x). */
  function Step(c: nat, v: nat): nat {
    Xor(Xor(32 * (c % LOW25), v), Reduce(c / LOW25, GENERATOR))
  }

  /** The remainder after all values, starting from `c`. */
  ghost function Fold(c: nat, v: Values): nat {
    if v == [] then c else Step(Fold(c, v[..|v| - 1]), v[|v| - 1])
  }

  // ---------- A step is linear over exclusive or ----------

  lemma {:induction false} ReduceLinear(c: nat, d: nat, ks: seq<nat>)
    ensures Reduce(Xor(c, d), ks) == Xor(Reduce(c, ks), Reduce(d, ks))
    decreases |ks|
  {
    if ks != [] {
      XorHalves(c, d);
      ReduceLinear(c / 2, d / 2, ks[1..]);
      PickXor(c % 2 == 1, d % 2 == 1, ks[0], Reduce(c / 2, ks[1..]), Reduce(d / 2, ks[1..]));
    }
  }

  lemma {:induction false} StepLinear(c: nat, d: nat, v: nat, w: nat)
    ensures Step(Xor(c, d), Xor(v, w)) == Xor(Step(c, v), Step(d, w))
  {
    SplitWord(c, d);
    ReduceLinear(c / LOW25, d / LOW25, GENERATOR);
    ShiftLinear(c % LOW25, d % LOW25);
    XorPairs(32 * (c % LOW25), 32 * (d % LOW25), v, w);
    XorPairs(Xor(32 * (c % LOW25), v), Xor(32 * (d % LOW25), w), Reduce(c / LOW25, GENERATOR), Reduce(d / LOW25, GENERATOR));
  }

  lemma {:induction false} PowLow()
    ensures Pow(2, 5) == 32 && Pow(2, 25) == LOW25 && Pow(2, 30) == WORD30
  {
    assert Pow(2, 1) == 2;
    PowSum(2, 1, 4);
    PowSum(2, 5, 5);
    PowSum(2, 10, 10);
    PowSum(2, 20, 5);
    PowSum(2, 25, 5);
  }

  lemma {:induction false} SplitWord(c: nat, d: nat)
    ensures Xor(c, d) / LOW25 == Xor(c / LOW25, d / LOW25) && Xor(c, d) % LOW25 == Xor(c % LOW25, d % LOW25)
  {
    PowLow();
    XorSplit(25, LOW25, c, c % LOW25, c / LOW25, d, d % LOW25, d / LOW25);
    XorBelow(25, LOW25, c % LOW25, d % LOW25);
  }

  lemma {:induction false} ShiftLinear(c: nat, d: nat)
    ensures 32 * Xor(c, d) == Xor(32 * c, 32 * d)
  {
    PowLow();
    XorSplit(5, 32, 32 * c, 0, c, 32 * d, 0, d);
  }

  // ---------- A step loses nothing ----------

  lemma {:induction false} ReduceBelow(c: nat, ks: seq<nat>)
    requires forall i :: 0 <= i < |ks| ==> ks[i] < WORD30
    ensures Reduce(c, ks) < WORD30
    decreases |ks|
  {
    if ks != [] {
      PowLow();
      ReduceBelow(c / 2, ks[1..]);
      XorBelow(30, WORD30, if c % 2 == 1 then ks[0] else 0, Reduce(c / 2, ks[1..]));
    }
  }

  lemma {:induction false} StepBelow(c: nat, v: nat)
    requires v < 32
    ensures Step(c, v) < WORD30
  {
    PowLow();
    XorIsSum(5, 32, v, c % LOW25, 32 * (c % LOW25));
    ReduceBelow(c / LOW25, GENERATOR);
    XorBelow(30, WORD30, Xor(32 * (c % LOW25), v), Reduce(c / LOW25, GENERATOR));
  }

  lemma {:induction false} ReduceZero(ks: seq<nat>)
    ensures Reduce(0, ks) == 0
    decreases |ks|
  {
    if ks != [] {
      ReduceZero(ks[1..]);
    }
  }

  /** The coefficients of k(x), the highest first. */
  const K: Values := [29, 22, 20, 21, 29, 18]

  ghost function Scaled(c: nat, row: Values): (r: Values)
    ensures |r| == |row| && forall i :: 0 <= i < |row| ==> r[i] == Times(c, row[i])
  {
    seq(|row|, i requires 0 <= i < |row| => Times(c, row[i]))
  }

  ghost function TwiceAll(row: Values): (r: Values)
    ensures |r| == |row| && forall i :: 0 <= i < |row| ==> r[i] == Twice(row[i])
  {
    seq(|row|, i requires 0 <= i < |row| => Twice(row[i]))
  }

  /** The constants are the packed multiples of a polynomial by {1}, {2}, {4} and so on. */
  ghost predicate Multiples(ks: seq<nat>, row: Values)
    decreases |ks|
  {
    ks == [] || (ks[0] == BE(row, 32) && Multiples(ks[1..], TwiceAll(row)))
  }

  /** Then the sum over the bits of a coefficient is the packed product with it. */
  lemma {:induction false} ReducePacks(c: nat, ks: seq<nat>, row: Values)
    requires FiveBit(row) && Multiples(ks, row) && c < Pow(2, |ks|)
    ensures Reduce(c, ks) == BE(Scaled(c, row), 32)
    decreases |ks|
  {
    if ks == [] {
      AllZero(Scaled(c, row), 32);
    } else {
      TwiceFiveBit(row);
      ReducePacks(c / 2, ks[1..], TwiceAll(row));
      ScaledBit(c, row);
    }
  }

  lemma {:induction false} TwiceFiveBit(row: Values)
    requires FiveBit(row)
    ensures FiveBit(TwiceAll(row))
  {
    forall i | 0 <= i < |row| ensures TwiceAll(row)[i] < 32 {
      TwiceIs(row[i]);
    }
  }

  lemma {:induction false} ScaledFiveBit(c: nat, row: Values)
    requires FiveBit(row)
    ensures FiveBit(Scaled(c, row))
  {
    forall i | 0 <= i < |row| ensures Scaled(c, row)[i] < 32 {
      TimesBelow(c, row[i]);
    }
  }

  lemma {:induction false} ScaledBit(c: nat, row: Values)
    requires FiveBit(row)
    ensures BE(Scaled(c, row), 32) == Xor(if c % 2 == 1 then BE(row, 32) else 0, BE(Scaled(c / 2, TwiceAll(row)), 32))
  {
    var rest := Scaled(c / 2, TwiceAll(row));
    TwiceFiveBit(row);
    ScaledFiveBit(c / 2, TwiceAll(row));
    if c % 2 == 1 {
      PackXor(row, rest);
      XorSeqIs(row, rest, Scaled(c, row));
    } else {
      assert rest == Scaled(c, row);
    }
  }

  lemma {:induction false} XorSeqIs(v: Values, w: Values, u: Values)
    requires |u| == |v| == |w| && forall i :: 0 <= i < |u| ==> u[i] == Xor(v[i], w[i])
    ensures XorSeq(v, w) == u
    decreases |v|
  {
    if v != [] {
      var n := |v| - 1;
      XorSeqIs(v[..n], w[..n], u[..n]);
      assert u == u[..n] + [u[n]];
    }
  }

  lemma {:induction false} XorSeqAt(v: Values, w: Values)
    requires |v| == |w|
    ensures forall i :: 0 <= i < |v| ==> XorSeq(v, w)[i] == Xor(v[i], w[i])
    decreases |v|
  {
    if v != [] {
      XorSeqAt(v[..|v| - 1], w[..|w| - 1]);
    }
  }

  /** Packed coefficients are added together. */
  lemma {:induction false} PackXor(v: Values, w: Values)
    requires |v| == |w| && FiveBit(v) && FiveBit(w)
    ensures Xor(BE(v, 32), BE(w, 32)) == BE(XorSeq(v, w), 32)
    decreases |v|
  {
    if v != [] {
      var n := |v| - 1;
      PackXor(v[..n], w[..n]);
      PowersOfTwo();
      XorSplit(5, 32, BE(v, 32), v[n], BE(v[..n], 32), BE(w, 32), w[n], BE(w[..n], 32));
      AppendBE(XorSeq(v[..n], w[..n]), Xor(v[n], w[n]), 32);
    }
  }

  lemma {:induction false} PackSix(s: Values, n: nat)
    requires |s| == 6 && n == ((((s[0] * 32 + s[1]) * 32 + s[2]) * 32 + s[3]) * 32 + s[4]) * 32 + s[5]
    ensures BE(s, 32) == n
  {
    TakeBE(s, 32, 0);
    TakeBE(s, 32, 1);
    TakeBE(s, 32, 2);
    TakeBE(s, 32, 3);
    TakeBE(s, 32, 4);
    TakeBE(s, 32, 5);
    assert s[..6] == s;
  }

  ghost predicate RowIs(row: Values, a: nat, b: nat, c: nat, d: nat, e: nat, f: nat) {
    |row| == 6 && row[0] == a && row[1] == b && row[2] == c && row[3] == d && row[4] == e && row[5] == f
  }

  /** A row is packed into a constant, and its double is the next row. */
  lemma {:induction false} PackedRow(row: Values, k: nat, a: nat, b: nat, c: nat, d: nat, e: nat, f: nat)
    requires RowIs(row, a, b, c, d, e, f) && FiveBit(row) && k == ((((a * 32 + b) * 32 + c) * 32 + d) * 32 + e) * 32 + f
    ensures BE(row, 32) == k && FiveBit(TwiceAll(row))
    ensures RowIs(TwiceAll(row), Doubling(a), Doubling(b), Doubling(c), Doubling(d), Doubling(e), Doubling(f))
  {
    PackSix(row, k);
    TwiceFiveBit(row);
    TwiceIs(a);
    TwiceIs(b);
    TwiceIs(c);
    TwiceIs(d);
    TwiceIs(e);
    TwiceIs(f);
  }

  /** The constants of the loop are the multiples of k(x). */
  lemma {:induction false} RowOf(ks: seq<nat>, row: Values)
    requires |ks| == 5 && ks[0] == 0x3b6a57b2 && ks[1] == 0x26508e6d && ks[2] == 0x1ea119fa && ks[3] == 0x3d4233dd && ks[4] == 0x2a1462b3
    requires RowIs(row, 29, 22, 20, 21, 29, 18)
    ensures Multiples(ks, row) && FiveBit(row)
  {
    var r1 := TwiceAll(row);
    var r2 := TwiceAll(r1);
    var r3 := TwiceAll(r2);
    PackedRow(row, ks[0], 29, 22, 20, 21, 29, 18);
    PackedRow(r1, ks[1], 19, 5, 1, 3, 19, 13);
    PackedRow(r2, ks[2], 15, 10, 2, 6, 15, 26);
    PackedRow(r3, ks[3], 30, 20, 4, 12, 30, 29);
    PackedRow(TwiceAll(r3), ks[4], 21, 1, 8, 24, 21, 19);
    FiveMultiples(ks, row, r1, r2, r3, TwiceAll(r3));
  }

  lemma {:induction false} FiveMultiples(ks: seq<nat>, r0: Values, r1: Values, r2: Values, r3: Values, r4: Values)
    requires |ks| == 5 && TwiceAll(r0) == r1 && TwiceAll(r1) == r2 && TwiceAll(r2) == r3 && TwiceAll(r3) == r4
    requires BE(r0, 32) == ks[0] && BE(r1, 32) == ks[1] && BE(r2, 32) == ks[2] && BE(r3, 32) == ks[3] && BE(r4, 32) == ks[4]
    ensures Multiples(ks, r0)
  {
    assert Multiples(ks[5..], TwiceAll(r4));
    assert ks[4..][1..] == ks[5..] && Multiples(ks[4..], r4);
    assert ks[3..][1..] == ks[4..] && Multiples(ks[3..], r3);
    assert ks[2..][1..] == ks[3..] && Multiples(ks[2..], r2);
    assert ks[1..][1..] == ks[2..] && Multiples(ks[1..], r1);
  }

  lemma {:induction false} ProductOf(c: nat, ks: seq<nat>, row: Values)
    requires |ks| == 5 && ks[0] == 0x3b6a57b2 && ks[1] == 0x26508e6d && ks[2] == 0x1ea119fa && ks[3] == 0x3d4233dd && ks[4] == 0x2a1462b3
    requires RowIs(row, 29, 22, 20, 21, 29, 18) && c < 32
    ensures Reduce(c, ks) == BE(Scaled(c, row), 32)
  {
    RowOf(ks, row);
    PowersOfTwo();
    ReducePacks(c, ks, row);
  }

  /** What the loop adds for the coefficient `c0` is {c0} * k(x), packed. */
  lemma {:induction false} ReduceIsProduct(c0: nat)
    requires c0 < 32
    ensures Reduce(c0, GENERATOR) == BE(Scaled(c0, K), 32)
  {
    ProductOf(c0, GENERATOR, K);
  }

  /** The constant coefficient of g(x) is invertible, so no multiple of k(x) but zero ends in a zero coefficient. */
  lemma {:induction false} LowNonZero(c0: nat)
    requires c0 < 32 && Reduce(c0, GENERATOR) % 32 == 0
    ensures c0 == 0
  {
    ReduceIsProduct(c0);
    LowOfScaled(c0, K);
  }

  lemma {:induction false} LowOfScaled(c: nat, row: Values)
    requires c < 32 && |row| == 6 && row[5] == 18 && BE(Scaled(c, row), 32) % 32 == 0
    ensures c == 0
  {
    DivideBack(c, row[5], 17);
    LastCoefficient(Scaled(c, row));
  }

  lemma {:induction false} LastCoefficient(s: Values)
    requires |s| == 6 && s[5] < 32
    ensures BE(s, 32) % 32 == s[5]
  {
  }

  lemma {:induction false} DivideBack(c: nat, x: nat, y: nat)
    requires c < 32 && x == 18 && y == 17
    ensures Times(c, x) < 32 && (Times(c, x) == 0 ==> c == 0)
  {
    TimesBelow(c, x);
    Inverse(x, y);
    TimesAssoc(c, x, y);
    TimesUnit(c);
  }

  lemma {:induction false} StepOfZero(c: nat)
    ensures Step(c, 0) == Xor(32 * (c % LOW25), Reduce(c / LOW25, GENERATOR))
  {
    XorComm(32 * (c % LOW25), 0);
  }

  lemma {:induction false} StepKernel(c: nat)
    requires c < WORD30 && Step(c, 0) == 0
    ensures c == 0
  {
    StepOfZero(c);
    XorZero(32 * (c % LOW25), Reduce(c / LOW25, GENERATOR));
    KernelParts(c % LOW25, c / LOW25);
  }

  lemma {:induction false} Mod32(v: nat, a: nat, b: nat)
    requires v == a + 32 * b && a < 32
    ensures v % 32 == a
  {
  }

  lemma {:induction false} KernelParts(lo: nat, c0: nat)
    requires c0 < 32 && 32 * lo == Reduce(c0, GENERATOR)
    ensures lo == 0 && c0 == 0
  {
    Mod32(32 * lo, 0, lo);
    LowNonZero(c0);
    ReduceZero(GENERATOR);
  }

  lemma {:induction false} StepInjective(c: nat, d: nat, v: nat)
    requires c < WORD30 && d < WORD30 && Step(c, v) == Step(d, v)
    ensures c == d
  {
    StepLinear(c, d, v, v);
    XorSelf(v);
    XorSelf(Step(c, v));
    PowLow();
    XorBelow(30, WORD30, c, d);
    StepKernel(Xor(c, d));
    XorZero(c, d);
  }

  // ---------- Whole lists ----------

  ghost predicate FiveBit(v: Values) {
    DigitsOk(v, 32)
  }

  ghost function XorSeq(v: Values, w: Values): (u: Values)
    requires |v| == |w|
    ensures |u| == |v|
  {
    if v == [] then [] else XorSeq(v[..|v| - 1], w[..|w| - 1]) + [Xor(v[|v| - 1], w[|w| - 1])]
  }

  lemma {:induction false} FoldBelow(c: nat, v: Values)
    requires c < WORD30 && FiveBit(v)
    ensures Fold(c, v) < WORD30
    decreases |v|
  {
    if v != [] {
      StepBelow(Fold(c, v[..|v| - 1]), v[|v| - 1]);
    }
  }

  lemma {:induction false} FoldOne(c: nat, v: Values, x: nat)
    ensures Fold(c, v + [x]) == Step(Fold(c, v), x)
  {
    assert (v + [x])[..|v|] == v;
  }

  lemma {:induction false} FoldAppend(c: nat, v: Values, w: Values)
    ensures Fold(c, v + w) == Fold(Fold(c, v), w)
    decreases |w|
  {
    if w == [] {
      assert v + w == v;
    } else {
      var t, x := w[..|w| - 1], w[|w| - 1];
      FoldAppend(c, v, t);
      FoldOne(c, v + t, x);
      FoldOne(Fold(c, v), t, x);
      LastOne(v, w);
    }
  }

  lemma {:induction false} LastOne(v: Values, w: Values)
    requires w != []
    ensures v + w == (v + w[..|w| - 1]) + [w[|w| - 1]] && w == w[..|w| - 1] + [w[|w| - 1]]
  {
  }

  /** The checksum is affine over exclusive or: a change of the input changes it by a fold that starts from zero. */
  lemma {:induction false} FoldLinear(c: nat, d: nat, v: Values, w: Values)
    requires |v| == |w|
    ensures Fold(Xor(c, d), XorSeq(v, w)) == Xor(Fold(c, v), Fold(d, w))
    decreases |v|
  {
    if v != [] {
      var n := |v| - 1;
      var u := XorSeq(v[..n], w[..n]);
      FoldLinear(c, d, v[..n], w[..n]);
      assert XorSeq(v, w)[..n] == u;
      StepLinear(Fold(c, v[..n]), Fold(d, w[..n]), v[n], w[n]);
    }
  }

  lemma {:induction false} FoldInjective(c: nat, d: nat, v: Values)
    requires c < WORD30 && d < WORD30 && FiveBit(v) && Fold(c, v) == Fold(d, v)
    ensures c == d
    decreases |v|
  {
    if v != [] {
      var t := v[..|v| - 1];
      FoldBelow(c, t);
      FoldBelow(d, t);
      StepInjective(Fold(c, t), Fold(d, t), v[|v| - 1]);
      FoldInjective(c, d, t);
    }
  }

  // ---------- Six values from zero ----------

  /** While there is room the values are only packed together. */
  lemma {:induction false} FoldPacks(a: Values)
    requires FiveBit(a) && |a| <= 6
    ensures Fold(0, a) == BE(a, 32)
    decreases |a|
  {
    if a != [] {
      var t := a[..|a| - 1];
      FoldPacks(t);
      PackedBelow(t);
      PackStep(Fold(0, t), a[|a| - 1]);
    }
  }

  lemma {:induction false} PackedBelow(t: Values)
    requires FiveBit(t) && |t| <= 5
    ensures BE(t, 32) < LOW25
  {
    BoundBE(t, 32);
    PowGrows(32, |t|, 5);
    Pow32();
  }

  lemma {:induction false} Pow32()
    ensures Pow(32, 5) == LOW25 && Pow(32, 6) == WORD30
  {
    assert Pow(32, 1) == 32;
    PowSum(32, 1, 1);
    PowSum(32, 2, 2);
    PowSum(32, 4, 1);
    PowSum(32, 4, 2);
  }

  lemma {:induction false} PackStep(c: nat, v: nat)
    requires c < LOW25 && v < 32
    ensures Step(c, v) == c * 32 + v
  {
    NoReduction(c, v);
    assert Pow(2, 5) == 32;
    XorIsSum(5, 32, v, c, 32 * c);
  }

  lemma {:induction false} NoReduction(c: nat, v: nat)
    requires c < LOW25
    ensures Step(c, v) == Xor(32 * c, v)
  {
    assert c % LOW25 == c && c / LOW25 == 0;
    ReduceZero(GENERATOR);
    XorComm(Xor(32 * c, v), 0);
  }

  /** Six values are determined by the remainder they lead to. */
  lemma {:induction false} SixInjective(c: nat, a: Values, b: Values)
    requires |a| == |b| <= 6 && FiveBit(a) && FiveBit(b) && Fold(c, a) == Fold(c, b)
    ensures a == b
  {
    FoldLinear(c, c, a, b);
    XorSelf(c);
    XorSelf(Fold(c, a));
    XorSeqBits(a, b);
    FoldPacks(XorSeq(a, b));
    ZeroDigits(a, b);
  }

  lemma {:induction false} XorSeqBits(a: Values, b: Values)
    requires |a| == |b| && FiveBit(a) && FiveBit(b)
    ensures FiveBit(XorSeq(a, b))
    decreases |a|
  {
    if a != [] {
      var n := |a| - 1;
      XorSeqBits(a[..n], b[..n]);
      assert Pow(2, 5) == 32;
      XorBelow(5, 32, a[n], b[n]);
    }
  }

  lemma {:induction false} ZeroDigits(a: Values, b: Values)
    requires |a| == |b| && BE(XorSeq(a, b), 32) == 0
    ensures a == b
    decreases |a|
  {
    if a != [] {
      var n := |a| - 1;
      AppendBE(XorSeq(a[..n], b[..n]), Xor(a[n], b[n]), 32);
      ZeroDigits(a[..n], b[..n]);
      XorZero(a[n], b[n]);
      SameLast(a, b, n);
    }
  }

  lemma {:induction false} SameLast(a: Values, b: Values, n: nat)
    requires |a| == |b| == n + 1 && a[..n] == b[..n] && a[n] == b[n]
    ensures a == b
  {
    assert a == a[..n] + [a[n]] && b == b[..n] + [b[n]];
  }

  // ---------- Error detection ----------

  /** Lists that differ only within six consecutive values have different checksums. */
  lemma {:induction false} BurstDetected(c: nat, a: Values, b: Values, s: Values)
    requires c < WORD30 && FiveBit(a) && FiveBit(b) && FiveBit(s) && |a| == |b| <= 6 && Fold(Fold(c, a), s) == Fold(Fold(c, b), s)
    ensures a == b
  {
    FoldBelow(c, a);
    FoldBelow(c, b);
    FoldInjective(Fold(c, a), Fold(c, b), s);
    SixInjective(c, a, b);
  }
}
