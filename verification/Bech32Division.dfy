/** Division of polynomials over GF(32), and why the checksum is a remainder modulo g(x). A polynomial is the list of its
    coefficients, the highest first. */
module Bech32Division {
  import opened LimbMath
  import opened BaseDigits
  import opened XorMath
  import opened Gf32
  import opened Bech32Poly

  ghost function Nulls(n: nat): (z: Values)
    ensures |z| == n && forall i :: 0 <= i < n ==> z[i] == 0
  {
    seq(n, _ => 0)
  }

  /** q(x) times the monic polynomial x^|k| + k(x), by Horner's rule. */
  ghost function Product(q: Values, k: Values): (p: Values)
    ensures |p| == |q| + |k|
  {
    if q == [] then Nulls(|k|) else
      var n := |q| - 1;
      XorSeq(Product(q[..n], k) + [0], Nulls(n) + Scaled(q[n], [1] + k))
  }

  /** p(x) = q(x) * (x^|k| + k(x)) + r(x), where r(x) has a lower degree than the divisor. */
  ghost predicate Divided(p: Values, k: Values, q: Values, r: Values) {
    |p| == |q| + |k| && |r| == |k| && p == XorSeq(Product(q, k), Nulls(|q|) + r)
  }

  /** The remainder after one more coefficient. */
  ghost function NextRemainder(r: Values, x: nat, k: Values): (s: Values)
    requires |r| == |k| > 0
    ensures |s| == |k|
  {
    XorSeq(r[1..] + [x], Scaled(r[0], k))
  }

  lemma {:induction false} XorCancel(a: nat, b: nat, c: nat)
    ensures Xor(Xor(a, b), Xor(c, b)) == Xor(a, c)
  {
    XorPairs(a, b, c, b);
    XorSelf(b);
    XorComm(Xor(a, c), 0);
  }

  /** Bringing down one more coefficient: the highest one of the remainder is the next one of the quotient. */
  lemma {:induction false} DivideNext(p: Values, k: Values, q: Values, r: Values, x: nat)
    requires Divided(p, k, q, r) && k != [] && r[0] < 32
    ensures Divided(p + [x], k, q + [r[0]], NextRemainder(r, x, k))
  {
    var q2 := q + [r[0]];
    assert q2[..|q|] == q;
    var a, b := Product(q, k) + [0], Nulls(|q|) + Scaled(r[0], [1] + k);
    assert Product(q2, k) == XorSeq(a, b);
    XorSeqAt(a, b);
    XorSeqAt(Product(q, k), Nulls(|q|) + r);
    XorSeqAt(r[1..] + [x], Scaled(r[0], k));
    var c := Nulls(|q2|) + NextRemainder(r, x, k);
    forall i | 0 <= i < |p + [x]| ensures (p + [x])[i] == Xor(XorSeq(a, b)[i], c[i]) {
      NextAt(p, k, q, r, x, i);
    }
    XorSeqIs(XorSeq(a, b), c, p + [x]);
  }

  lemma {:induction false} NextAt(p: Values, k: Values, q: Values, r: Values, x: nat, i: nat)
    requires |p| == |q| + |k| && |r| == |k| > 0 && r[0] < 32 && i < |p + [x]|
    requires forall j :: 0 <= j < |p| ==> p[j] == Xor(Product(q, k)[j], (Nulls(|q|) + r)[j])
    ensures |NextRemainder(r, x, k)| == |k|
    ensures (p + [x])[i] == Xor(Xor((Product(q, k) + [0])[i], (Nulls(|q|) + Scaled(r[0], [1] + k))[i]), (Nulls(|q| + 1) + NextRemainder(r, x, k))[i])
  {
    var n := |q|;
    if i < n {
      XorComm(p[i], 0);
      XorComm(Product(q, k)[i], 0);
    } else if i == n {
      TimesUnit(r[0]);
      assert ([1] + k)[0] == 1;
      XorComm(p[i], 0);
    } else {
      var j := i - n - 1;
      XorSeqAt(r[1..] + [x], Scaled(r[0], k));
      assert ([1] + k)[j + 1] == k[j];
      XorCancel((Product(q, k) + [0])[i], Times(r[0], k[j]), (r[1..] + [x])[j]);
    }
  }

  // ---------- The checksum ----------

  /** The polynomial of a list of values, with the implicit 1 in front, as a list of at least `m` coefficients. */
  ghost function Polynomial(v: Values, m: nat): (p: Values)
    requires m > 0
    ensures |p| == m + |v|
  {
    Nulls(m - 1) + [1] + v
  }

  /** Its remainder and its quotient by x^|k| + k(x). */
  ghost function Remainder(v: Values, k: Values): (r: Values)
    requires k != []
    ensures |r| == |k|
    decreases |v|
  {
    if v == [] then Nulls(|k| - 1) + [1] else NextRemainder(Remainder(v[..|v| - 1], k), v[|v| - 1], k)
  }

  ghost function Quotient(v: Values, k: Values): (q: Values)
    requires k != []
    ensures |q| == |v|
    decreases |v|
  {
    if v == [] then [] else Quotient(v[..|v| - 1], k) + [Remainder(v[..|v| - 1], k)[0]]
  }

  lemma {:induction false} NextFiveBit(r: Values, x: nat, k: Values)
    requires |r| == |k| > 0 && FiveBit(r) && FiveBit(k) && x < 32
    ensures FiveBit(NextRemainder(r, x, k))
  {
    ScaledFiveBit(r[0], k);
    XorSeqBits(r[1..] + [x], Scaled(r[0], k));
  }

  lemma {:induction false} RemainderFiveBit(v: Values, k: Values)
    requires FiveBit(v) && FiveBit(k) && k != []
    ensures FiveBit(Remainder(v, k))
    decreases |v|
  {
    if v != [] {
      RemainderFiveBit(v[..|v| - 1], k);
      NextFiveBit(Remainder(v[..|v| - 1], k), v[|v| - 1], k);
    }
  }

  /** They are a quotient and a remainder. */
  lemma {:induction false} RemainderIs(v: Values, k: Values)
    requires FiveBit(v) && FiveBit(k) && k != []
    ensures Divided(Polynomial(v, |k|), k, Quotient(v, k), Remainder(v, k))
    decreases |v|
  {
    if v == [] {
      NothingDivided(Nulls(|k| - 1) + [1], k);
    } else {
      var n := |v| - 1;
      RemainderIs(v[..n], k);
      RemainderFiveBit(v[..n], k);
      DivideNext(Polynomial(v[..n], |k|), k, Quotient(v[..n], k), Remainder(v[..n], k), v[n]);
      PolynomialNext(v, |k|);
    }
  }

  lemma {:induction false} PolynomialNext(v: Values, m: nat)
    requires v != [] && m > 0
    ensures Polynomial(v, m) == Polynomial(v[..|v| - 1], m) + [v[|v| - 1]]
  {
  }

  lemma {:induction false} NothingDivided(r: Values, k: Values)
    requires |r| == |k|
    ensures Divided(r, k, [], r)
  {
    assert Nulls(0) + r == r;
    XorSeqIs(Nulls(|k|), r, r);
  }

  /** One step on packed coefficients. */
  lemma {:induction false} StepPacks(r: Values, x: nat, k: Values)
    requires |r| == |k| == 6 && FiveBit(r) && FiveBit(k) && x < 32 && Reduce(r[0], GENERATOR) == BE(Scaled(r[0], k), 32)
    ensures Step(BE(r, 32), x) == BE(NextRemainder(r, x, k), 32)
  {
    SplitTop(r);
    ShiftIn(r[1..], x);
    ScaledFiveBit(r[0], k);
    PackXor(r[1..] + [x], Scaled(r[0], k));
  }

  lemma {:induction false} ShiftIn(rest: Values, x: nat)
    requires x < 32
    ensures Xor(32 * BE(rest, 32), x) == BE(rest + [x], 32)
  {
    AppendBE(rest, x, 32);
    PowersOfTwo();
    XorIsSum(5, 32, x, BE(rest, 32), 32 * BE(rest, 32));
  }

  lemma {:induction false} SplitTop(r: Values)
    requires |r| == 6 && FiveBit(r)
    ensures BE(r, 32) / LOW25 == r[0] && BE(r, 32) % LOW25 == BE(r[1..], 32)
  {
    assert r == [r[0]] + r[1..];
    FirstBE(r[0], r[1..], 32);
    PackedBelow(r[1..]);
    Pow32();
  }

  /** The constants of the loop do for a coefficient what multiplication of k(x) by it does. */
  ghost predicate Reduces(k: Values) {
    |k| == 6 && FiveBit(k) && forall c :: 0 <= c < 32 ==> Reduce(c, GENERATOR) == BE(Scaled(c, k), 32)
  }

  lemma {:induction false} FoldPacksRemainder(v: Values, k: Values)
    requires FiveBit(v) && Reduces(k)
    ensures Fold(1, v) == BE(Remainder(v, k), 32)
    decreases |v|
  {
    if v == [] {
      AppendBE(Nulls(|k| - 1), 1, 32);
      AllZero(Nulls(|k| - 1), 32);
    } else {
      var n := |v| - 1;
      FoldPacksRemainder(v[..n], k);
      RemainderFiveBit(v[..n], k);
      StepPacks(Remainder(v[..n], k), v[n], k);
    }
  }

  /** The loop computes the remainder modulo g(x) = x^6 + k(x), packed. */
  lemma {:induction false} FoldIsRemainder(v: Values, k: Values)
    requires FiveBit(v) && k == K
    ensures Fold(1, v) == BE(Remainder(v, k), 32) && Divided(Polynomial(v, 6), k, Quotient(v, k), Remainder(v, k))
  {
    forall c | 0 <= c < 32 ensures Reduce(c, GENERATOR) == BE(Scaled(c, k), 32) {
      ReduceIsProduct(c);
    }
    FoldPacksRemainder(v, k);
    RemainderIs(v, k);
  }

  // ---------- There is only one remainder ----------

  /** The remainder before the last coefficient was brought down, when `b` was its highest coefficient. */
  ghost function PreviousRemainder(r: Values, b: nat, k: Values): (s: Values)
    requires |r| == |k| > 0
    ensures |s| == |k| && s[0] == b
  {
    [b] + XorSeq(r, Scaled(b, k))[..|k| - 1]
  }

  lemma {:induction false} XorBack(a: nat, b: nat, c: nat)
    ensures Xor(Xor(a, b), c) == Xor(a, Xor(c, b)) && Xor(Xor(c, b), b) == c && Xor(Xor(b, c), b) == c
  {
    XorAssoc(a, b, c);
    XorComm(b, c);
    XorAssoc(c, b, b);
    XorSelf(b);
    XorComm(c, 0);
  }

  /** A coefficient of a division, in terms of the last coefficient of the quotient. */
  lemma {:induction false} DividedAt(p: Values, k: Values, q: Values, r: Values, i: nat)
    requires Divided(p, k, q, r) && q != [] && i < |p|
    ensures var n := |q| - 1;
            p[i] == Xor(Xor((Product(q[..n], k) + [0])[i], (Nulls(n) + Scaled(q[n], [1] + k))[i]), (Nulls(n + 1) + r)[i])
  {
    var n := |q| - 1;
    XorSeqAt(Product(q[..n], k) + [0], Nulls(n) + Scaled(q[n], [1] + k));
    XorSeqAt(Product(q, k), Nulls(n + 1) + r);
  }

  lemma {:induction false} PreviousAt(a: Values, b: nat, k: Values, r: Values, n: nat, i: nat)
    requires |r| == |k| > 0 && |a| == n + |k| && b < 32 && i < |a|
    ensures Xor(Xor((a + [0])[i], (Nulls(n) + Scaled(b, [1] + k))[i]), (Nulls(n + 1) + r)[i]) ==
            Xor(a[i], (Nulls(n) + PreviousRemainder(r, b, k))[i])
  {
    if i < n {
      XorComm(a[i], 0);
    } else if i == n {
      TimesUnit(b);
      assert ([1] + k)[0] == 1;
      XorComm(Xor(a[i], b), 0);
    } else {
      var j := i - n - 1;
      PreviousIs(r, b, k, j);
      assert ([1] + k)[j + 1] == k[j];
      XorBack(a[i], Times(b, k[j]), r[j]);
    }
  }

  lemma {:induction false} PreviousIs(r: Values, b: nat, k: Values, j: nat)
    requires |r| == |k| > 0 && j < |k| - 1
    ensures PreviousRemainder(r, b, k)[j + 1] == Xor(r[j], Times(b, k[j]))
  {
    XorSeqAt(r, Scaled(b, k));
  }

  /** Undoing the last step of a division. */
  lemma {:induction false} DividePrevious(p: Values, k: Values, q: Values, r: Values)
    requires Divided(p, k, q, r) && k != [] && q != [] && q[|q| - 1] < 32
    ensures var n := |q| - 1; Divided(p[..|p| - 1], k, q[..n], PreviousRemainder(r, q[n], k))
    ensures r == NextRemainder(PreviousRemainder(r, q[|q| - 1], k), p[|p| - 1], k)
  {
    var n := |q| - 1;
    var prev := PreviousRemainder(r, q[n], k);
    forall i | 0 <= i < |p| - 1 ensures p[..|p| - 1][i] == Xor(Product(q[..n], k)[i], (Nulls(n) + prev)[i]) {
      DividedAt(p, k, q, r, i);
      PreviousAt(Product(q[..n], k), q[n], k, r, n, i);
    }
    XorSeqIs(Product(q[..n], k), Nulls(n) + prev, p[..|p| - 1]);
    NextOfPrevious(p, k, q, r);
  }

  lemma {:induction false} NextOfPrevious(p: Values, k: Values, q: Values, r: Values)
    requires Divided(p, k, q, r) && k != [] && q != []
    ensures r == NextRemainder(PreviousRemainder(r, q[|q| - 1], k), p[|p| - 1], k)
  {
    var n, m := |q| - 1, |k|;
    var b, x := q[n], p[|p| - 1];
    DividedAt(p, k, q, r, |p| - 1);
    assert ([1] + k)[m] == k[m - 1];
    RedoStep(r, b, k, x);
  }

  lemma {:induction false} RedoStep(r: Values, b: nat, k: Values, x: nat)
    requires |r| == |k| > 0 && x == Xor(Xor(0, Times(b, k[|k| - 1])), r[|k| - 1])
    ensures r == NextRemainder(PreviousRemainder(r, b, k), x, k)
  {
    var prev := PreviousRemainder(r, b, k);
    forall j | 0 <= j < |k| ensures r[j] == Xor((prev[1..] + [x])[j], Scaled(b, k)[j]) {
      XorBack(0, Times(b, k[j]), r[j]);
      if j < |k| - 1 {
        PreviousIs(r, b, k, j);
      }
    }
    XorSeqIs(prev[1..] + [x], Scaled(b, k), r);
  }

  /** Quotient and remainder are determined. */
  lemma {:induction false} DivisionUnique(p: Values, k: Values, q: Values, r: Values, q2: Values, r2: Values)
    requires k != [] && FiveBit(q) && FiveBit(q2) && Divided(p, k, q, r) && Divided(p, k, q2, r2)
    ensures q == q2 && r == r2
    decreases |q|
  {
    if q == [] {
      OnlyRemainder(p, k, q, r);
      OnlyRemainder(p, k, q2, r2);
    } else {
      var n := |q| - 1;
      DividePrevious(p, k, q, r);
      DividePrevious(p, k, q2, r2);
      DivisionUnique(p[..|p| - 1], k, q[..n], PreviousRemainder(r, q[n], k), q2[..n], PreviousRemainder(r2, q2[n], k));
      SameLast(q, q2, n);
    }
  }

  lemma {:induction false} OnlyRemainder(p: Values, k: Values, q: Values, r: Values)
    requires Divided(p, k, q, r) && q == []
    ensures p == r
  {
    assert Nulls(0) + r == r;
    XorSeqIs(Nulls(|k|), r, r);
  }
}
