/** Shifts of limbs (`base_uint::operator<<=` and `>>=`). */
module LimbShift {
  import opened LimbMath
  import opened LimbArith
  import opened LimbMultiply

  // ---------- Bits ----------

  /** Bitwise or of two natural numbers. */
  function BitOr(x: nat, y: nat): nat {
    if x == 0 then y else if y == 0 then x
    else 2 * BitOr(x / 2, y / 2) + if x % 2 == 1 || y % 2 == 1 then 1 else 0
  }

  /** Or-ing numbers without common bits adds them. */
  lemma {:induction false} OrIsSum(s: nat, x: nat, y: nat)
    requires x < Pow(2, s) && y % Pow(2, s) == 0
    ensures BitOr(x, y) == x + y
    decreases s
  {
    if s > 0 && x > 0 && y > 0 {
      var p := Pow(2, s - 1);
      HalfMultiple(y, p);
      OrIsSum(s - 1, x / 2, y / 2);
    }
  }

  lemma {:induction false} HalfMultiple(y: nat, p: nat)
    requires p > 0 && y % (2 * p) == 0
    ensures y % 2 == 0 && (y / 2) % p == 0
  {
    var q := y / (2 * p);
    assert y == 2 * p * q;
    assert y == 2 * (p * q);
    DivModUnique(y / 2, p, q, 0) by {
      assert y / 2 == p * q;
      assert p * q == q * p;
    }
  }

  lemma {:induction false} TwoTo32()
    ensures Pow(2, 32) == B
  {
    assert Pow(2, 4) == 16;
    PowSum(2, 4, 4);
    PowSum(2, 8, 8);
    PowSum(2, 16, 16);
  }

  lemma {:induction false} SplitLimb(s: nat)
    requires s < 32
    ensures Pow(2, s) * Pow(2, 32 - s) == B
  {
    PowSum(2, s, 32 - s);
    TwoTo32();
  }

  /** `x << s` on 32 bits. */
  function Up(x: nat, s: nat): (y: nat)
    ensures y < B
  {
    x * Pow(2, s) % B
  }

  /** `x >> s`. */
  function Down(x: nat, s: nat): nat {
    x / Pow(2, s)
  }

  /** Shifting a limb left: what stays, and what goes to the next limb. */
  lemma {:induction false} ShiftedLimb(x: nat, p: nat, q: nat, b: nat)
    requires p > 0 && q > 0 && p * q == b && x < b
    ensures (x * p) % b % p == 0 && (x * p) / b == x / q && x / q < p && (x * p) % b < b
    ensures (x * p) % b + b * (x / q) == x * p
  {
    var d, r := x / q, x % q;
    LessFactor(r, q, p);
    TimesParts(q, d, r, p);
    assert x * p == d * b + r * p;
    DivModUnique(x * p, b, d, r * p);
    DivModUnique(r * p, p, r, 0);
    QuotientBelow(x, q, p);
  }

  lemma {:induction false} LessFactor(r: nat, q: nat, p: nat)
    requires r < q && p > 0
    ensures 0 <= r * p < p * q
  {
    MulMono(p, r + 1, q);
    assert p * (r + 1) == r * p + p;
  }

  lemma {:induction false} TimesParts(q: nat, d: nat, r: nat, p: nat)
    ensures (q * d + r) * p == d * (p * q) + r * p
  {
    assert (q * d) * p == d * (p * q);
  }

  /** `<<=`: a multiplication by a power of two, modulo the size of the number. */
  method ShiftLeft(a: Limbs, shift: nat) returns (r: Limbs)
    requires LimbsOk(a)
    ensures LimbsOk(r) && |r| == |a| && Value(r) == (Value(a) * Pow(2, shift)) % Pow(B, |a|)
  {
    r := Zeros(|a|);
    var k, s := shift / 32, shift % 32;
    ghost var p := Pow(2, s);
    ghost var f := p * Pow(B, k);
    LeftStart(a, r, k, f);
    ghost var c: nat, m: nat := 0, 0;
    for i := 0 to |a|
      invariant |r| == |a| && LimbsOk(r) && c < p && m <= i && (m == i || m + k >= |a|)
      invariant if m + k <= |a| then LeftPart(a, r, m, k, c, f) else m == 0 && r == Zeros(|a|)
    {
      if i + k < |a| {
        m := i + 1;
      }
      r, c := PlaceLeft(a, r, i, k, s, c);
    }
    if m + k > |a| {
      LeftGone(a, k, p);
    } else {
      LeftDone(a, r, m, k, p, c);
    }
    ShiftSplit(shift);
  }

  /** One round of the loop: a limb goes to two neighbouring places. */
  method PlaceLeft(a: Limbs, was: Limbs, i: nat, k: nat, s: nat, ghost c: nat) returns (r: Limbs, ghost next: nat)
    requires LimbsOk(a) && LimbsOk(was) && |was| == |a| && i < |a| && s < 32 && c < Pow(2, s)
    requires i + k < |a| ==> LeftPart(a, was, i, k, c, Pow(2, s) * Pow(B, k))
    ensures |r| == |a| && LimbsOk(r) && next < Pow(2, s) && (i + k >= |a| ==> r == was && next == c)
    ensures i + k < |a| ==> LeftPart(a, r, i + 1, k, next, Pow(2, s) * Pow(B, k))
  {
    r, next := was, c;
    if i + k < |a| {
      LeftFacts(s, c, a[i]);
      next := Down(a[i], 32 - s);
    }
    if i + k + 1 < |a| && s != 0 {
      r := r[i + k + 1 := BitOr(r[i + k + 1], Down(a[i], 32 - s))];
    }
    if i + k < |a| {
      r := r[i + k := BitOr(r[i + k], Up(a[i], s))];
      LeftNext(a, was, r, i, k, Pow(2, s), c, Up(a[i], s), next);
    }
  }

  lemma {:induction false} ShiftSplit(shift: nat)
    ensures Pow(2, shift % 32) * Pow(B, shift / 32) == Pow(2, shift)
  {
    var s, k := shift % 32, shift / 32;
    assert shift == s + 32 * k;
    PowSum(2, s, 32 * k);
    PowLimbs(k);
  }

  lemma {:induction false} PowLimbs(k: nat)
    ensures Pow(2, 32 * k) == Pow(B, k)
    decreases k
  {
    if k > 0 {
      PowLimbs(k - 1);
      TwoTo32();
      PowSum(2, 32, 32 * (k - 1));
    }
  }

  /** The limbs placed so far, with the carry into the next one. */
  ghost predicate LeftPart(a: Limbs, r: Limbs, i: nat, k: nat, c: nat, f: nat)
    requires i <= |a| && i + k <= |r|
  {
    && Value(r[..i + k]) + c * Pow(B, i + k) == Value(a[..i]) * f
    && (i + k < |r| ==> r[i + k] == c) && (forall j :: i + k < j < |r| ==> r[j] == 0)
  }

  lemma {:induction false} LeftStart(a: Limbs, r: Limbs, k: nat, f: nat)
    requires r == Zeros(|a|)
    ensures k <= |a| ==> LeftPart(a, r, 0, k, 0, f)
  {
    ValueAll(a);
    if k <= |a| {
      ZeroPart(r, k);
    }
  }

  lemma {:induction false} ZeroPart(r: Limbs, k: nat)
    requires k <= |r| && forall j :: 0 <= j < |r| ==> r[j] == 0
    ensures Value(r[..k]) == 0
    decreases k
  {
    if k > 0 {
      ZeroPart(r, k - 1);
      ValueTake(r, k - 1);
    }
  }

  lemma {:induction false} LeftFacts(s: nat, c: nat, x: nat)
    requires s < 32 && c < Pow(2, s) && x < B
    ensures var lo, next := Up(x, s), Down(x, 32 - s);
            && BitOr(c, lo) == c + lo < B && next < Pow(2, s) && next < B && (s == 0 ==> next == 0) && lo + B * next == x * Pow(2, s)
  {
    SplitLimb(s);
    SplitFacts(x, c, Pow(2, s), Pow(2, 32 - s), B);
    OrIsSum(s, c, Up(x, s));
    if s == 0 {
      assert Pow(2, s) == 1;
    }
  }

  lemma {:induction false} SplitFacts(x: nat, c: nat, p: nat, q: nat, b: nat)
    requires p > 0 && q > 0 && p * q == b && x < b && c < p
    ensures var lo, next := x * p % b, x / q;
            lo % p == 0 && c + lo < b && next < p && next <= x && lo + b * next == x * p
  {
    ShiftedLimb(x, p, q, b);
    LowBits(c, x * p % b, p, q);
    DivAtMost(x, q);
  }

  lemma {:induction false} DivAtMost(x: nat, q: nat)
    requires q > 0
    ensures x / q <= x
  {
    var d := x / q;
    assert x == q * d + x % q;
    MulMono(d, 1, q);
    assert d * q == q * d;
  }

  lemma {:induction false} LeftNext(a: Limbs, r: Limbs, u: Limbs, i: nat, k: nat, p: nat, c: nat, lo: nat, next: nat)
    requires i + k < |a| == |r| == |u| && LeftPart(a, r, i, k, c, p * Pow(B, k)) && lo + B * next == a[i] * p
    requires u[..i + k] == r[..i + k] && u[i + k] == c + lo && (i + k + 1 < |u| ==> u[i + k + 1] == next)
    requires forall j :: i + k + 1 < j < |u| ==> u[j] == 0
    ensures LeftPart(a, u, i + 1, k, next, p * Pow(B, k))
  {
    ValueTake(u, i + k);
    ValueTake(a, i);
    PowSum(B, i, k);
    LeftSum(Value(r[..i + k]), c, lo, next, Pow(B, i + k), Pow(B, i), Pow(B, k), p, a[i], Value(a[..i]), B);
  }

  /** A multiple of `p` below `p * q`, with less than `p` added, stays below. */
  lemma {:induction false} LowBits(c: nat, lo: nat, p: nat, q: nat)
    requires c < p && lo < p * q && lo % p == 0
    ensures c + lo < p * q
  {
    QuotientBelow(lo, p, q);
    var m := lo / p;
    assert lo == p * m;
    MulMono(p, m + 1, q);
    Distribute(p, m, 1);
  }

  lemma {:induction false} LeftSum(v: nat, c: nat, lo: nat, c2: nat, pn: nat, pi: nat, pk: nat, p: nat, x: nat, va: nat, b: nat)
    requires v + c * pn == va * (p * pk) && lo + b * c2 == x * p && pn == pi * pk
    ensures v + pn * (c + lo) + c2 * (b * pn) == (va + pi * x) * (p * pk)
  {
    assert pn * (c + lo) == c * pn + pn * lo;
    assert c2 * (b * pn) == pn * (b * c2);
    assert pn * lo + pn * (b * c2) == pn * (x * p);
    assert (va + pi * x) * (p * pk) == va * (p * pk) + (pi * x) * (p * pk);
    assert (pi * x) * (p * pk) == (pi * pk) * (x * p);
  }

  /** A shift by more than the whole width leaves nothing. */
  lemma {:induction false} LeftGone(a: Limbs, k: nat, p: nat)
    requires k > |a|
    ensures (Value(a) * (p * Pow(B, k))) % Pow(B, |a|) == 0
  {
    PowSum(B, |a|, k - |a|);
    GoneMultiple(Value(a), p, Pow(B, |a|), Pow(B, k - |a|));
  }

  lemma {:induction false} GoneMultiple(v: nat, p: nat, m: nat, n: nat)
    requires m > 0
    ensures (v * (p * (m * n))) % m == 0
  {
    assert v * (p * (m * n)) == (v * (p * n)) * m;
    DivModUnique(v * (p * (m * n)), m, v * (p * n), 0);
  }

  lemma {:induction false} LeftDone(a: Limbs, r: Limbs, i: nat, k: nat, p: nat, c: nat)
    requires LimbsOk(r) && |r| == |a| == i + k && LeftPart(a, r, i, k, c, p * Pow(B, k))
    ensures Value(r) == (Value(a) * (p * Pow(B, k))) % Pow(B, |a|)
  {
    ValueAll(r);
    ValueBound(r);
    var hi := TopPart(a, i);
    PowSum(B, i, k);
    LeftRest(Value(a[..i]), Pow(B, i), hi, p, Pow(B, k));
    LeftCarry(Value(r), c, Pow(B, |a|), Value(a[..i]) * (p * Pow(B, k)), p * hi);
    ModIs(Value(r), c + p * hi, Pow(B, |a|), Value(a) * (p * Pow(B, k)));
  }

  lemma {:induction false} LeftRest(v: nat, pi: nat, hi: nat, p: nat, pk: nat)
    ensures (v + pi * hi) * (p * pk) == v * (p * pk) + (p * hi) * (pi * pk)
  {
    assert (v + pi * hi) * (p * pk) == v * (p * pk) + (pi * hi) * (p * pk);
    assert (pi * hi) * (p * pk) == (p * hi) * (pi * pk);
  }

  lemma {:induction false} LeftCarry(v: nat, c: nat, m: nat, t: nat, e: nat)
    requires v + c * m == t
    ensures v + (c + e) * m == t + e * m
  {
    assert (c + e) * m == c * m + e * m;
  }

  // ---------- Right ----------

  /** `>>=`: a division by a power of two. */
  method ShiftRight(a: Limbs, shift: nat) returns (r: Limbs)
    requires LimbsOk(a)
    ensures LimbsOk(r) && |r| == |a| && Value(r) == Value(a) / Pow(2, shift)
  {
    r := Zeros(|a|);
    var k, s := shift / 32, shift % 32;
    ghost var q := Pow(2, s);
    RightStart(a, r, k, q);
    for i := 0 to |a|
      invariant |r| == |a| && LimbsOk(r)
      invariant if i >= k then RightPart(a, r, i, k, q) else r == Zeros(|a|)
    {
      r := PlaceRight(a, r, i, k, s);
      if i + 1 == k {
        RightStart(a, r, k, q);
      }
    }
    if k <= |a| {
      RightDone(a, r, k, q);
    } else {
      RightGone(a, k, q);
    }
    ShiftSplit(shift);
  }

  /** One round of the loop: a limb goes to two neighbouring places. */
  method PlaceRight(a: Limbs, was: Limbs, i: nat, k: nat, s: nat) returns (r: Limbs)
    requires LimbsOk(a) && LimbsOk(was) && |was| == |a| && i < |a| && s < 32
    requires i >= k ==> RightPart(a, was, i, k, Pow(2, s))
    ensures |r| == |a| && LimbsOk(r) && (i < k ==> r == was)
    ensures i >= k ==> RightPart(a, r, i + 1, k, Pow(2, s))
  {
    r := was;
    if i > k {
      RightFacts(s, a[i - 1], a[i]);
    } else {
      RightFacts(s, 0, a[i]);
    }
    if i >= k + 1 && s != 0 {
      r := r[i - k - 1 := BitOr(r[i - k - 1], Up(a[i], 32 - s))];
    }
    if s == 0 {
      WholeLimb(a[i]);
    }
    if i >= k {
      r := r[i - k := BitOr(r[i - k], Down(a[i], s))];
      if i == k {
        RightFirst(a, r, k, Pow(2, s));
      } else {
        RightNext(a, was, r, i, k, Pow(2, 32 - s), Pow(2, s), Up(a[i], 32 - s));
      }
    }
  }

  /** The limbs placed so far; the upper bits of the last one are still to come. */
  ghost predicate RightPart(a: Limbs, r: Limbs, i: nat, k: nat, q: nat)
    requires k <= i <= |a| == |r| && q > 0
  {
    && Value(r[..i - k]) == Value(a[..i]) / (q * Pow(B, k))
    && (i > k ==> r[i - k - 1] == a[i - 1] / q) && (forall j :: i - k <= j < |r| ==> r[j] == 0)
  }

  lemma {:induction false} RightStart(a: Limbs, r: Limbs, k: nat, q: nat)
    requires LimbsOk(a) && r == Zeros(|a|) && q > 0
    ensures k <= |a| ==> RightPart(a, r, k, k, q)
  {
    if k <= |a| {
      ValueAll(r);
      ValueBound(a[..k]);
      SmallQuotient(Value(a[..k]), Pow(B, k), q);
    }
  }

  lemma {:induction false} SmallQuotient(v: nat, p: nat, q: nat)
    requires v < p && q > 0
    ensures q * p > 0 && v / (q * p) == 0
  {
    MulMono(p, 1, q);
    assert p * q == q * p;
    DivModUnique(v, q * p, 0, v);
  }

  lemma {:induction false} RightGone(a: Limbs, k: nat, q: nat)
    requires LimbsOk(a) && k > |a| && q > 0
    ensures Value(a) / (q * Pow(B, k)) == 0
  {
    ValueBound(a);
    PowSum(B, |a|, k - |a|);
    MulMono(Pow(B, |a|), 1, Pow(B, k - |a|));
    SmallQuotient(Value(a), Pow(B, k), q);
  }

  lemma {:induction false} RightDone(a: Limbs, r: Limbs, k: nat, q: nat)
    requires k <= |a| == |r| && q > 0 && RightPart(a, r, |a|, k, q)
    ensures Value(r) == Value(a) / (q * Pow(B, k))
  {
    ValueAll(a);
    ValueAll(r);
    ZeroAbove(r, |a| - k, |a|);
  }

  lemma {:induction false} ZeroAbove(r: Limbs, n: nat, m: nat)
    requires n <= m <= |r| && forall j :: n <= j < |r| ==> r[j] == 0
    ensures Value(r[..m]) == Value(r[..n])
    decreases m
  {
    if n < m {
      ZeroAbove(r, n, m - 1);
      ValueTake(r, m - 1);
    }
  }

  lemma {:induction false} RightFacts(s: nat, y: nat, x: nat)
    requires s < 32 && x < B && y < B
    ensures Pow(2, 32 - s) * Pow(2, s) == B && Down(x, s) < B
    ensures BitOr(Down(y, s), Up(x, 32 - s)) == Down(y, s) + Up(x, 32 - s) < B
    ensures Up(x, 32 - s) + B * Down(x, s) == x * Pow(2, 32 - s)
  {
    SplitLimb(s);
    RightSplit(Pow(2, 32 - s), Pow(2, s), y, x);
    OrIsSum(32 - s, Down(y, s), Up(x, 32 - s));
  }

  lemma {:induction false} WholeLimb(x: nat)
    ensures Up(x, 32) == 0
  {
    TwoTo32();
    DivModUnique(x * B, B, x, 0);
  }

  lemma {:induction false} RightSplit(p: nat, q: nat, y: nat, x: nat)
    requires p > 0 && q > 0 && q * p == B && x < B && y < B
    ensures p * q == B && y / q < p && (x * p % B) % p == 0 && y / q + x * p % B < B
    ensures x * p % B + B * (x / q) == x * p && x / q < B
  {
    assert p * q == q * p;
    QuotientBelow(y, q, p);
    SplitFacts(x, y / q, p, q, B);
  }

  lemma {:induction false} RightFirst(a: Limbs, u: Limbs, k: nat, q: nat)
    requires LimbsOk(a) && k < |a| == |u| && q > 0 && u[0] == a[k] / q && forall j :: 0 < j < |u| ==> u[j] == 0
    ensures RightPart(a, u, k + 1, k, q)
  {
    ValueAll(u);
    ValueTake(u, 0);
    ValueTake(a, k);
    ValueBound(a[..k]);
    NestedQuotient(Value(a[..k]), Pow(B, k), a[k], q);
  }

  lemma {:induction false} NestedQuotient(v: nat, p: nat, x: nat, q: nat)
    requires v < p && q > 0
    ensures q * p > 0 && (v + p * x) / (q * p) == x / q
  {
    var d, r := x / q, x % q;
    assert x == q * d + r;
    BoundStep(v, p, r, q);
    assert p * x == d * (q * p) + p * r by {
      assert p * (q * d + r) == p * (q * d) + p * r;
      assert p * (q * d) == d * (q * p);
    }
    DivModUnique(v + p * x, q * p, d, v + p * r);
  }

  lemma {:induction false} RightNext(a: Limbs, r: Limbs, u: Limbs, i: nat, k: nat, p: nat, q: nat, lo: nat)
    requires k < i < |a| == |r| == |u| && q > 0 && p * q == B && RightPart(a, r, i, k, q) && lo + B * (a[i] / q) == a[i] * p
    requires u[..i - k - 1] == r[..i - k - 1] && u[i - k - 1] == r[i - k - 1] + lo && u[i - k] == a[i] / q
    requires forall j :: i - k < j < |u| ==> u[j] == 0
    ensures RightPart(a, u, i + 1, k, q)
  {
    PlacedValue(r, u, i - k, p, q, lo, a[i]);
    QuotientStep(a, i, k, p, q);
  }

  lemma {:induction false} PlacedValue(r: Limbs, u: Limbs, n: nat, p: nat, q: nat, lo: nat, x: nat)
    requires 0 < n < |r| == |u| && q > 0 && lo + B * (x / q) == x * p
    requires u[..n - 1] == r[..n - 1] && u[n - 1] == r[n - 1] + lo && u[n] == x / q
    ensures Value(u[..n + 1]) == Value(r[..n]) + p * Pow(B, n - 1) * x
  {
    ValueTake(u, n);
    ValueTake(u, n - 1);
    ValueTake(r, n - 1);
    RightSum(Value(r[..n - 1]), r[n - 1], lo, x / q, Pow(B, n - 1), x, p, B);
  }

  lemma {:induction false} QuotientStep(a: Limbs, i: nat, k: nat, p: nat, q: nat)
    requires k < i < |a| && q > 0 && p * q == B
    ensures Value(a[..i + 1]) / (q * Pow(B, k)) == Value(a[..i]) / (q * Pow(B, k)) + p * Pow(B, i - k - 1) * a[i]
  {
    ValueTake(a, i);
    PowSum(B, k, i - k);
    QuotientAdds(Value(a[..i]), Pow(B, k), Pow(B, i - k - 1), p, q, B, a[i]);
  }

  lemma {:induction false} QuotientAdds(v: nat, pk: nat, pn: nat, p: nat, q: nat, b: nat, x: nat)
    requires q > 0 && pk > 0 && p * q == b
    ensures q * pk > 0 && (v + (pk * (b * pn)) * x) / (q * pk) == v / (q * pk) + p * pn * x
  {
    MulMono(q, 1, pk);
    RightWeight(pk, pn, p, q, b, x);
    AddMultiple(v, q * pk, p * pn * x);
  }

  lemma {:induction false} RightSum(v: nat, c: nat, lo: nat, next: nat, pn: nat, x: nat, p: nat, b: nat)
    requires lo + b * next == x * p
    ensures v + pn * (c + lo) + (b * pn) * next == v + pn * c + p * pn * x
  {
    assert pn * (c + lo) == pn * c + pn * lo;
    assert (b * pn) * next == pn * (b * next);
    assert pn * lo + pn * (b * next) == pn * (x * p);
    assert pn * (x * p) == p * pn * x;
  }

  lemma {:induction false} RightWeight(pk: nat, pn: nat, p: nat, q: nat, b: nat, x: nat)
    requires p * q == b
    ensures (pk * (b * pn)) * x == (p * pn * x) * (q * pk)
  {
    assert (pk * ((p * q) * pn)) * x == (p * pn * x) * (q * pk);
  }

  lemma {:induction false} AddMultiple(v: nat, d: nat, m: nat)
    requires d > 0
    ensures (v + m * d) / d == v / d + m
  {
    var e, r := v / d, v % d;
    assert v == d * e + r;
    assert (e + m) * d == d * e + m * d;
    DivModUnique(v + m * d, d, e + m, r);
  }
}
