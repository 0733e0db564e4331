/** Numbers written in an arbitrary base, and the conversion of one base into another. */
module BaseDigits {
  import opened LimbMath
  import opened LimbArith
  import opened LimbDivide

  ghost predicate DigitsOk(d: seq<nat>, b: nat) {
    forall i :: 0 <= i < |d| ==> d[i] < b
  }

  /** The number written with the most significant digit first. */
  ghost function BE(s: seq<nat>, b: nat): nat {
    if s == [] then 0 else BE(s[..|s| - 1], b) * b + s[|s| - 1]
  }

  /** The number written with the least significant digit first. */
  ghost function LE(d: seq<nat>, b: nat): nat {
    if d == [] then 0 else LE(d[..|d| - 1], b) + Pow(b, |d| - 1) * d[|d| - 1]
  }

  lemma {:induction false} TakeBE(s: seq<nat>, b: nat, i: nat)
    requires i < |s|
    ensures BE(s[..i + 1], b) == BE(s[..i], b) * b + s[i]
  {
    assert s[..i + 1][..i] == s[..i];
  }

  lemma {:induction false} AppendBE(s: seq<nat>, x: nat, b: nat)
    ensures BE(s + [x], b) == BE(s, b) * b + x
  {
    assert (s + [x])[..|s|] == s;
  }

  lemma {:induction false} TakeLE(d: seq<nat>, b: nat, i: nat)
    requires i < |d|
    ensures LE(d[..i + 1], b) == LE(d[..i], b) + Pow(b, i) * d[i]
  {
    assert d[..i + 1][..i] == d[..i];
  }

  lemma {:induction false} BoundBE(s: seq<nat>, b: nat)
    requires DigitsOk(s, b)
    ensures BE(s, b) < Pow(b, |s|)
    decreases |s|
  {
    if s != [] {
      var n := |s| - 1;
      BoundBE(s[..n], b);
      DigitStep(BE(s[..n], b), Pow(b, n), s[n], b);
    }
  }

  lemma {:induction false} DigitStep(v: nat, p: nat, x: nat, b: nat)
    requires v < p && x < b
    ensures v * b + x < b * p
  {
    MulMono(b, v + 1, p);
    Distribute(b, v, 1);
  }

  // ---------- Leading zeros ----------

  ghost function Leading<T>(s: seq<T>, c: T): (n: nat)
    ensures n <= |s| && (forall i :: 0 <= i < n ==> s[i] == c) && (n < |s| ==> s[n] != c)
  {
    if s == [] || s[0] != c then 0 else 1 + Leading(s[1..], c)
  }

  /** Zeros in front do not change the number. */
  lemma {:induction false} SkipZeros(s: seq<nat>, b: nat, z: nat)
    requires z <= |s| && forall i :: 0 <= i < z ==> s[i] == 0
    ensures BE(s, b) == BE(s[z..], b)
    decreases |s|
  {
    if |s| > z {
      var n := |s| - 1;
      SkipZeros(s[..n], b, z);
      assert s[..n][z..] == s[z..][..n - z];
    } else {
      assert s[z..] == [];
      AllZero(s, b);
    }
  }

  lemma {:induction false} AllZero(s: seq<nat>, b: nat)
    requires forall i :: 0 <= i < |s| ==> s[i] == 0
    ensures BE(s, b) == 0
    decreases |s|
  {
    if s != [] {
      AllZero(s[..|s| - 1], b);
    }
  }

  /** A number that does not begin with zero is at least the weight of its first digit. */
  lemma {:induction false} AtLeastBE(s: seq<nat>, b: nat)
    requires s != [] && s[0] != 0
    ensures BE(s, b) >= Pow(b, |s| - 1)
    decreases |s|
  {
    var n := |s| - 1;
    if n > 0 {
      AtLeastBE(s[..n], b);
      MulMono(b, Pow(b, n - 1), BE(s[..n], b));
    }
  }

  /** A number is written in one way without leading zeros. */
  lemma {:induction false} UniqueBE(x: seq<nat>, y: seq<nat>, b: nat)
    requires b > 0 && DigitsOk(x, b) && DigitsOk(y, b) && (x == [] || x[0] != 0) && (y == [] || y[0] != 0) && BE(x, b) == BE(y, b)
    ensures x == y
    decreases |x|
  {
    if x == [] && y != [] {
      AtLeastBE(y, b);
    } else if x != [] && y == [] {
      AtLeastBE(x, b);
    } else if x != [] {
      var n, m := |x| - 1, |y| - 1;
      DivModUnique(BE(x, b), b, BE(x[..n], b), x[n]);
      DivModUnique(BE(y, b), b, BE(y[..m], b), y[m]);
      UniqueBE(x[..n], y[..m], b);
      assert x == x[..n] + [x[n]] && y == y[..m] + [y[m]];
    }
  }

  /** With the same number of leading zeros, equal numbers are written the same way. */
  lemma {:induction false} UniqueWithZeros(x: seq<nat>, y: seq<nat>, b: nat)
    requires b > 0 && DigitsOk(x, b) && DigitsOk(y, b) && Leading(x, 0) == Leading(y, 0) && BE(x, b) == BE(y, b)
    ensures x == y
  {
    var z := Leading(x, 0);
    SkipZeros(x, b, z);
    SkipZeros(y, b, z);
    UniqueBE(x[z..], y[z..], b);
    SameTail(x, y, z);
  }

  lemma {:induction false} SameTail(x: seq<nat>, y: seq<nat>, z: nat)
    requires z <= |x| && z <= |y| && x[z..] == y[z..] && forall i :: 0 <= i < z ==> x[i] == y[i]
    ensures x == y
  {
    forall i | 0 <= i < |x| ensures x[i] == y[i] {
      if i >= z {
        assert x[z..][i - z] == x[i];
      }
    }
  }

  // ---------- Multiplying a buffer ----------

  /** The digits of a number, from the least significant one, in a buffer that is zero beyond them. */
  ghost predicate Holds(buf: seq<nat>, length: nat, b: nat) {
    && length <= |buf| && DigitsOk(buf, b) && (forall i :: length <= i < |buf| ==> buf[i] == 0)
    && (length > 0 ==> buf[length - 1] != 0)
  }

  /**
   * The inner loop of both conversions: multiply the number in the buffer by `mult` and add a digit. When the result
   * fits the buffer no carry is left over.
   */
  method MultiplyAdd(buf: seq<nat>, length: nat, digit: nat, mult: nat, b: nat) returns (r: seq<nat>, rlen: nat)
    requires Holds(buf, length, b) && digit < mult && b > 0 && LE(buf[..length], b) * mult + digit < Pow(b, |buf|)
    ensures |r| == |buf| && Holds(r, rlen, b) && LE(r[..rlen], b) == LE(buf[..length], b) * mult + digit
  {
    var carry: nat, i := digit, 0;
    r := buf;
    assert r[..0] == [] && buf[..0] == [];
    while (carry != 0 || i < length) && i < |r|
      invariant 0 <= i <= |r| == |buf| && DigitsOk(r, b) && carry < mult && (forall j :: i <= j < |r| ==> r[j] == buf[j])
      invariant LE(r[..i], b) + carry * Pow(b, i) == LE(buf[..i], b) * mult + digit
      invariant i >= length && i > 0 ==> carry != 0 || r[i - 1] != 0
      decreases |r| - i
    {
      var x, next := MultiplyDigit(carry, mult, r[i], b);
      MultiplyStep(buf, b, i, mult, digit, LE(r[..i], b), carry, x, next);
      SetLE(r, b, i, x);
      r, carry, i := r[i := x], next, i + 1;
    }
    rlen := i;
    NoCarry(buf, length, i, b, mult, digit, LE(r[..i], b), carry);
    assert carry == 0;
  }

  /** One digit of the product, and what is carried to the next. */
  method MultiplyDigit(carry: nat, mult: nat, d: nat, b: nat) returns (x: nat, next: nat)
    requires carry < mult && d < b
    ensures x < b && next < mult && x + b * next == carry + mult * d && (carry != 0 || d != 0 ==> next != 0 || x != 0)
  {
    MulMono(mult, d + 1, b);
    Distribute(mult, d, 1);
    MulMono(mult, 0, d);
    var n: nat := carry + mult * d;
    x, next := n % b, n / b;
    QuotientBelow(n, b, mult);
    if d != 0 {
      MulMono(mult, 1, d);
    }
  }

  lemma {:induction false} SetLE(r: seq<nat>, b: nat, i: nat, x: nat)
    requires i < |r|
    ensures LE(r[i := x][..i + 1], b) == LE(r[..i], b) + Pow(b, i) * x
  {
    TakeLE(r[i := x], b, i);
    assert r[i := x][..i] == r[..i];
  }

  lemma {:induction false} MultiplyStep(buf: seq<nat>, b: nat, i: nat, mult: nat, digit: nat, v: nat, carry: nat, x: nat, next: nat)
    requires i < |buf| && v + carry * Pow(b, i) == LE(buf[..i], b) * mult + digit && x + b * next == carry + mult * buf[i]
    ensures v + Pow(b, i) * x + next * Pow(b, i + 1) == LE(buf[..i + 1], b) * mult + digit
  {
    TakeLE(buf, b, i);
    TimesSum(LE(buf[..i], b), Pow(b, i), buf[i], mult);
    CarryOver(Pow(b, i), carry, x, next, mult * buf[i], b);
  }

  lemma {:induction false} CarryOver(p: nat, carry: nat, x: nat, next: nat, y: nat, b: nat)
    requires x + b * next == carry + y
    ensures p * x + next * (b * p) == carry * p + p * y
  {
    Distribute(p, carry, y);
    Distribute(p, x, b * next);
    assert p * (b * next) == next * (b * p);
  }

  lemma {:induction false} NoCarry(buf: seq<nat>, length: nat, i: nat, b: nat, mult: nat, digit: nat, v: nat, carry: nat)
    requires Holds(buf, length, b) && i <= |buf| && ((carry == 0 && i >= length) || i == |buf|)
    requires LE(buf[..length], b) * mult + digit < Pow(b, |buf|) && v + carry * Pow(b, i) == LE(buf[..i], b) * mult + digit
    ensures carry == 0 && v == LE(buf[..length], b) * mult + digit
  {
    ZeroTop(buf, b, length, i);
    AtLeastOnce(carry, Pow(b, i));
  }

  lemma {:induction false} ZeroTop(d: seq<nat>, b: nat, n: nat, m: nat)
    requires n <= m <= |d| && forall j :: n <= j < m ==> d[j] == 0
    ensures LE(d[..m], b) == LE(d[..n], b)
    decreases m
  {
    if n < m {
      ZeroTop(d, b, n, m - 1);
      TakeLE(d, b, m - 1);
    }
  }

  // ---------- The buffer read backwards ----------

  function Reversed<T>(d: seq<T>): (r: seq<T>)
    ensures |r| == |d| && forall i :: 0 <= i < |d| ==> r[i] == d[|d| - 1 - i]
  {
    if d == [] then [] else [d[|d| - 1]] + Reversed(d[..|d| - 1])
  }

  lemma {:induction false} ReversedBE(d: seq<nat>, b: nat)
    ensures BE(Reversed(d), b) == LE(d, b)
    decreases |d|
  {
    if d != [] {
      var n := |d| - 1;
      ReversedBE(d[..n], b);
      FirstBE(d[n], Reversed(d[..n]), b);
    }
  }

  /** A digit in front has the weight of all digits after it. */
  lemma {:induction false} FirstBE(x: nat, s: seq<nat>, b: nat)
    ensures BE([x] + s, b) == BE(s, b) + Pow(b, |s|) * x
    decreases |s|
  {
    var t := [x] + s;
    if s == [] {
      assert t[..0] == [] && BE(t[..0], b) == 0;
    } else {
      var n := |s| - 1;
      FirstBE(x, s[..n], b);
      assert t[..n + 1] == [x] + s[..n];
      FirstStep(BE(s[..n], b), Pow(b, n), x, b);
    }
  }

  lemma {:induction false} FirstStep(v: nat, p: nat, x: nat, b: nat)
    ensures (v + p * x) * b == v * b + (b * p) * x
  {
    TimesSum(v, p, x, b);
    assert p * (b * x) == (b * p) * x;
  }

  // ---------- Sizes ----------

  /** If `a`^q is at most `b`^p, then n digits of base `a` fit m digits of base `b` whenever n/m is at most q/p. */
  lemma {:induction false} BufferFits(a: nat, b: nat, q: nat, p: nat, n: nat, m: nat)
    requires a > 0 && b > 0 && q > 0 && Pow(a, q) <= Pow(b, p) && p * n <= q * m
    ensures Pow(a, n) <= Pow(b, m)
  {
    if Pow(a, n) > Pow(b, m) {
      PowLess(Pow(b, m), Pow(a, n), q);
      PowPow(b, m, q);
      PowPow(a, n, q);
      PowPow(a, q, n);
      PowPow(b, p, n);
      PowAtMost(Pow(a, q), Pow(b, p), n);
      assert n * q == q * n && m * q == q * m;
      PowGrows(b, p * n, q * m);
      assert false;
    }
  }

  lemma {:induction false} PowPow(b: nat, m: nat, n: nat)
    ensures m * n >= 0 && Pow(Pow(b, m), n) == Pow(b, m * n)
    decreases n
  {
    if n > 0 {
      PowPow(b, m, n - 1);
      Distribute(m, n - 1, 1);
      PowSum(b, m, m * (n - 1));
    }
  }

  lemma {:induction false} PowAtMost(x: nat, y: nat, n: nat)
    requires x <= y
    ensures Pow(x, n) <= Pow(y, n)
    decreases n
  {
    if n > 0 {
      PowAtMost(x, y, n - 1);
      MulMono(x, Pow(x, n - 1), Pow(y, n - 1));
      AtLeastTimes(x, y, Pow(y, n - 1));
    }
  }

  lemma {:induction false} PowLess(x: nat, y: nat, n: nat)
    requires x < y && n > 0
    ensures Pow(x, n) < Pow(y, n)
  {
    PowAtMost(x, y, n - 1);
    MulMono(x, Pow(x, n - 1), Pow(y, n - 1));
    LessTimes(x, y, Pow(y, n - 1));
  }
}
