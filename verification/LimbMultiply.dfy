/** Schoolbook multiplication of limbs (`base_uint::operator*=`). */
module LimbMultiply {
  import opened LimbMath
  import opened LimbArith

  /** One row: add `x` times `b`, shifted by `j` limbs, to `a`, as far as there is room. */
  method AddRow(a: Limbs, x: nat, b: Limbs, j: nat) returns (r: Limbs, ghost carry: nat)
    requires LimbsOk(a) && LimbsOk(b) && |a| == |b| && j < |a| && x < B
    ensures LimbsOk(r) && |r| == |a|
    ensures Value(r) + carry * Pow(B, |a|) == Value(a) + Pow(B, j) * (x * Value(b[..|a| - j]))
  {
    r := a;
    var c: nat := 0;
    var i := 0;
    while i + j < |a|
      invariant 0 <= i <= |a| - j && RowAdded(a, b, x, r, i, j, c)
    {
      SmallProduct(c, a[i + j], x, b[i]);
      var n: nat := c + r[i + j] + x * b[i];
      assert n < UINT64;
      RowAddedStep(a, b, x, r, i, j, c, n);
      r := r[i + j := n % B];
      c := n / B;
      i := i + 1;
    }
    carry := c;
    ValueAll(r);
    ValueAll(a);
  }

  /** The first `i` limbs of the row are added, with a carry into the next one. */
  ghost predicate RowAdded(a: Limbs, b: Limbs, x: nat, r: Limbs, i: nat, j: nat, c: nat) {
    && LimbsOk(r) && i + j <= |a| == |b| == |r| && (forall k :: i + j <= k < |a| ==> r[k] == a[k]) && c < B
    && Value(r[..i + j]) + c * Pow(B, i + j) == Value(a[..i + j]) + Pow(B, j) * (x * Value(b[..i]))
  }

  lemma {:induction false} RowAddedStep(a: Limbs, b: Limbs, x: nat, r: Limbs, i: nat, j: nat, c: nat, n: nat)
    requires RowAdded(a, b, x, r, i, j, c) && i + j < |a| && n == c + a[i + j] + x * b[i] && n / B < B
    ensures RowAdded(a, b, x, r[i + j := n % B], i + 1, j, n / B)
  {
    RowStep(a, b, x, i, j, Value(r[..i + j]), c, n);
    ValueSet(r, i + j, i + j, n % B);
    ValueTake(r[i + j := n % B], i + j);
  }

  lemma {:induction false} RowStep(a: Limbs, b: Limbs, x: nat, i: nat, j: nat, v: nat, c: nat, n: nat)
    requires i + j < |a| == |b| && n == c + a[i + j] + x * b[i]
    requires v + c * Pow(B, i + j) == Value(a[..i + j]) + Pow(B, j) * (x * Value(b[..i]))
    ensures v + Pow(B, i + j) * (n % B) + (n / B) * Pow(B, i + j + 1) == Value(a[..i + j + 1]) + Pow(B, j) * (x * Value(b[..i + 1]))
  {
    var p := Pow(B, i + j);
    CarryStep(p, v, c, Value(a[..i + j]) + Pow(B, j) * (x * Value(b[..i])), n, a[i + j] + x * b[i]);
    ValueTake(a, i + j);
    ValueTake(b, i);
    PowSum(B, j, i);
    Regroup(Pow(B, j), Pow(B, i), x, b[i], Value(b[..i]));
    Distribute(p, a[i + j], x * b[i]);
  }

  lemma {:induction false} Regroup(pj: nat, pi: nat, x: nat, y: nat, v: nat)
    ensures pj * (x * (v + pi * y)) == pj * (x * v) + pj * pi * (x * y)
  {
    assert x * (v + pi * y) == x * v + pi * (x * y);
  }

  /** `*=`: the product modulo the size of the number. */
  method Multiply(x: Limbs, b: Limbs) returns (a: Limbs)
    requires LimbsOk(x) && LimbsOk(b) && |x| == |b|
    ensures LimbsOk(a) && |a| == |x| && Value(a) == (Value(x) * Value(b)) % Pow(B, |x|)
  {
    a := Zeros(|x|);
    ghost var k: nat := 0;
    ValueAll(x);
    for j := 0 to |x|
      invariant LimbsOk(a) && |a| == |x| && Value(a) + k * Pow(B, |x|) == Value(x[..j]) * Value(b)
    {
      ghost var v := Value(a);
      ghost var carry;
      a, carry := AddRow(a, x[j], b, j);
      k := MultiplyStep(x, b, j, v, Value(a), k, carry);
    }
    ValueBound(a);
    ModIs(Value(a), k, Pow(B, |x|), Value(x) * Value(b));
  }

  lemma {:induction false} MultiplyStep(x: Limbs, b: Limbs, j: nat, v: nat, w: nat, k: nat, carry: nat) returns (k2: nat)
    requires j < |x| == |b| && v + k * Pow(B, |x|) == Value(x[..j]) * Value(b)
    requires w + carry * Pow(B, |x|) == v + Pow(B, j) * (x[j] * Value(b[..|x| - j]))
    ensures w + k2 * Pow(B, |x|) == Value(x[..j + 1]) * Value(b)
  {
    var hi := TopPart(b, |x| - j);
    ValueTake(x, j);
    PowSum(B, j, |x| - j);
    RowsStep(v, w, k, carry, Pow(B, |x|), Value(x[..j]), x[j], Pow(B, j), Pow(B, |x| - j), Value(b[..|x| - j]), hi);
    MulMono(hi, 0, x[j]);
    k2 := k + carry + x[j] * hi;
  }

  lemma {:induction false} SwapFactors(x: nat, y: nat, p: nat, q: nat)
    ensures (x * y) * (p * q) == (p * x) * (q * y)
  {
  }

  lemma {:induction false} RowsStep(v: nat, w: nat, k: nat, carry: nat, m: nat, vx: nat, x: nat, pj: nat, pr: nat, lo: nat, hi: nat)
    requires v + k * m == vx * (lo + pr * hi) && w + carry * m == v + pj * (x * lo) && m == pj * pr
    ensures w + (k + carry + x * hi) * m == (vx + pj * x) * (lo + pr * hi)
  {
    calc {
      w + (k + carry + x * hi) * m;
      { assert (k + carry + x * hi) * m == k * m + carry * m + (x * hi) * m; }
      v + pj * (x * lo) + k * m + (x * hi) * m;
      { SwapFactors(x, hi, pj, pr); }
      vx * (lo + pr * hi) + pj * (x * lo) + (pj * x) * (pr * hi);
      { assert pj * (x * lo) == (pj * x) * lo; assert (pj * x) * lo + (pj * x) * (pr * hi) == (pj * x) * (lo + pr * hi); }
      (vx + pj * x) * (lo + pr * hi);
    }
  }

  /** The part of a number above the first `n` limbs. */
  ghost function TopPart(l: Limbs, n: nat): (hi: nat)
    requires n <= |l|
    ensures Value(l) == Value(l[..n]) + Pow(B, n) * hi
  {
    TopExists(l, n, |l|);
    assert l[..|l|] == l;
    var hi :| Value(l) == Value(l[..n]) + Pow(B, n) * hi;
    hi
  }

  lemma {:induction false} TopExists(l: Limbs, n: nat, m: nat)
    requires n <= m <= |l|
    ensures exists hi: nat :: Value(l[..m]) == Value(l[..n]) + Pow(B, n) * hi
    decreases m
  {
    if n == m {
      assert Value(l[..m]) == Value(l[..n]) + Pow(B, n) * 0;
    } else {
      TopExists(l, n, m - 1);
      var hi: nat :| Value(l[..m - 1]) == Value(l[..n]) + Pow(B, n) * hi;
      ValueTake(l, m - 1);
      PowSum(B, n, m - 1 - n);
      var more := hi + Pow(B, m - 1 - n) * l[m - 1];
      TopStep(Pow(B, n), Pow(B, m - 1 - n), hi, l[m - 1]);
      assert Value(l[..m]) == Value(l[..n]) + Pow(B, n) * more;
    }
  }

  lemma {:induction false} TopStep(p: nat, q: nat, hi: nat, x: nat)
    ensures p * hi + (p * q) * x == p * (hi + q * x)
  {
  }

  function Zeros(n: nat): (l: Limbs)
    ensures |l| == n && (forall i :: 0 <= i < n ==> l[i] == 0) && Value(l) == 0
  {
    if n == 0 then [] else
      var l := Zeros(n - 1);
      assert (l + [0])[..n - 1] == l;
      l + [0]
  }
}
