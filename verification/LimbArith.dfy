/** Addition, subtraction and multiplication of limbs (`base_uint`), for any number of limbs. */
module LimbArith {
  import opened LimbMath

  const UINT64: nat := 0x1_0000_0000_0000_0000

  /** `+=`: the sum modulo the size of the number. No carry overflows 64 bits. */
  method Add(a: Limbs, b: Limbs) returns (r: Limbs)
    requires LimbsOk(a) && LimbsOk(b) && |a| == |b|
    ensures LimbsOk(r) && |r| == |a| && Value(r) == (Value(a) + Value(b)) % Pow(B, |a|)
  {
    r := a;
    var carry: nat := 0;
    for i := 0 to |a|
      invariant Added(a, b, r, i, carry)
    {
      var n := carry + r[i] + b[i];
      assert n < UINT64;
      AddedStep(a, b, r, i, carry, n);
      r := r[i := n % B];
      carry := n / B;
    }
    AddedEnd(a, b, r, carry);
  }

  /** The sum of the first `i` limbs is done, with a carry into the next one. */
  ghost predicate Added(a: Limbs, b: Limbs, r: Limbs, i: nat, carry: nat) {
    && LimbsOk(r) && i <= |a| == |b| == |r| && (forall j :: i <= j < |a| ==> r[j] == a[j]) && carry <= 1
    && Value(r[..i]) + carry * Pow(B, i) == Value(a[..i]) + Value(b[..i])
  }

  lemma {:induction false} AddedStep(a: Limbs, b: Limbs, r: Limbs, i: nat, carry: nat, n: nat)
    requires Added(a, b, r, i, carry) && i < |a| && n == carry + a[i] + b[i] && n / B <= 1
    ensures Added(a, b, r[i := n % B], i + 1, n / B)
  {
    CarryStep(Pow(B, i), Value(r[..i]), carry, Value(a[..i]) + Value(b[..i]), n, a[i] + b[i]);
    ValueTake(a, i);
    ValueTake(b, i);
    Distribute(Pow(B, i), a[i], b[i]);
    ValueSet(r, i, i, n % B);
    ValueTake(r[i := n % B], i);
  }

  lemma {:induction false} AddedEnd(a: Limbs, b: Limbs, r: Limbs, carry: nat)
    requires Added(a, b, r, |a|, carry)
    ensures Value(r) == (Value(a) + Value(b)) % Pow(B, |a|)
  {
    ValueAll(a);
    ValueAll(b);
    ValueAll(r);
    ValueBound(r);
    ModIs(Value(r), carry, Pow(B, |a|), Value(a) + Value(b));
  }

  lemma {:induction false} Distribute(p: nat, x: nat, y: nat)
    ensures p * (x + y) == p * x + p * y
  {
  }

  /** `~`: all bits inverted. */
  method Complement(a: Limbs) returns (r: Limbs)
    requires LimbsOk(a)
    ensures LimbsOk(r) && |r| == |a| && Value(r) == Pow(B, |a|) - 1 - Value(a)
  {
    r := a;
    ValueAll(a);
    for i := 0 to |a|
      invariant LimbsOk(r) && |r| == |a| && (forall j :: i <= j < |a| ==> r[j] == a[j])
      invariant Value(r[..i]) + Value(a[..i]) + 1 == Pow(B, i)
    {
      ValueTake(a, i);
      ValueSet(r, i, i, B - 1 - a[i]);
      r := r[i := B - 1 - a[i]];
      ValueTake(r, i);
      ComplementStep(Pow(B, i), a[i], B);
    }
    ValueAll(r);
  }

  lemma {:induction false} ComplementStep(p: nat, x: nat, b: nat)
    requires x < b
    ensures p * (b - 1 - x) + p * x + p == b * p
  {
    assert p * (b - 1 - x) + p * x == p * (b - 1);
  }

  /** `++`: one more, modulo the size of the number. */
  method Increment(a: Limbs) returns (r: Limbs)
    requires LimbsOk(a)
    ensures LimbsOk(r) && |r| == |a| && Value(r) == (Value(a) + 1) % Pow(B, |a|)
  {
    r := a;
    var i := 0;
    ValueAll(a);
    while i < |r|
      invariant 0 <= i <= |r| == |a| && LimbsOk(r) && (forall j :: i <= j < |a| ==> r[j] == a[j])
      invariant Value(r[..i]) == 0 && Value(a[..i]) + 1 == Pow(B, i)
    {
      var x := if r[i] == B - 1 then 0 else r[i] + 1;
      ValueSet(r, i, i, x);
      r := r[i := x];
      if r[i] != 0 {
        IncrementDone(a, r, i);
        return;
      }
      IncrementFull(a, r, i);
      i := i + 1;
    }
    ValueAll(r);
    ModIs(0, 1, Pow(B, |a|), Value(a) + 1);
  }

  lemma {:induction false} IncrementFull(a: Limbs, r: Limbs, i: nat)
    requires i < |a| == |r| && a[i] == B - 1 && r[i] == 0 && Value(r[..i]) == 0 && Value(a[..i]) + 1 == Pow(B, i)
    ensures Value(r[..i + 1]) == 0 && Value(a[..i + 1]) + 1 == Pow(B, i + 1)
  {
    ValueTake(r, i);
    ValueTake(a, i);
    assert Pow(B, i) * (B - 1) + Pow(B, i) == B * Pow(B, i);
  }

  lemma {:induction false} IncrementDone(a: Limbs, r: Limbs, i: nat)
    requires LimbsOk(a) && LimbsOk(r) && i < |a| == |r| && r[i] == a[i] + 1 && forall j :: i < j < |a| ==> r[j] == a[j]
    requires Value(r[..i]) == 0 && Value(a[..i]) + 1 == Pow(B, i)
    ensures Value(r) == (Value(a) + 1) % Pow(B, |a|)
  {
    ValueTake(r, i);
    ValueTake(a, i);
    Distribute(Pow(B, i), a[i], 1);
    SameAbove(a, r, i + 1, |a|, 1);
    ValueAll(a);
    ValueAll(r);
    ValueBound(r);
    ModIs(Value(r), 0, Pow(B, |a|), Value(a) + 1);
  }

  /** Equal limbs from `i` on keep a difference of the values. */
  lemma {:induction false} SameAbove(a: Limbs, r: Limbs, i: nat, n: nat, d: int)
    requires i <= n <= |a| == |r| && (forall j :: i <= j < n ==> r[j] == a[j]) && Value(r[..i]) == Value(a[..i]) + d
    ensures Value(r[..n]) == Value(a[..n]) + d
    decreases n
  {
    if i < n {
      SameAbove(a, r, i, n - 1, d);
      ValueTake(a, n - 1);
      ValueTake(r, n - 1);
    }
  }

  /** Unary `-`. */
  method Negate(a: Limbs) returns (r: Limbs)
    requires LimbsOk(a)
    ensures LimbsOk(r) && |r| == |a| && Value(r) == (Pow(B, |a|) - Value(a)) % Pow(B, |a|)
  {
    r := Complement(a);
    r := Increment(r);
  }

  /** `-=`: the difference modulo the size of the number. */
  method Subtract(a: Limbs, b: Limbs) returns (r: Limbs)
    requires LimbsOk(a) && LimbsOk(b) && |a| == |b|
    ensures LimbsOk(r) && |r| == |a| && Value(r) == (Value(a) - Value(b)) % Pow(B, |a|)
    ensures Value(b) <= Value(a) ==> Value(r) == Value(a) - Value(b)
  {
    var n := Negate(b);
    r := Add(a, n);
    ValueBound(a);
    ValueBound(b);
    SubtractMod(Value(a), Value(b), Pow(B, |a|));
  }

  lemma {:induction false} AddModulus(d: int, m: int)
    requires m > 0
    ensures (d + m) % m == d % m
  {
    var q, r := d / m, d % m;
    assert d == m * q + r;
    assert d + m == (q + 1) * m + r;
    DivModUnique(d + m, m, q + 1, r);
  }

  lemma {:induction false} SmallMod(x: int, m: int)
    requires 0 <= x < m
    ensures x % m == x
  {
    DivModUnique(x, m, 0, x);
  }

  lemma {:induction false} SubtractMod(x: nat, y: nat, m: nat)
    requires x < m && y < m
    ensures (x + (m - y) % m) % m == (x - y) % m
    ensures y <= x ==> (x - y) % m == x - y
  {
    if y == 0 {
      AddModulus(0, m);
      SmallMod(0, m);
    } else {
      SmallMod(m - y, m);
      AddModulus(x - y, m);
    }
    if y <= x {
      SmallMod(x - y, m);
    }
  }

  /** `*=` with a 32-bit number. */
  method MultiplySmall(a: Limbs, b32: nat) returns (r: Limbs)
    requires LimbsOk(a) && b32 < B
    ensures LimbsOk(r) && |r| == |a| && Value(r) == (Value(a) * b32) % Pow(B, |a|)
  {
    r := a;
    var carry: nat := 0;
    for i := 0 to |a|
      invariant Multiplied(a, b32, r, i, carry)
    {
      SmallProduct(carry, 0, b32, a[i]);
      var n: nat := carry + b32 * r[i];
      assert n < UINT64;
      MultipliedStep(a, b32, r, i, carry, n);
      r := r[i := n % B];
      carry := n / B;
    }
    MultipliedEnd(a, b32, r, carry);
  }

  /** The product of the first `i` limbs is done, with a carry into the next one. */
  ghost predicate Multiplied(a: Limbs, b32: nat, r: Limbs, i: nat, carry: nat) {
    && LimbsOk(r) && i <= |a| == |r| && (forall j :: i <= j < |a| ==> r[j] == a[j]) && carry < B
    && Value(r[..i]) + carry * Pow(B, i) == Value(a[..i]) * b32
  }

  lemma {:induction false} MultipliedStep(a: Limbs, b32: nat, r: Limbs, i: nat, carry: nat, n: nat)
    requires Multiplied(a, b32, r, i, carry) && i < |a| && n == carry + b32 * a[i] && n / B < B
    ensures Multiplied(a, b32, r[i := n % B], i + 1, n / B)
  {
    SmallStep(a, b32, i, Value(r[..i]), carry, n);
    ValueSet(r, i, i, n % B);
    ValueTake(r[i := n % B], i);
  }

  lemma {:induction false} MultipliedEnd(a: Limbs, b32: nat, r: Limbs, carry: nat)
    requires Multiplied(a, b32, r, |a|, carry)
    ensures Value(r) == (Value(a) * b32) % Pow(B, |a|)
  {
    ValueAll(a);
    ValueAll(r);
    ValueBound(r);
    ModIs(Value(r), carry, Pow(B, |a|), Value(a) * b32);
  }

  lemma {:induction false} SmallStep(a: Limbs, b32: nat, i: nat, v: nat, c: nat, n: nat)
    requires i < |a| && v + c * Pow(B, i) == Value(a[..i]) * b32 && n == c + b32 * a[i]
    ensures v + Pow(B, i) * (n % B) + (n / B) * Pow(B, i + 1) == Value(a[..i + 1]) * b32
  {
    CarryStep(Pow(B, i), v, c, Value(a[..i]) * b32, n, b32 * a[i]);
    ValueTake(a, i);
    TimesSum(Value(a[..i]), Pow(B, i), a[i], b32);
  }

  lemma {:induction false} TimesSum(v: nat, p: nat, x: nat, y: nat)
    ensures (v + p * x) * y == v * y + p * (y * x)
  {
    assert (p * x) * y == p * (y * x);
  }

  /** A product of two limbs with two more limbs added fits 64 bits, and its upper half a limb. */
  lemma {:induction false} SmallProduct(carry: nat, limb: nat, x: nat, y: nat)
    requires carry < B && limb < B && x < B && y < B
    ensures 0 <= carry + limb + x * y < UINT64 && (carry + limb + x * y) / B < B
  {
    ProductBound(x, y, B);
    assert (B - 1) * (B - 1) + (B - 1) + (B - 1) == UINT64 - 1;
    var n := carry + limb + x * y;
    assert n < B * B;
    QuotientBelow(n, B, B);
  }

  lemma {:induction false} ProductBound(x: nat, y: nat, b: nat)
    requires x < b && y < b
    ensures x * y <= (b - 1) * (b - 1)
  {
    MulMono(x, y, b - 1);
    MulMono(b - 1, x, b - 1);
  }

  lemma {:induction false} QuotientBelow(n: nat, m: nat, q: nat)
    requires m > 0 && n < q * m
    ensures n / m < q
  {
    var k := n / m;
    assert n == m * k + n % m;
    assert k >= q ==> m * k >= m * q;
  }
}
