/** Encoding and decoding of Bech32 and Bech32m strings. */
module Bech32 {
  import opened Basics
  import opened LimbMath
  import opened BaseDigits
  import opened XorMath
  import opened Bech32Poly
  import opened Bech32Division
  import opened Bech32Chars

  datatype Encoding = BECH32 | BECH32M
  datatype DecodeResult = DecodeResult(encoding: Encoding, hrp: string, data: Values)

  const CHECKSUM_SIZE: nat := 6
  const SEPARATOR: char := '1'

  function EncodingConstant(e: Encoding): nat {
    if e == BECH32 then 1 else 0x2bc830a3
  }

  // ---------- The checksum ----------

  /** The upper bits of the human-readable part, a zero, and its lower bits. */
  ghost function Expanded(hrp: string): Values {
    Upper(hrp) + [0] + Lower(hrp)
  }

  ghost function Upper(hrp: string): (v: Values)
    ensures |v| == |hrp| && forall i :: 0 <= i < |v| ==> v[i] == hrp[i] as int / 32
  {
    if hrp == [] then [] else Upper(hrp[..|hrp| - 1]) + [hrp[|hrp| - 1] as int / 32]
  }

  ghost function Lower(hrp: string): (v: Values)
    ensures |v| == |hrp| && forall i :: 0 <= i < |v| ==> v[i] == hrp[i] as int % 32
  {
    if hrp == [] then [] else Lower(hrp[..|hrp| - 1]) + [hrp[|hrp| - 1] as int % 32]
  }

  ghost predicate SevenBit(hrp: string) {
    forall i :: 0 <= i < |hrp| ==> hrp[i] as int < 128
  }

  lemma {:induction false} ExpandedFiveBit(hrp: string)
    requires SevenBit(hrp)
    ensures FiveBit(Expanded(hrp))
  {
  }

  /** The remainder for a whole string: its human-readable part and its values. */
  ghost function Residue(hrp: string, values: Values): nat {
    Fold(1, Expanded(hrp) + values)
  }

  /** The remainder of the values, with a 1 in front, modulo g(x). */
  method PolyMod(v: Values) returns (c: nat)
    ensures c == Fold(1, v)
    ensures FiveBit(v) ==> c == BE(Remainder(v, K), 32) && Divided(Polynomial(v, 6), K, Quotient(v, K), Remainder(v, K))
  {
    c := 1;
    for i := 0 to |v|
      invariant c == Fold(1, v[..i])
    {
      assert v[..i + 1] == v[..i] + [v[i]];
      FoldOne(1, v[..i], v[i]);
      c := Step(c, v[i]);
    }
    assert v[..|v|] == v;
    if FiveBit(v) {
      FoldIsRemainder(v, K);
    }
  }

  /** The same, as far as the checksum of a string needs it. */
  method Folded(v: Values) returns (c: nat)
    ensures c == Fold(1, v)
  {
    c := PolyMod(v);
  }

  method PreparePolynomialCoefficients(hrp: string, values: Values) returns (ret: Values)
    ensures ret == Expanded(hrp) + values
  {
    ret := [];
    for i := 0 to |hrp|
      invariant |ret| == i && forall j :: 0 <= j < i ==> ret[j] == hrp[j] as int / 32
    {
      ret := ret + [hrp[i] as int / 32];
    }
    assert ret == Upper(hrp);
    var low: Values := [];
    for i := 0 to |hrp|
      invariant |low| == i && forall j :: 0 <= j < i ==> low[j] == hrp[j] as int % 32
    {
      low := low + [hrp[i] as int % 32];
    }
    assert low == Lower(hrp);
    ret := ret + [0] + low + values;
  }

  method VerifyChecksum(hrp: string, values: Values) returns (e: Option<Encoding>)
    ensures e.Some? ==> Residue(hrp, values) == EncodingConstant(e.value)
    ensures e.None? ==> forall f :: Residue(hrp, values) != EncodingConstant(f)
  {
    var enc := PreparePolynomialCoefficients(hrp, values);
    var check := Folded(enc);
    if check == EncodingConstant(BECH32) {
      return Some(BECH32);
    }
    if check == EncodingConstant(BECH32M) {
      return Some(BECH32M);
    }
    return None;
  }

  /** The six values that complete the list to a valid one; there are no others. */
  method CreateChecksum(e: Encoding, hrp: string, values: Values) returns (ret: Values)
    requires SevenBit(hrp) && FiveBit(values)
    ensures |ret| == CHECKSUM_SIZE && FiveBit(ret) && Residue(hrp, values + ret) == EncodingConstant(e)
  {
    var enc := PreparePolynomialCoefficients(hrp, values);
    var zeros: Values := [0, 0, 0, 0, 0, 0];
    var check := Folded(enc + zeros);
    ModBelow(hrp, values, zeros, e);
    ret := FiveBitGroups(Xor(check, EncodingConstant(e)));
    Completed(hrp, values, zeros, ret, EncodingConstant(e));
  }

  /** The 5-bit groups of a 30-bit number. */
  method FiveBitGroups(mod: nat) returns (ret: Values)
    requires mod < Pow(32, CHECKSUM_SIZE)
    ensures |ret| == CHECKSUM_SIZE && FiveBit(ret) && BE(ret, 32) == mod
  {
    ret := [];
    for i := 0 to CHECKSUM_SIZE
      invariant |ret| == i && forall j :: 0 <= j < i ==> ret[j] == mod / Pow(32, 5 - j) % 32
    {
      ret := ret + [mod / Pow(32, 5 - i) % 32];
    }
    PackDigits(mod, ret);
  }

  lemma {:induction false} ModBelow(hrp: string, values: Values, zeros: Values, e: Encoding)
    requires SevenBit(hrp) && FiveBit(values) && FiveBit(zeros)
    ensures Xor(Fold(1, Expanded(hrp) + values + zeros), EncodingConstant(e)) < Pow(32, CHECKSUM_SIZE)
  {
    ExpandedFiveBit(hrp);
    FoldBelow(1, Expanded(hrp) + values + zeros);
    PowLow();
    Pow32();
    XorBelow(30, WORD30, Fold(1, Expanded(hrp) + values + zeros), EncodingConstant(e));
  }

  /** The groups of five bits of a number, from the highest on. */
  lemma {:induction false} PackDigits(mod: nat, ret: Values)
    requires mod < Pow(32, |ret|) && forall j :: 0 <= j < |ret| ==> ret[j] == mod / Pow(32, |ret| - 1 - j) % 32
    ensures FiveBit(ret) && BE(ret, 32) == mod
    decreases |ret|
  {
    if ret != [] {
      var n := |ret| - 1;
      forall j | 0 <= j < n ensures ret[..n][j] == (mod / 32) / Pow(32, n - 1 - j) % 32 {
        DivTwice(mod, Pow(32, n - 1 - j));
      }
      PackDigits(mod / 32, ret[..n]);
      assert ret[n] == mod / Pow(32, 0) % 32;
    }
  }

  lemma {:induction false} DivTwice(x: nat, p: nat)
    requires p > 0
    ensures (x / 32) / p == x / (32 * p)
  {
    var q := x / 32;
    var d, r := q / p, q % p;
    assert q == p * d + r;
    assert x == (32 * p) * d + (32 * r + x % 32);
    assert 32 * r + x % 32 < 32 * p;
    DivModUnique(x, 32 * p, d, 32 * r + x % 32);
  }

  lemma {:induction false} Completed(hrp: string, values: Values, zeros: Values, ret: Values, k: nat)
    requires |zeros| == |ret| == 6 && (forall i :: 0 <= i < 6 ==> zeros[i] == 0) && FiveBit(ret)
    requires BE(ret, 32) == Xor(Fold(1, Expanded(hrp) + values + zeros), k)
    ensures Residue(hrp, values + ret) == k
  {
    FoldAppend(1, Expanded(hrp) + values, zeros);
    ResidueAppend(hrp, values, ret);
    CompletedFrom(Residue(hrp, values), zeros, ret, k);
  }

  lemma {:induction false} ResidueAppend(hrp: string, v: Values, w: Values)
    ensures Residue(hrp, v + w) == Fold(Residue(hrp, v), w)
  {
    FoldJoined(Expanded(hrp), v, w);
  }

  lemma {:induction false} FoldJoined(u: Values, v: Values, w: Values)
    ensures Fold(1, u + (v + w)) == Fold(Fold(1, u + v), w)
  {
    assert u + (v + w) == (u + v) + w;
    FoldAppend(1, u + v, w);
  }

  /** Putting the difference into six zeros changes the remainder to the wanted one. */
  lemma {:induction false} CompletedFrom(c: nat, zeros: Values, ret: Values, k: nat)
    requires |zeros| == |ret| == 6 && (forall i :: 0 <= i < 6 ==> zeros[i] == 0) && FiveBit(ret)
    requires BE(ret, 32) == Xor(Fold(c, zeros), k)
    ensures Fold(c, ret) == k
  {
    FoldLinear(c, 0, zeros, ret);
    XorComm(c, 0);
    XorWithZeros(zeros, ret);
    FoldPacks(ret);
    XorAssoc(Fold(c, zeros), Fold(c, zeros), k);
    XorSelf(Fold(c, zeros));
  }

  lemma {:induction false} XorWithZeros(zeros: Values, v: Values)
    requires |zeros| == |v| && forall i :: 0 <= i < |v| ==> zeros[i] == 0
    ensures XorSeq(zeros, v) == v
    decreases |v|
  {
    if v != [] {
      var n := |v| - 1;
      XorWithZeros(zeros[..n], v[..n]);
      assert v == v[..n] + [v[n]];
    }
  }

  /** No other six values complete the list. */
  lemma {:induction false} ChecksumUnique(hrp: string, values: Values, a: Values, b: Values)
    requires |a| == |b| <= 6 && FiveBit(a) && FiveBit(b) && Residue(hrp, values + a) == Residue(hrp, values + b)
    ensures a == b
  {
    ResidueAppend(hrp, values, a);
    ResidueAppend(hrp, values, b);
    SixInjective(Residue(hrp, values), a, b);
  }

  /** A change of values within a window of six is always noticed: the string is not valid for the same encoding. */
  lemma {:induction false} ChangeDetected(hrp: string, before: Values, a: Values, b: Values, after: Values, e: Encoding)
    requires SevenBit(hrp) && FiveBit(before) && FiveBit(a) && FiveBit(b) && FiveBit(after) && |a| == |b| <= 6 && a != b
    requires Residue(hrp, before + a + after) == EncodingConstant(e)
    ensures Residue(hrp, before + b + after) != EncodingConstant(e)
  {
    ResidueBelow(hrp, before);
    ResidueAppend(hrp, before, a);
    ResidueAppend(hrp, before, b);
    ResidueAppend(hrp, before + a, after);
    ResidueAppend(hrp, before + b, after);
    if Residue(hrp, before + a + after) == Residue(hrp, before + b + after) {
      BurstDetected(Residue(hrp, before), a, b, after);
    }
  }

  lemma {:induction false} ResidueBelow(hrp: string, values: Values)
    requires SevenBit(hrp) && FiveBit(values)
    ensures Residue(hrp, values) < WORD30
  {
    ExpandedFiveBit(hrp);
    FoldBelow(1, Expanded(hrp) + values);
  }
}
