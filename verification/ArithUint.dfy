/**
 * Fixed-width unsigned numbers (`base_uint`), whose operators update the limbs in place, the compact encoding of
 * 256-bit numbers, and the work that a block stands for.
 */
module ArithUints {
  import opened LimbMath
  import opened LimbDivide
  import opened CompactBits
  import LimbArith
  import LimbMultiply
  import LimbShift

  /** The number of limbs of a 256-bit number. */
  const WIDTH: nat := 8

  class BaseUint {
    var pn: Limbs

    ghost predicate Valid()
      reads this
    {
      LimbsOk(pn) && |pn| >= 2
    }

    /** The number held. */
    ghost function Number(): nat
      reads this
    {
      Value(pn)
    }

    /** The number of values: every operation is modulo this. */
    ghost function Modulus(): nat
      reads this
    {
      Pow(B, |pn|)
    }

    constructor (width: nat, b: nat)
      requires width >= 2 && b < LimbArith.UINT64
      ensures Valid() && |pn| == width && Number() == b
    {
      pn := FromUint64(width, b);
    }

    /** A copy, as the binary operators make one. */
    constructor Copy(a: BaseUint)
      requires a.Valid()
      ensures Valid() && pn == a.pn
    {
      pn := a.pn;
    }

    method Invert()
      requires Valid()
      modifies this
      ensures Valid() && |pn| == old(|pn|) && Number() == Modulus() - 1 - old(Number())
    {
      pn := LimbArith.Complement(pn);
    }

    method AddAssign(b: BaseUint)
      requires Valid() && b.Valid() && |b.pn| == |pn|
      modifies this
      ensures Valid() && |pn| == old(|pn|) && Number() == (old(Number()) + old(b.Number())) % Modulus()
    {
      pn := LimbArith.Add(pn, b.pn);
    }

    /** Division; a zero divisor is reported, and leaves the number zero. */
    method DivideAssign(b: BaseUint) returns (ok: bool)
      requires Valid() && b.Valid() && |b.pn| == |pn|
      modifies this
      ensures Valid() && |pn| == old(|pn|) && (ok <==> old(b.Number()) > 0)
      ensures Number() == if ok then old(Number()) / old(b.Number()) else 0
    {
      var q := Divide(pn, b.pn);
      ok := q.Ok?;
      pn := if ok then q.value else LimbMultiply.Zeros(|pn|);
    }

    method EqualTo(b: nat) returns (equal: bool)
      requires Valid() && b < LimbArith.UINT64
      ensures equal <==> Number() == b
    {
      equal := EqualsUint64(pn, b);
    }

    /** Read a compact word: the number, modulo 2^256, and whether it is negative or too large. */
    method SetCompact(nCompact: nat) returns (negative: bool, overflow: bool)
      requires Valid() && |pn| == WIDTH && nCompact < B
      modifies this
      ensures Valid() && |pn| == WIDTH && Number() == CompactValue(nCompact) % Modulus()
      ensures overflow <==> CompactValue(nCompact) >= Modulus()
      ensures negative <==> CompactValue(nCompact) > 0 && SignBit(nCompact)
    {
      pn, negative, overflow := DecodeCompact(nCompact);
    }

    /** Write the number as a compact word: the only one of this sign that encodes it. */
    method GetCompact(fNegative: bool) returns (nCompact: nat)
      requires Valid() && |pn| == WIDTH
      ensures nCompact < B && IsCompactOf(nCompact, Number())
      ensures SignBit(nCompact) <==> fNegative && Mantissa(nCompact) > 0
    {
      nCompact := EncodeCompact(pn, fNegative);
    }
  }

  // ---------- Machine integers ----------

  function FromUint64(width: nat, b: nat): (l: Limbs)
    requires width >= 2 && b < LimbArith.UINT64
    ensures LimbsOk(l) && |l| == width && Value(l) == b
  {
    var l := [b % B, b / B] + LimbMultiply.Zeros(width - 2);
    TwoLimbs(l);
    LimbShift.ZeroAbove(l, 2, width);
    ValueAll(l);
    l
  }

  lemma {:induction false} TwoLimbs(l: Limbs)
    requires |l| >= 2
    ensures Value(l[..2]) == l[0] + B * l[1]
  {
    ValueAll(l);
    ValueTake(l, 0);
    ValueTake(l, 1);
  }

  /** The limbs beyond the second have to be zero, and the first two those of `b`. */
  method EqualsUint64(l: Limbs, b: nat) returns (equal: bool)
    requires LimbsOk(l) && |l| >= 2 && b < LimbArith.UINT64
    ensures equal <==> Value(l) == b
  {
    var i := |l| - 1;
    while i >= 2
      invariant 1 <= i < |l| && forall j :: i < j < |l| ==> l[j] == 0
    {
      if l[i] != 0 {
        AboveTwo(l, i);
        return false;
      }
      i := i - 1;
    }
    LimbShift.ZeroAbove(l, 2, |l|);
    ValueAll(l);
    TwoLimbs(l);
    DivModUnique(Value(l), B, l[1], l[0]);
    return l[1] == b / B && l[0] == b % B;
  }

  lemma {:induction false} AboveTwo(l: Limbs, i: nat)
    requires LimbsOk(l) && 2 <= i < |l| && l[i] != 0
    ensures Value(l) >= LimbArith.UINT64
  {
    PrefixAtMost(l, i + 1);
    ValueTake(l, i);
    LimbWeight(i);
    MulMono(Pow(B, i), 1, l[i]);
  }

  lemma {:induction false} PrefixAtMost(l: Limbs, n: nat)
    requires n <= |l|
    ensures Value(l[..n]) <= Value(l)
  {
    MulMono(Pow(B, n), 0, LimbMultiply.TopPart(l, n));
  }

  lemma {:induction false} LimbWeight(i: nat)
    requires i >= 2
    ensures Pow(B, i) >= LimbArith.UINT64
  {
    PowSum(B, 2, i - 2);
    assert Pow(B, 2) == LimbArith.UINT64;
    MulMono(LimbArith.UINT64, 1, Pow(B, i - 2));
  }

  method Low64(l: Limbs) returns (low: nat)
    requires LimbsOk(l) && |l| >= 2
    ensures low == Value(l) % LimbArith.UINT64
  {
    low := LimbShift.BitOr(l[0], l[1] * B);
    TwoLimbs(l);
    ghost var hi := LimbMultiply.TopPart(l, 2);
    LowOr(l[0], l[1]);
    assert Pow(B, 2) == LimbArith.UINT64;
    ModIs(l[0] + B * l[1], hi, LimbArith.UINT64, Value(l));
  }

  lemma {:induction false} LowOr(x: nat, y: nat)
    requires x < B && y < B
    ensures LimbShift.BitOr(x, y * B) == x + B * y < LimbArith.UINT64
  {
    LimbShift.TwoTo32();
    DivModUnique(y * B, B, y, 0);
    LimbShift.OrIsSum(32, x, y * B);
  }

  // ---------- The compact encoding ----------

  method DecodeCompact(nCompact: nat) returns (l: Limbs, negative: bool, overflow: bool)
    requires nCompact < B
    ensures LimbsOk(l) && |l| == WIDTH && Value(l) == CompactValue(nCompact) % Pow(B, WIDTH)
    ensures overflow <==> CompactValue(nCompact) >= Pow(B, WIDTH)
    ensures negative <==> CompactValue(nCompact) > 0 && SignBit(nCompact)
  {
    var nSize, nWord := nCompact / WORD, nCompact % SIGN;
    if nSize <= 3 {
      SmallValue(nWord, nSize);
      LimbShift.DivAtMost(nWord, Pow(2, 8 * (3 - nSize)));
      nWord := nWord / Pow(2, 8 * (3 - nSize));
      l := FromUint64(WIDTH, nWord);
      FitsWidth(nWord, WIDTH);
    } else {
      LargeValue(nWord, nSize);
      l := FromUint64(WIDTH, nWord);
      l := LimbShift.ShiftLeft(l, 8 * (nSize - 3));
      OverflowExactly(nWord, nSize, WIDTH);
      ZeroProduct(nWord, Pow(2, 8 * (nSize - 3)));
    }
    negative := nWord != 0 && (nCompact / SIGN) % 2 == 1;
    overflow := nWord != 0 && (nSize > 34 || (nWord > 0xff && nSize > 33) || (nWord > 0xffff && nSize > 32));
  }

  lemma {:induction false} FitsWidth(v: nat, width: nat)
    requires v < SIGN && width > 0
    ensures v < Pow(B, width) && v % Pow(B, width) == v
  {
    PowSum(B, 1, width - 1);
    assert Pow(B, 1) == B;
    MulMono(B, 1, Pow(B, width - 1));
    LimbArith.SmallMod(v, Pow(B, width));
  }

  method EncodeCompact(l: Limbs, fNegative: bool) returns (nCompact: nat)
    requires LimbsOk(l) && |l| == WIDTH
    ensures nCompact < B && IsCompactOf(nCompact, Value(l))
    ensures SignBit(nCompact) <==> fNegative && Mantissa(nCompact) > 0
  {
    var nSize, m := Leading(l);
    BitTest(m, SIGN);
    if (m / SIGN) % 2 == 1 {
      DropByte(Value(l), nSize, m);
      m := m / 256;
      nSize := nSize + 1;
    }
    assert m < SIGN && nSize < 256;
    nCompact := Assemble(m, nSize, fNegative);
  }

  /** Put the parts of a word together. */
  method Assemble(m: nat, nSize: nat, fNegative: bool) returns (nCompact: nat)
    requires m < SIGN && nSize < 256
    ensures nCompact < B && Mantissa(nCompact) == m && Size(nCompact) == nSize && (SignBit(nCompact) <==> fNegative && m > 0)
  {
    WordBits(m, nSize);
    WordParts(m, nSize, false);
    WordParts(m, nSize, true);
    nCompact := LimbShift.BitOr(m, nSize * WORD);
    nCompact := LimbShift.BitOr(nCompact, if fNegative && nCompact % SIGN != 0 then SIGN else 0);
  }

  /** The number of bytes of the number, and its three leading bytes. */
  method Leading(l: Limbs) returns (nSize: nat, m: nat)
    requires LimbsOk(l) && |l| == WIDTH
    ensures nSize <= 32 && m < WORD && (Value(l) > 0 ==> m >= 0x1_0000) && (Value(l) == 0 ==> nSize == 0)
    ensures m * Pow(256, nSize) <= Value(l) * WORD < (m + 1) * Pow(256, nSize)
  {
    var n := Bits(l);
    nSize := (n + 7) / 8;
    ByteLength(Value(l), n);
    if nSize <= 3 {
      var low := Low64(l);
      BytesMono(nSize, 3);
      ThreeBytes();
      LimbArith.SmallMod(Value(l), LimbArith.UINT64);
      MulMono(Pow(2, 8 * (3 - nSize)), 0, low);
      m := low * Pow(2, 8 * (3 - nSize));
      LeadingBytes(Value(l), nSize, m);
    } else {
      var bn := LimbShift.ShiftRight(l, 8 * (nSize - 3));
      LeadingBytes(Value(l), nSize, Value(bn));
      LimbArith.SmallMod(Value(bn), LimbArith.UINT64);
      m := Low64(bn);
    }
  }

  lemma {:induction false} ByteLength(v: nat, n: nat)
    requires n == 0 ==> v == 0
    requires n > 0 ==> Pow(2, n - 1) <= v < Pow(2, n)
    ensures v < Pow(256, (n + 7) / 8) && (v > 0 ==> n > 0 && v >= Pow(256, (n + 7) / 8 - 1)) && (v == 0 ==> n == 0)
  {
    var size := (n + 7) / 8;
    if n > 0 {
      PowGrows(2, n, 8 * size);
      PowGrows(2, 8 * (size - 1), n - 1);
      PowBytes(size);
      PowBytes(size - 1);
    }
  }

  /**
   * Decoding a word and encoding the number again gives the word back exactly if no digit of it was lost, its size is
   * the least possible, its number fits 256 bits, and zero carries no sign.
   */
  method Reencode(c: nat) returns (same: nat)
    requires c < B
    ensures same == c <==> Canonical(c) && CompactValue(c) < Pow(B, WIDTH) && (SignBit(c) ==> Mantissa(c) > 0)
  {
    var n := new BaseUint(WIDTH, 0);
    var negative, overflow := n.SetCompact(c);
    same := n.GetCompact(negative);
    CanonicalExactly(c);
    if CompactValue(c) < Pow(B, WIDTH) {
      LimbArith.SmallMod(CompactValue(c), Pow(B, WIDTH));
    }
    if same == c {
      NoMoreThan(c, CompactValue(c) % Pow(B, WIDTH));
    } else if IsCompactOf(c, CompactValue(c)) && CompactValue(c) < Pow(B, WIDTH) && SignBit(c) == SignBit(same) {
      CompactUnique(c, same, CompactValue(c));
    }
  }

  // ---------- The work of a block ----------

  /**
   * The expected number of hashes for a block: 2^256 over the target plus one, rounded down. A target that is
   * negative, zero or too large counts for nothing.
   */
  method GetBlockProof(nBits: nat) returns (proof: BaseUint)
    requires nBits < B
    ensures fresh(proof) && proof.Valid() && |proof.pn| == WIDTH
    ensures proof.Number() ==
            if SignBit(nBits) || CompactValue(nBits) == 0 || CompactValue(nBits) >= Pow(B, |proof.pn|) then 0
            else Pow(B, |proof.pn|) / (CompactValue(nBits) + 1)
  {
    var target := new BaseUint(WIDTH, 0);
    var negative, overflow := target.SetCompact(nBits);
    var zero := target.EqualTo(0);
    LimbArith.SmallMod(0, target.Modulus());
    if negative || overflow || zero {
      proof := new BaseUint(WIDTH, 0);
      return;
    }
    LimbArith.SmallMod(CompactValue(nBits), target.Modulus());
    TargetBelow(nBits, |target.pn|);
    proof := HashesFor(target);
  }

  /** 2^256 cannot be held, so its quotient is found as that of 2^256 - 1 - target, plus one. */
  method HashesFor(target: BaseUint) returns (proof: BaseUint)
    requires target.Valid() && 0 < target.Number() && target.Number() + 1 < target.Modulus()
    ensures fresh(proof) && proof.Valid() && |proof.pn| == |target.pn|
    ensures proof.Number() == target.Modulus() / (target.Number() + 1)
  {
    ghost var t, m := target.Number(), target.Modulus();
    proof := new BaseUint.Copy(target);
    proof.Invert();
    var one := new BaseUint(|target.pn|, 1);
    var divisor := new BaseUint.Copy(target);
    divisor.AddAssign(one);
    LimbArith.SmallMod(t + 1, m);
    var ok := proof.DivideAssign(divisor);
    proof.AddAssign(one);
    QuotientPlusOne(t, m);
  }

  lemma {:induction false} QuotientPlusOne(t: nat, m: nat)
    requires 0 < t && t + 1 < m
    ensures ((m - 1 - t) / (t + 1) + 1) % m == m / (t + 1)
  {
    LimbShift.AddMultiple(m - 1 - t, t + 1, 1);
    LimbArith.QuotientBelow(m, t + 1, m) by {
      MulMono(m, 2, t + 1);
    }
    LimbArith.SmallMod(m / (t + 1), m);
  }

  /** No compact word encodes the largest number, so adding one to a target does not overflow. */
  lemma {:induction false} TargetBelow(c: nat, width: nat)
    requires CompactValue(c) < Pow(B, width) && width > 0
    ensures CompactValue(c) + 1 < Pow(B, width)
  {
    var m, size := Mantissa(c), Size(c);
    if size <= 3 {
      SmallValue(m, size);
      LimbShift.DivAtMost(m, Pow(2, 8 * (3 - size)));
      FitsWidth(SIGN - 1, width);
    } else {
      LargeValue(m, size);
      EvenPower(m, 2, 8 * (size - 3));
      EvenPower(1, B, width);
    }
  }

  lemma {:induction false} EvenPower(m: nat, b: nat, n: nat)
    requires b % 2 == 0 && n > 0
    ensures (m * Pow(b, n)) % 2 == 0
  {
    var h := b / 2;
    assert m * (b * Pow(b, n - 1)) == 2 * (m * (h * Pow(b, n - 1))) by {
      assert m * ((2 * h) * Pow(b, n - 1)) == 2 * (m * (h * Pow(b, n - 1)));
    }
  }
}
