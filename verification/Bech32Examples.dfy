/** Strings of BIP 173 and BIP 350, and what they decode to. */
module Bech32Examples {
  import opened Basics
  import opened BaseDigits
  import opened Bech32Poly
  import opened Bech32Division
  import opened Bech32Chars
  import opened Bech32
  import opened Bech32Codec
  import opened Bech32Words

  // ---------- Remainders ----------

  lemma {:induction false} ShortRemainder(v: Values, k: Values)
    requires |v| == 9 && v[0] == 3 && v[1] == 0 && v[2] == 1 && v[3] == 31 && v[4] == 0 && v[5] == 9 && v[6] == 19 && v[7] == 17 && v[8] == 29
    requires |k| == 6 && RowIs(k, 29, 22, 20, 21, 29, 18)
    ensures IsRow(Row(21, 28, 16, 12, 5, 3), Remainder(v[..9], k))
  {
    TakeNone(v, k);
    TakeThree(v, 0, k, Row(0, 0, 0, 0, 0, 1), 3, Row(0, 0, 0, 0, 1, 3), 0, Row(0, 0, 0, 1, 3, 0), 1, Row(0, 0, 1, 3, 0, 1));
    TakeThree(v, 3, k, Row(0, 0, 1, 3, 0, 1), 31, Row(0, 1, 3, 0, 1, 31), 0, Row(1, 3, 0, 1, 31, 0), 9, Row(30, 22, 21, 10, 29, 27));
    TakeThree(v, 6, k, Row(30, 22, 21, 10, 29, 27), 19, Row(1, 15, 5, 12, 12, 10), 17, Row(18, 19, 24, 25, 23, 3), 29, Row(21, 28, 16, 12, 5, 3));
  }

  /** "abcdef" before the values. */
  ghost predicate AfterPrefix(v: Values) {
    |v| == 51 && (forall i :: 0 <= i < 6 ==> v[i] == 3) && v[6] == 0 && forall i :: 7 <= i < 13 ==> v[i] == i - 6
  }

  lemma {:induction false} PrefixRemainder(v: Values, k: Values)
    requires AfterPrefix(v) && |k| == 6 && RowIs(k, 29, 22, 20, 21, 29, 18)
    ensures IsRow(Row(19, 6, 12, 13, 13, 8), Remainder(v[..12], k))
  {
    TakeNone(v, k);
    TakeThree(v, 0, k, Row(0, 0, 0, 0, 0, 1), 3, Row(0, 0, 0, 0, 1, 3), 3, Row(0, 0, 0, 1, 3, 3), 3, Row(0, 0, 1, 3, 3, 3));
    TakeThree(v, 3, k, Row(0, 0, 1, 3, 3, 3), 3, Row(0, 1, 3, 3, 3, 3), 3, Row(1, 3, 3, 3, 3, 3), 3, Row(30, 21, 23, 22, 30, 17));
    TakeThree(v, 6, k, Row(30, 21, 23, 22, 30, 17), 0, Row(2, 13, 25, 15, 6, 25), 1, Row(30, 28, 14, 5, 10, 12), 2, Row(11, 20, 10, 27, 27, 27));
    TakeThree(v, 9, k, Row(11, 20, 10, 27, 27, 27), 3, Row(4, 13, 10, 1, 11, 1), 4, Row(2, 0, 3, 13, 14, 30), 5, Row(19, 6, 12, 13, 13, 8));
  }

  /** All values, the highest first, and their checksum. */
  ghost predicate Falling(v: Values) {
    && AfterPrefix(v) && (forall i :: 13 <= i < 45 ==> v[i] == 44 - i)
    && v[45] == 2 && v[46] == 13 && v[47] == 17 && v[48] == 3 && v[49] == 4 && v[50] == 6
  }

  lemma {:induction false} FallingStart(v: Values, k: Values)
    requires Falling(v) && |k| == 6 && RowIs(k, 29, 22, 20, 21, 29, 18)
    ensures IsRow(Row(16, 27, 8, 30, 27, 29), Remainder(v[..24], k))
  {
    PrefixRemainder(v, k);
    TakeThree(v, 12, k, Row(19, 6, 12, 13, 13, 8), 6, Row(29, 30, 16, 3, 19, 10), 31, Row(7, 25, 25, 20, 19, 25), 30, Row(24, 0, 3, 3, 24, 27));
    TakeThree(v, 15, k, Row(24, 0, 3, 3, 24, 27), 29, Row(11, 22, 15, 12, 16, 19), 28, Row(6, 8, 29, 10, 3, 30), 27, Row(20, 18, 9, 6, 2, 12));
    TakeThree(v, 18, k, Row(20, 18, 9, 6, 2, 12), 26, Row(8, 2, 12, 28, 22, 19), 25, Row(28, 24, 24, 26, 13, 4), 24, Row(28, 7, 20, 31, 0, 12));
    TakeThree(v, 21, k, Row(28, 7, 20, 31, 0, 12), 23, Row(3, 11, 17, 18, 8, 3), 22, Row(5, 2, 7, 30, 13, 9), 21, Row(16, 27, 8, 30, 27, 29));
  }

  lemma {:induction false} FallingMiddle(v: Values, k: Values)
    requires Falling(v) && |k| == 6 && RowIs(k, 29, 22, 20, 21, 29, 18)
    ensures IsRow(Row(1, 22, 22, 8, 5, 0), Remainder(v[..36], k))
  {
    FallingStart(v, k);
    TakeThree(v, 24, k, Row(16, 27, 8, 30, 27, 29), 20, Row(14, 9, 22, 3, 8, 7), 19, Row(11, 13, 4, 1, 5, 25), 18, Row(29, 3, 16, 31, 9, 16));
    TakeThree(v, 27, k, Row(29, 3, 16, 31, 9, 16), 17, Row(26, 25, 5, 14, 9, 23), 16, Row(1, 21, 3, 30, 15, 19), 15, Row(8, 21, 10, 26, 14, 29));
    TakeThree(v, 30, k, Row(8, 21, 10, 26, 14, 29), 14, Row(11, 30, 30, 2, 3, 19), 13, Row(14, 25, 19, 25, 3, 15), 12, Row(27, 8, 30, 10, 13, 6));
    TakeThree(v, 33, k, Row(27, 8, 30, 10, 13, 6), 11, Row(13, 24, 19, 15, 3, 26), 10, Row(20, 27, 29, 28, 22, 31), 9, Row(1, 22, 22, 8, 5, 0));
  }

  lemma {:induction false} FallingRemainder(v: Values, k: Values)
    requires Falling(v) && |k| == 6 && RowIs(k, 29, 22, 20, 21, 29, 18)
    ensures IsRow(Row(21, 28, 16, 12, 5, 3), Remainder(v[..51], k))
  {
    FallingMiddle(v, k);
    TakeThree(v, 36, k, Row(1, 22, 22, 8, 5, 0), 8, Row(11, 0, 28, 16, 29, 26), 7, Row(16, 27, 1, 7, 10, 5), 6, Row(14, 0, 15, 18, 16, 21));
    TakeThree(v, 39, k, Row(14, 0, 15, 18, 16, 21), 5, Row(2, 20, 21, 25, 23, 15), 4, Row(7, 16, 24, 20, 28, 9), 3, Row(17, 1, 3, 12, 8, 6));
    TakeThree(v, 42, k, Row(17, 1, 3, 12, 8, 6), 2, Row(9, 20, 16, 5, 14, 3), 1, Row(23, 18, 21, 23, 0, 14), 0, Row(6, 13, 8, 8, 26, 22));
    TakeThree(v, 45, k, Row(6, 13, 8, 8, 26, 22), 2, Row(17, 7, 11, 31, 10, 21), 13, Row(15, 28, 3, 7, 29, 12), 17, Row(3, 14, 20, 1, 19, 9));
    TakeThree(v, 48, k, Row(3, 14, 20, 1, 19, 9), 3, Row(0, 7, 20, 5, 7, 28), 4, Row(7, 20, 5, 7, 28, 4), 6, Row(21, 28, 16, 12, 5, 3));
  }

  /** All values, the lowest first, and their checksum. */
  ghost predicate Rising(v: Values) {
    && AfterPrefix(v) && (forall i :: 13 <= i < 45 ==> v[i] == i - 13)
    && v[45] == 27 && v[46] == 0 && v[47] == 0 && v[48] == 0 && v[49] == 6 && v[50] == 14
  }

  lemma {:induction false} RisingStart(v: Values, k: Values)
    requires Rising(v) && |k| == 6 && RowIs(k, 29, 22, 20, 21, 29, 18)
    ensures IsRow(Row(23, 3, 0, 6, 27, 2), Remainder(v[..24], k))
  {
    PrefixRemainder(v, k);
    TakeThree(v, 12, k, Row(19, 6, 12, 13, 13, 8), 6, Row(29, 30, 16, 3, 19, 10), 0, Row(7, 25, 25, 20, 19, 6), 1, Row(24, 0, 3, 3, 7, 4));
    TakeThree(v, 15, k, Row(24, 0, 3, 3, 7, 4), 2, Row(11, 22, 15, 19, 15, 12), 3, Row(6, 8, 2, 21, 28, 1), 4, Row(20, 13, 22, 25, 29, 19));
    TakeThree(v, 18, k, Row(20, 13, 22, 25, 29, 19), 5, Row(23, 29, 19, 3, 9, 12), 6, Row(9, 11, 28, 1, 24, 16), 7, Row(8, 30, 17, 1, 19, 8));
    TakeThree(v, 21, k, Row(8, 30, 17, 1, 19, 8), 8, Row(0, 5, 5, 31, 22, 21), 9, Row(5, 5, 31, 22, 21, 9), 10, Row(23, 3, 0, 6, 27, 2));
  }

  lemma {:induction false} RisingMiddle(v: Values, k: Values)
    requires Rising(v) && |k| == 6 && RowIs(k, 29, 22, 20, 21, 29, 18)
    ensures IsRow(Row(6, 8, 24, 27, 23, 27), Remainder(v[..36], k))
  {
    RisingStart(v, k);
    TakeThree(v, 24, k, Row(23, 3, 0, 6, 27, 2), 11, Row(23, 24, 25, 19, 22, 29), 12, Row(12, 1, 12, 30, 9, 26), 13, Row(16, 18, 24, 3, 11, 10));
    TakeThree(v, 27, k, Row(16, 18, 24, 3, 11, 10), 14, Row(7, 25, 11, 19, 31, 29), 15, Row(24, 18, 4, 15, 28, 10), 16, Row(25, 17, 3, 8, 1, 30));
    TakeThree(v, 30, k, Row(25, 17, 3, 8, 1, 30), 17, Row(7, 0, 16, 0, 8, 13), 18, Row(1, 9, 23, 24, 12, 23), 19, Row(20, 1, 12, 25, 10, 1));
    TakeThree(v, 33, k, Row(20, 1, 12, 25, 10, 1), 20, Row(27, 7, 19, 20, 27, 29), 21, Row(2, 21, 13, 25, 24, 4), 22, Row(6, 8, 24, 27, 23, 27));
  }

  lemma {:induction false} RisingRemainder(v: Values, k: Values)
    requires Rising(v) && |k| == 6 && RowIs(k, 29, 22, 20, 21, 29, 18)
    ensures IsRow(Row(0, 0, 0, 0, 0, 1), Remainder(v[..51], k))
  {
    RisingMiddle(v, k);
    TakeThree(v, 36, k, Row(6, 8, 24, 27, 23, 27), 23, Row(20, 23, 24, 18, 7, 0), 24, Row(13, 19, 24, 25, 26, 17), 25, Row(31, 16, 11, 5, 29, 12));
    TakeThree(v, 39, k, Row(31, 16, 11, 5, 29, 12), 26, Row(26, 7, 30, 25, 6, 17), 27, Row(31, 14, 20, 17, 9, 24), 28, Row(4, 24, 10, 13, 18, 23));
    TakeThree(v, 42, k, Row(4, 24, 10, 13, 18, 23), 29, Row(23, 0, 15, 20, 24, 7), 30, Row(20, 23, 11, 16, 19, 8), 31, Row(13, 0, 26, 13, 18, 22));
    TakeThree(v, 45, k, Row(13, 0, 26, 13, 18, 22), 27, Row(12, 18, 31, 13, 26, 14), 0, Row(3, 1, 11, 16, 31, 7), 0, Row(15, 24, 5, 9, 9, 31));
    TakeThree(v, 48, k, Row(15, 24, 5, 9, 9, 31), 0, Row(7, 8, 26, 21, 0, 24), 6, Row(9, 3, 2, 16, 25, 3), 14, Row(0, 0, 0, 0, 0, 1));
  }

  // ---------- Reading texts piece by piece ----------

  ghost predicate Plain(s: string) {
    Printable(s) && NoUpper(s, |s|)
  }

  /** A character of the encoding and its value. */
  ghost predicate StandsFor(c: char, d: nat) {
    CharsetValue(c) == d && 33 <= c as int <= 126 && !IsUpper(c)
  }

  ghost predicate PlainReads(t: string, w: Values) {
    Plain(t) && Reads(t, 0, w)
  }

  lemma {:induction false} EightRead(t: string, w: Values, c0: char, c1: char, c2: char, c3: char, c4: char, c5: char, c6: char, c7: char)
    requires t == [c0, c1, c2, c3, c4, c5, c6, c7] && |w| == 8
    requires StandsFor(c0, w[0]) && StandsFor(c1, w[1]) && StandsFor(c2, w[2]) && StandsFor(c3, w[3])
    requires StandsFor(c4, w[4]) && StandsFor(c5, w[5]) && StandsFor(c6, w[6]) && StandsFor(c7, w[7])
    ensures PlainReads(t, w)
  {
    forall i | 0 <= i < 8 ensures StandsFor(t[i], w[i]) && CharsetRev(t[i]) == w[i] {
      assert i == 0 || i == 1 || i == 2 || i == 3 || i == 4 || i == 5 || i == 6 || i == 7;
    }
  }

  lemma {:induction false} SixRead(t: string, w: Values, c0: char, c1: char, c2: char, c3: char, c4: char, c5: char)
    requires t == [c0, c1, c2, c3, c4, c5] && |w| == 6
    requires StandsFor(c0, w[0]) && StandsFor(c1, w[1]) && StandsFor(c2, w[2])
    requires StandsFor(c3, w[3]) && StandsFor(c4, w[4]) && StandsFor(c5, w[5])
    ensures PlainReads(t, w)
  {
    forall i | 0 <= i < 6 ensures StandsFor(t[i], w[i]) && CharsetRev(t[i]) == w[i] {
      assert i == 0 || i == 1 || i == 2 || i == 3 || i == 4 || i == 5;
    }
  }

  lemma {:induction false} JoinReads(s: string, v: Values, t: string, w: Values)
    requires PlainReads(s, v) && PlainReads(t, w)
    ensures PlainReads(s + t, v + w)
  {
    forall i | 0 <= i < |v + w| ensures CharsetRev((s + t)[0 + i]) == (v + w)[i] {
      if i < |v| {
        assert (s + t)[i] == s[0 + i];
      } else {
        assert (s + t)[i] == t[0 + (i - |v|)];
      }
    }
  }

  /** The other way round. */
  lemma {:induction false} EightBack(t: string, w: Values, u: string, x: Values)
    requires PlainReads(t, w) && |t| == |u| == |x| == 8 && (forall i :: 0 <= i < 8 ==> u[i] == t[7 - i]) && forall i :: 0 <= i < 8 ==> x[i] == w[7 - i]
    ensures PlainReads(u, x)
  {
    forall i | 0 <= i < 8 ensures CharsetRev(u[0 + i]) == x[i] && 33 <= u[i] as int <= 126 && !IsUpper(u[i]) {
      assert CharsetRev(t[0 + (7 - i)]) == w[7 - i];
    }
  }

  /** Eight values one after the other, from `d` on. */
  ghost function Up(d: nat): (w: Values)
    ensures |w| == 8 && forall i :: 0 <= i < 8 ==> w[i] == d + i
  {
    seq(8, i requires 0 <= i < 8 => d + i)
  }

  ghost function Down(d: nat): (w: Values)
    requires d >= 7
    ensures |w| == 8 && forall i :: 0 <= i < 8 ==> w[i] == d - i
  {
    seq(8, i requires 0 <= i < 8 => d - i)
  }

  lemma {:induction false} Piece0(t: string, u: string)
    requires t == "qpzry9x8" && u == "8x9yrzpq"
    ensures PlainReads(t, Up(0)) && PlainReads(u, Down(7))
  {
    EightRead(t, Up(0), 'q', 'p', 'z', 'r', 'y', '9', 'x', '8');
    EightBack(t, Up(0), u, Down(7));
  }

  lemma {:induction false} Piece1(t: string, u: string)
    requires t == "gf2tvdw0" && u == "0wdvt2fg"
    ensures PlainReads(t, Up(8)) && PlainReads(u, Down(15))
  {
    EightRead(t, Up(8), 'g', 'f', '2', 't', 'v', 'd', 'w', '0');
    EightBack(t, Up(8), u, Down(15));
  }

  lemma {:induction false} Piece2(t: string, u: string)
    requires t == "s3jn54kh" && u == "hk45nj3s"
    ensures PlainReads(t, Up(16)) && PlainReads(u, Down(23))
  {
    EightRead(t, Up(16), 's', '3', 'j', 'n', '5', '4', 'k', 'h');
    EightBack(t, Up(16), u, Down(23));
  }

  lemma {:induction false} Piece3(t: string, u: string)
    requires t == "ce6mua7l" && u == "l7aum6ec"
    ensures PlainReads(t, Up(24)) && PlainReads(u, Down(31))
  {
    EightRead(t, Up(24), 'c', 'e', '6', 'm', 'u', 'a', '7', 'l');
    EightBack(t, Up(24), u, Down(31));
  }

  /** The character set, in order. */
  ghost function Charset(): string {
    "qpzry9x8" + "gf2tvdw0" + "s3jn54kh" + "ce6mua7l"
  }

  ghost function Backward(): string {
    "l7aum6ec" + "hk45nj3s" + "0wdvt2fg" + "8x9yrzpq"
  }

  lemma {:induction false} AllRead()
    ensures PlainReads(Charset(), Up(0) + Up(8) + Up(16) + Up(24)) && PlainReads(Backward(), Down(31) + Down(23) + Down(15) + Down(7))
  {
    var t0, t1, t2, t3 := "qpzry9x8", "gf2tvdw0", "s3jn54kh", "ce6mua7l";
    var u0, u1, u2, u3 := "8x9yrzpq", "0wdvt2fg", "hk45nj3s", "l7aum6ec";
    Piece0(t0, u0);
    Piece1(t1, u1);
    Piece2(t2, u2);
    Piece3(t3, u3);
    FourRead(t0, t1, t2, t3, Up(0), Up(8), Up(16), Up(24));
    FourRead(u3, u2, u1, u0, Down(31), Down(23), Down(15), Down(7));
  }

  lemma {:induction false} FourRead(a: string, b: string, c: string, d: string, v: Values, w: Values, x: Values, y: Values)
    requires PlainReads(a, v) && PlainReads(b, w) && PlainReads(c, x) && PlainReads(d, y)
    ensures PlainReads(a + b + c + d, v + w + x + y)
  {
    JoinReads(a, v, b, w);
    JoinReads(a + b, v + w, c, x);
    JoinReads(a + b + c, v + w + x, d, y);
  }

  /** The character of a value is the one at its place of the character set. */
  lemma {:induction false} CharsetIs(d: nat)
    requires d < 32
    ensures |Charset()| == 32 && CharsetChar(d) == Charset()[d]
  {
    AllRead();
    var w := Up(0) + Up(8) + Up(16) + Up(24);
    assert CharsetRev(Charset()[0 + d]) == w[d] && w[d] == d;
    assert !IsUpper(Charset()[d]);
    CharsetUnique(Charset()[d]);
  }

  // ---------- Decoding ----------

  /** A text that is plain, with its human-readable part, reads as expected. */
  lemma {:induction false} Headed(hrp: string, t: string, v: Values, e: Encoding)
    requires Plain(hrp) && PlainReads(t, v) && Residue(hrp, v) == EncodingConstant(e)
    ensures IsBech32(hrp + "1" + t, e, hrp, v) && CharsOk(hrp + "1" + t)
  {
    var s := hrp + "1" + t;
    HeadedPlain(hrp, t, s);
    HeadedReads(hrp, t, v, s);
  }

  lemma {:induction false} HeadedReads(hrp: string, t: string, v: Values, s: string)
    requires Reads(t, 0, v) && s == hrp + "1" + t
    ensures Reads(s, |hrp| + 1, v)
  {
    forall i | 0 <= i < |v| ensures CharsetRev(s[|hrp| + 1 + i]) == v[i] {
      assert s[|hrp| + 1 + i] == t[0 + i];
    }
  }

  lemma {:induction false} HeadedPlain(hrp: string, t: string, s: string)
    requires Plain(hrp) && Plain(t) && s == hrp + "1" + t
    ensures Plain(s) && Begins(s, hrp)
  {
    assert forall i :: 0 <= i < |hrp| ==> s[i] == hrp[i];
    assert forall i :: |hrp| < i < |s| ==> s[i] == t[i - |hrp| - 1];
  }

  lemma {:induction false} Decoded(s: string, limit: nat, e: Encoding, hrp: string, v: Values)
    requires IsBech32(s, e, hrp, v) && CharsOk(s) && |s| <= limit && hrp != "" && |v| >= 6
    ensures Decodes(s, limit, DecodeResult(e, hrp, v[..|v| - 6]), v)
  {
  }

  lemma {:induction false} Concluded(s: string, limit: nat, e: Encoding, hrp: string, v: Values, r: Option<DecodeResult>, all: Values)
    requires IsBech32(s, e, hrp, v) && CharsOk(s) && |s| <= limit && hrp != "" && |v| >= 6
    requires (r.Some? ==> Decodes(s, limit, r.value, all)) && (r.None? ==> NotBech32(s, limit))
    ensures r == Some(DecodeResult(e, hrp, v[..|v| - 6]))
  {
    Decoded(s, limit, e, hrp, v);
    if r.Some? {
      SameReading(s, limit, e, hrp, v, r.value, all);
    }
  }

  /** The residue of a text, from its remainder. */
  lemma {:induction false} ResidueIs(hrp: string, values: Values, v: Values, k: Values, n: nat)
    requires SevenBit(hrp) && FiveBit(values) && v == Expanded(hrp) + values && k == K && |Remainder(v, k)| == 6
    requires var g := Remainder(v, k); n == ((((g[0] * 32 + g[1]) * 32 + g[2]) * 32 + g[3]) * 32 + g[4]) * 32 + g[5]
    ensures Residue(hrp, values) == n
  {
    ExpandedFiveBit(hrp);
    FoldIsRemainder(v, K);
    PackSix(Remainder(v, k), n);
  }

  lemma {:induction false} Prefixed(hrp: string, w: Values, v: Values)
    requires hrp == "abcdef" && |w| == 38 && v == Expanded(hrp) + w
    ensures SevenBit(hrp) && Plain(hrp) && AfterPrefix(v) && forall i :: 13 <= i < 51 ==> v[i] == w[i - 13]
  {
    forall i | 0 <= i < 6 ensures hrp[i] as int == 97 + i {
      assert i == 0 || i == 1 || i == 2 || i == 3 || i == 4 || i == 5;
    }
    forall i | 0 <= i < 6 ensures v[i] == 3 {
      assert v[i] == Upper(hrp)[i];
    }
    forall i | 7 <= i < 13 ensures v[i] == i - 6 {
      assert v[i] == Lower(hrp)[i - 7];
    }
  }

  ghost function Checksum(a: nat, b: nat, c: nat, d: nat, e: nat, f: nat): Values {
    [a, b, c, d, e, f]
  }

  /** All values from the highest to the lowest, and their checksum in the Bech32m encoding. */
  ghost function FallingValues(): (w: Values)
    ensures |w| == 38 && (forall i :: 0 <= i < 32 ==> w[i] == 31 - i) && FiveBit(w)
  {
    Down(31) + Down(23) + Down(15) + Down(7) + Checksum(2, 13, 17, 3, 4, 6)
  }

  /** All values from the lowest to the highest, and their checksum in the Bech32 encoding. */
  ghost function RisingValues(): (w: Values)
    ensures |w| == 38 && (forall i :: 0 <= i < 32 ==> w[i] == i) && FiveBit(w)
  {
    Up(0) + Up(8) + Up(16) + Up(24) + Checksum(27, 0, 0, 0, 6, 14)
  }

  lemma {:induction false} FallingResidue(hrp: string)
    requires hrp == "abcdef"
    ensures Plain(hrp) && Residue(hrp, FallingValues()) == EncodingConstant(BECH32M)
  {
    var w, k := FallingValues(), K;
    var v := Expanded(hrp) + w;
    Prefixed(hrp, w, v);
    FallingRemainder(v, k);
    assert v[..51] == v;
    ResidueIs(hrp, w, v, k, 0x2bc830a3);
  }

  lemma {:induction false} RisingResidue(hrp: string)
    requires hrp == "abcdef"
    ensures Plain(hrp) && Residue(hrp, RisingValues()) == EncodingConstant(BECH32)
  {
    var w, k := RisingValues(), K;
    var v := Expanded(hrp) + w;
    Prefixed(hrp, w, v);
    RisingRemainder(v, k);
    assert v[..51] == v;
    ResidueIs(hrp, w, v, k, 1);
  }

  /** "a" and the checksum. */
  ghost predicate Short(w: Values) {
    |w| == 6 && w[0] == 31 && w[1] == 0 && w[2] == 9 && w[3] == 19 && w[4] == 17 && w[5] == 29
  }

  lemma {:induction false} ShortPrefixed(hrp: string, w: Values, v: Values)
    requires hrp == "a" && Short(w) && v == Expanded(hrp) + w
    ensures SevenBit(hrp) && Plain(hrp) && FiveBit(w) && |v| == 9 && v[0] == 3 && v[1] == 0 && v[2] == 1
    ensures v[3] == 31 && v[4] == 0 && v[5] == 9 && v[6] == 19 && v[7] == 17 && v[8] == 29
  {
    assert v[0] == Upper(hrp)[0] && v[2] == Lower(hrp)[0];
    assert v[3] == w[0] && v[4] == w[1] && v[5] == w[2] && v[6] == w[3] && v[7] == w[4] && v[8] == w[5];
  }

  lemma {:induction false} ShortResidue(hrp: string, w: Values)
    requires hrp == "a" && Short(w)
    ensures Plain(hrp) && FiveBit(w) && Residue(hrp, w) == EncodingConstant(BECH32M)
  {
    var v, k := Expanded(hrp) + w, K;
    ShortPrefixed(hrp, w, v);
    ShortRemainder(v, k);
    assert v[..9] == v;
    ResidueIs(hrp, w, v, k, 0x2bc830a3);
  }

  lemma {:induction false} ShortText(hrp: string, t: string, w: Values)
    requires hrp == "a" && t == "lqfn3a" && Short(w)
    ensures IsBech32(hrp + "1" + t, BECH32M, hrp, w) && CharsOk(hrp + "1" + t) && FiveBit(w)
  {
    SixRead(t, w, 'l', 'q', 'f', 'n', '3', 'a');
    ShortResidue(hrp, w);
    Headed(hrp, t, w, BECH32M);
  }

  lemma {:induction false} ShortWritten(s: string, text: string)
    requires s == "a1lqfn3a" && |text| == |s| && forall i :: 0 <= i < |s| ==> text[i] == LowerCase(s[i])
    ensures text == s
  {
    forall i | 0 <= i < 8 ensures LowerCase(s[i]) == s[i] {
      assert i == 0 || i == 1 || i == 2 || i == 3 || i == 4 || i == 5 || i == 6 || i == 7;
    }
  }

  lemma {:induction false} SameShort(s: string, hrp: string, w: Values, text: string, all: Values)
    requires IsBech32(s, BECH32M, hrp, w) && IsBech32(text, BECH32M, hrp, all) && |w| == |all| == 6 && FiveBit(w) && FiveBit(all) && NoUpper(text, |text|)
    ensures |text| == |s| && forall i :: 0 <= i < |s| ==> text[i] == LowerCase(s[i])
  {
    assert w[..0] == all[..0];
    SameChecksum(hrp, w, all);
    SameText(s, text, hrp, all);
  }

  lemma {:induction false} ShortEncoded(hrp: string, t: string, w: Values, text: string, all: Values)
    requires hrp == "a" && t == "lqfn3a" && Short(w)
    requires IsBech32(text, BECH32M, hrp, all) && |all| == 6 && FiveBit(all) && NoUpper(text, |text|)
    ensures text == "a1lqfn3a"
  {
    var s := "a1lqfn3a";
    assert hrp + "1" + t == s;
    ShortText(hrp, t, w);
    SameShort(s, hrp, w, text, all);
    ShortWritten(s, text);
  }

  /** No data, in the Bech32m encoding. */
  method DecodeShort() returns (r: Option<DecodeResult>)
    ensures r == Some(DecodeResult(BECH32M, "a", []))
  {
    var hrp, t := "a", "lqfn3a";
    ghost var all;
    r, all := Decode(hrp + "1" + t, 90);
    ghost var w := Checksum(31, 0, 9, 19, 17, 29);
    ShortText(hrp, t, w);
    Concluded(hrp + "1" + t, 90, BECH32M, hrp, w, r, all);
  }

  /** The same in upper case. */
  method DecodeUpper() returns (r: Option<DecodeResult>)
    ensures r == Some(DecodeResult(BECH32M, "a", []))
  {
    var s := "A1LQFN3A";
    ghost var all;
    r, all := Decode(s, 90);
    ghost var w := Checksum(31, 0, 9, 19, 17, 29);
    UpperText(s, "a1lqfn3a", "a", "lqfn3a", w);
    Concluded(s, 90, BECH32M, "a", w, r, all);
  }

  lemma {:induction false} UpperText(s: string, u: string, hrp: string, t: string, w: Values)
    requires s == "A1LQFN3A" && u == "a1lqfn3a" && hrp == "a" && t == "lqfn3a" && Short(w)
    ensures IsBech32(s, BECH32M, hrp, w) && CharsOk(s)
  {
    assert hrp + "1" + t == u;
    ShortText(hrp, t, w);
    UpperLetters(s, u);
    SameRead(s, u, hrp, w);
  }

  lemma {:induction false} UpperLetters(s: string, u: string)
    requires s == "A1LQFN3A" && u == "a1lqfn3a"
    ensures CharsOk(s) && forall i :: 0 <= i < 8 ==> LowerCase(s[i]) == LowerCase(u[i])
  {
    forall i | 0 <= i < 8 ensures LowerCase(s[i]) == LowerCase(u[i]) && 33 <= s[i] as int <= 126 && !IsLower(s[i]) {
      assert i == 0 || i == 1 || i == 2 || i == 3 || i == 4 || i == 5 || i == 6 || i == 7;
    }
  }

  lemma {:induction false} SameRead(s: string, u: string, hrp: string, w: Values)
    requires |s| == |u| && (forall i :: 0 <= i < |s| ==> LowerCase(s[i]) == LowerCase(u[i])) && Begins(u, hrp) && Reads(u, |hrp| + 1, w)
    ensures s[|hrp|] == SEPARATOR ==> Begins(s, hrp) && Reads(s, |hrp| + 1, w)
  {
  }

  lemma {:induction false} FallingText(hrp: string, t: string, c: string)
    requires hrp == "abcdef" && t == Backward() && c == "zd3ryx"
    ensures IsBech32(hrp + "1" + (t + c), BECH32M, hrp, FallingValues()) && CharsOk(hrp + "1" + (t + c)) && |t + c| == 38
  {
    AllRead();
    var w := Checksum(2, 13, 17, 3, 4, 6);
    SixRead(c, w, 'z', 'd', '3', 'r', 'y', 'x');
    JoinReads(t, Down(31) + Down(23) + Down(15) + Down(7), c, w);
    FallingResidue(hrp);
    Headed(hrp, t + c, FallingValues(), BECH32M);
  }

  lemma {:induction false} RisingText(hrp: string, t: string, c: string)
    requires hrp == "abcdef" && t == Charset() && c == "mqqqxw"
    ensures IsBech32(hrp + "1" + (t + c), BECH32, hrp, RisingValues()) && CharsOk(hrp + "1" + (t + c)) && |t + c| == 38
  {
    AllRead();
    var w := Checksum(27, 0, 0, 0, 6, 14);
    SixRead(c, w, 'm', 'q', 'q', 'q', 'x', 'w');
    JoinReads(t, Up(0) + Up(8) + Up(16) + Up(24), c, w);
    RisingResidue(hrp);
    Headed(hrp, t + c, RisingValues(), BECH32);
  }

  /** All values from the highest to the lowest, in the Bech32m encoding. */
  method DecodeFalling() returns (r: Option<DecodeResult>)
    ensures r == Some(DecodeResult(BECH32M, "abcdef", seq(32, i => 31 - i)))
  {
    var hrp, t, c := "abcdef", "l7aum6ec" + "hk45nj3s" + "0wdvt2fg" + "8x9yrzpq", "zd3ryx";
    ghost var all;
    r, all := Decode(hrp + "1" + (t + c), 90);
    FallingText(hrp, t, c);
    Concluded(hrp + "1" + (t + c), 90, BECH32M, hrp, FallingValues(), r, all);
    assert FallingValues()[..32] == seq(32, i => 31 - i);
  }

  /** All values from the lowest to the highest, in the Bech32 encoding. */
  method DecodeRising() returns (r: Option<DecodeResult>)
    ensures r == Some(DecodeResult(BECH32, "abcdef", seq(32, i => i)))
  {
    var hrp, t, c := "abcdef", "qpzry9x8" + "gf2tvdw0" + "s3jn54kh" + "ce6mua7l", "mqqqxw";
    ghost var all;
    r, all := Decode(hrp + "1" + (t + c), 90);
    RisingText(hrp, t, c);
    Concluded(hrp + "1" + (t + c), 90, BECH32, hrp, RisingValues(), r, all);
    assert RisingValues()[..32] == seq(32, i => i);
  }

  /** Encoding gives the same texts: here the shortest one. */
  method EncodeShort() returns (text: string)
    ensures text == "a1lqfn3a"
  {
    var hrp, t := "a", "lqfn3a";
    ghost var all;
    text, all := Encode(BECH32M, hrp, []);
    ShortEncoded(hrp, t, Checksum(31, 0, 9, 19, 17, 29), text, all);
  }
}
