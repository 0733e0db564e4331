/** The base-58 codec (`EncodeBase58` and `DecodeBase58`). */
module Base58 {
  import opened Basics
  import opened LimbMath
  import opened BaseDigits
  import opened Base58Digits

  type Bytes = seq<nat>

  // ---------- What a text stands for ----------

  ghost function Digit(c: char): (d: nat)
    ensures d < 58
  {
    if MapBase58(c) < 0 then 0 else MapBase58(c)
  }

  /** The characters from `l` to `r` are all of the alphabet. */
  ghost predicate AllBase58(s: string, l: nat, r: nat) {
    l <= r <= |s| && forall i :: l <= i < r ==> MapBase58(s[i]) >= 0
  }

  /** The number written from `l` to `r`. */
  ghost function TextNumber(s: string, l: nat, r: nat): nat
    requires l <= r <= |s|
    decreases r
  {
    if l == r then 0 else TextNumber(s, l, r - 1) * 58 + Digit(s[r - 1])
  }

  /** The characters from `l` to `r` begin with exactly `n` ones. */
  ghost predicate Ones(s: string, l: nat, r: nat, n: nat) {
    l + n <= r <= |s| && (forall i :: l <= i < l + n ==> s[i] == '1') && (l + n < r ==> s[l + n] != '1')
  }

  /** The text stands for the bytes: as many leading ones as leading zero bytes, and the same number. */
  ghost predicate IsBase58Of(s: string, l: nat, r: nat, bytes: Bytes) {
    && AllBase58(s, l, r) && DigitsOk(bytes, 256)
    && Ones(s, l, r, Leading(bytes, 0)) && TextNumber(s, l, r) == BE(bytes, 256)
  }

  // ---------- One text for each byte string ----------

  lemma {:induction false} OneByteString(s: string, l: nat, r: nat, x: Bytes, y: Bytes)
    requires IsBase58Of(s, l, r, x) && IsBase58Of(s, l, r, y)
    ensures x == y
  {
    UniqueWithZeros(x, y, 256);
  }

  lemma {:induction false} OneText(s: string, t: string, l: nat, r: nat, bytes: Bytes)
    requires IsBase58Of(s, 0, |s|, bytes) && IsBase58Of(t, l, r, bytes)
    ensures s == t[l..r]
  {
    var z, x, y := Leading(bytes, 0), DigitsOf(s, 0, |s|), DigitsOf(t, l, r);
    DigitsNumber(s, 0, |s|);
    DigitsNumber(t, l, r);
    DigitsAt(s, 0, |s|);
    DigitsAt(t, l, r);
    OnesAreZeros(s, 0, |s|, z);
    OnesAreZeros(t, l, r, z);
    UniqueWithZeros(x, y, 58);
    SameCharacters(s, t, l, r);
  }

  lemma {:induction false} SameCharacters(s: string, t: string, l: nat, r: nat)
    requires AllBase58(s, 0, |s|) && AllBase58(t, l, r) && DigitsOf(s, 0, |s|) == DigitsOf(t, l, r)
    ensures s == t[l..r]
  {
    DigitsAt(s, 0, |s|);
    DigitsAt(t, l, r);
    var x := DigitsOf(s, 0, |s|);
    forall i | 0 <= i < |s| ensures s[i] == t[l + i] {
      assert x[i] == Digit(s[0 + i]) && x[i] == Digit(t[l + i]);
      AlphabetInverse(x[i], s[i]);
      AlphabetInverse(x[i], t[l + i]);
    }
  }

  ghost function DigitsOf(s: string, l: nat, r: nat): (d: seq<nat>)
    requires l <= r <= |s|
    ensures |d| == r - l
    decreases r
  {
    if l == r then [] else DigitsOf(s, l, r - 1) + [Digit(s[r - 1])]
  }

  lemma {:induction false} DigitsAt(s: string, l: nat, r: nat)
    requires l <= r <= |s|
    ensures var d := DigitsOf(s, l, r); (forall i :: 0 <= i < |d| ==> d[i] == Digit(s[l + i])) && DigitsOk(d, 58)
    decreases r
  {
    if l < r {
      DigitsAt(s, l, r - 1);
    }
  }

  lemma {:induction false} DigitsNumber(s: string, l: nat, r: nat)
    requires l <= r <= |s|
    ensures BE(DigitsOf(s, l, r), 58) == TextNumber(s, l, r)
    decreases r
  {
    if l < r {
      DigitsNumber(s, l, r - 1);
      AppendBE(DigitsOf(s, l, r - 1), Digit(s[r - 1]), 58);
    }
  }

  lemma {:induction false} OnesAreZeros(s: string, l: nat, r: nat, n: nat)
    requires AllBase58(s, l, r) && Ones(s, l, r, n)
    ensures Leading(DigitsOf(s, l, r), 0) == n
  {
    var d := DigitsOf(s, l, r);
    DigitsAt(s, l, r);
    forall i | 0 <= i < |d| ensures s[l + i] == '1' <==> d[i] == 0 {
      AlphabetInverse(0, s[l + i]);
    }
    LeadingIs(d, 0, n);
  }

  lemma {:induction false} LeadingIs<T>(s: seq<T>, c: T, n: nat)
    requires n <= |s| && (forall i :: 0 <= i < n ==> s[i] == c) && (n < |s| ==> s[n] != c)
    ensures Leading(s, c) == n
    decreases n
  {
    if n > 0 {
      LeadingIs(s[1..], c, n - 1);
    }
  }

  // ---------- Encoding ----------

  method EncodeBase58(input: Bytes) returns (str: string)
    requires DigitsOk(input, 256)
    ensures IsBase58Of(str, 0, |str|, input)
  {
    var zeroes := 0;
    while zeroes < |input| && input[zeroes] == 0
      invariant zeroes <= |input| && forall i :: 0 <= i < zeroes ==> input[i] == 0
    {
      zeroes := zeroes + 1;
    }
    var rest := input[zeroes..];
    var b58, length := ToBase58(rest);
    var it := length;
    while it > 0 && b58[it - 1] == 0
      invariant 0 <= it <= length && forall i :: it <= i < length ==> b58[i] == 0
    {
      it := it - 1;
    }
    ZeroTop(b58, 58, it, length);
    ghost var top := it;
    str := seq(zeroes, _ => '1');
    while it > 0
      invariant 0 <= it <= top && |str| == zeroes + top - it
      invariant forall i :: 0 <= i < zeroes ==> str[i] == '1'
      invariant forall i :: it <= i < top ==> str[zeroes + top - 1 - i] == Base58Char(b58[i])
    {
      it := it - 1;
      str := str + [Base58Char(b58[it])];
    }
    Encoded(input, zeroes, b58[..top], str);
  }

  /** The loop over the bytes: the buffer is multiplied by 256 for each. */
  method ToBase58(rest: Bytes) returns (b58: seq<nat>, length: nat)
    requires DigitsOk(rest, 256)
    ensures DigitsOk(b58, 58) && length <= |b58| && LE(b58[..length], 58) == BE(rest, 256)
  {
    var size := |rest| * 138 / 100 + 1;
    b58, length := seq(size, _ => 0), 0;
    EncodeFits(|rest|);
    for j := 0 to |rest|
      invariant |b58| == size && Holds(b58, length, 58) && LE(b58[..length], 58) == BE(rest[..j], 256)
    {
      NextFits(rest, 256, j, Pow(58, size));
      b58, length := MultiplyAdd(b58, length, rest[j], 256, 58);
    }
    assert rest[..|rest|] == rest;
  }

  /** Each prefix of the input is a number below the capacity of the buffer. */
  lemma {:induction false} NextFits(s: seq<nat>, b: nat, j: nat, limit: nat)
    requires b > 0 && DigitsOk(s, b) && j < |s| && Pow(b, |s|) <= limit
    ensures BE(s[..j + 1], b) == BE(s[..j], b) * b + s[j] < limit
  {
    TakeBE(s, b, j);
    BoundBE(s[..j + 1], b);
    PowGrows(b, j + 1, |s|);
  }

  lemma {:induction false} Encoded(input: Bytes, zeroes: nat, d: seq<nat>, str: string)
    requires zeroes <= |input| && DigitsOk(input, 256) && (forall i :: 0 <= i < zeroes ==> input[i] == 0)
    requires (zeroes < |input| ==> input[zeroes] != 0) && DigitsOk(d, 58) && LE(d, 58) == BE(input[zeroes..], 256)
    requires |str| == zeroes + |d| && (|d| > 0 ==> d[|d| - 1] != 0) && (forall i :: 0 <= i < zeroes ==> str[i] == '1')
    requires forall i :: 0 <= i < |d| ==> str[zeroes + |d| - 1 - i] == Base58Char(d[i])
    ensures IsBase58Of(str, 0, |str|, input)
  {
    EncodedDigits(zeroes, d, str);
    EncodedOnes(zeroes, d, str);
    LeadingIs(input, 0, zeroes);
    EncodedNumber(zeroes, d, str);
    SkipZeros(input, 256, zeroes);
  }

  lemma {:induction false} EncodedNumber(zeroes: nat, d: seq<nat>, str: string)
    requires |str| == zeroes + |d|
    requires forall i :: 0 <= i < |str| ==> MapBase58(str[i]) == if i < zeroes then 0 else Reversed(d)[i - zeroes]
    ensures TextNumber(str, 0, |str|) == LE(d, 58)
  {
    DigitsAt(str, 0, |str|);
    SameNumber(DigitsOf(str, 0, |str|), zeroes, d, 58);
    DigitsNumber(str, 0, |str|);
  }

  lemma {:induction false} EncodedDigits(zeroes: nat, d: seq<nat>, str: string)
    requires DigitsOk(d, 58) && |str| == zeroes + |d| && (forall i :: 0 <= i < zeroes ==> str[i] == '1')
    requires forall i :: 0 <= i < |d| ==> str[zeroes + |d| - 1 - i] == Base58Char(d[i])
    ensures forall i :: 0 <= i < |str| ==> MapBase58(str[i]) == if i < zeroes then 0 else Reversed(d)[i - zeroes]
  {
    forall i | 0 <= i < |str|
      ensures MapBase58(str[i]) == if i < zeroes then 0 else Reversed(d)[i - zeroes]
    {
      if i < zeroes {
        AlphabetInverse(0, str[i]);
      } else {
        var k := zeroes + |d| - 1 - i;
        AlphabetInverse(d[k], str[zeroes + |d| - 1 - k]);
      }
    }
  }

  lemma {:induction false} EncodedOnes(zeroes: nat, d: seq<nat>, str: string)
    requires DigitsOk(d, 58) && |str| == zeroes + |d| && (forall i :: 0 <= i < zeroes ==> str[i] == '1')
    requires (|d| > 0 ==> d[|d| - 1] != 0) && forall i :: 0 <= i < |d| ==> str[zeroes + |d| - 1 - i] == Base58Char(d[i])
    ensures Ones(str, 0, |str|, zeroes)
  {
    if |d| > 0 {
      var k := |d| - 1;
      assert str[zeroes + |d| - 1 - k] == Base58Char(d[k]);
    }
  }

  /** Zeros followed by the digits of a buffer read backwards. */
  lemma {:induction false} SameNumber(s: seq<nat>, z: nat, d: seq<nat>, b: nat)
    requires |s| == z + |d| && forall i :: 0 <= i < |s| ==> s[i] == if i < z then 0 else Reversed(d)[i - z]
    ensures BE(s, b) == LE(d, b)
  {
    SkipZeros(s, b, z);
    assert s[z..] == Reversed(d);
    ReversedBE(d, b);
  }

  // ---------- Decoding ----------

  predicate IsSpace(c: char) {
    c == ' ' || c == '\U{0c}' || c == '\n' || c == '\r' || c == '\t' || c == '\U{0b}'
  }

  /** Space are the blank, and the characters from the tabulator to the carriage return. */
  lemma {:induction false} SpacesAre(c: char)
    ensures IsSpace(c) <==> c as int == 32 || 9 <= c as int <= 13
  {
  }

  /** Everything outside of `[l, r)` is space. */
  ghost predicate SpacesAround(str: string, l: nat, r: nat) {
    l <= r <= |str| && (forall i :: 0 <= i < l ==> IsSpace(str[i])) && (forall i :: r <= i < |str| ==> IsSpace(str[i]))
  }

  predicate WithinLimit(bytes: Bytes, maxRetLen: int) {
    |bytes| == 0 || |bytes| <= maxRetLen
  }

  /** The text without the space around it stands for the bytes, and they are within the limit. */
  ghost predicate Decodes(str: string, l: nat, r: nat, bytes: Bytes, maxRetLen: int) {
    SpacesAround(str, l, r) && IsBase58Of(str, l, r, bytes) && WithinLimit(bytes, maxRetLen)
  }

  ghost predicate NotBase58(str: string, maxRetLen: int) {
    forall l: nat, r: nat, bytes {:trigger Decodes(str, l, r, bytes, maxRetLen)} :: !Decodes(str, l, r, bytes, maxRetLen)
  }

  method SkipSpaces(str: string, start: nat) returns (p: nat)
    requires start <= |str|
    ensures start <= p <= |str| && (forall i :: start <= i < p ==> IsSpace(str[i])) && (p < |str| ==> !IsSpace(str[p]))
  {
    p := start;
    while p < |str| && IsSpace(str[p])
      invariant start <= p <= |str| && forall i :: start <= i < p ==> IsSpace(str[i])
    {
      p := p + 1;
    }
  }

  /** The bytes that the text stands for, ignoring space around it; none if there are none, or too many. */
  method DecodeBase58(str: string, maxRetLen: int) returns (res: Option<Bytes>, ghost l: nat, ghost r: nat)
    ensures res.Some? ==> Decodes(str, l, r, res.value, maxRetLen)
    ensures res.None? ==> NotBase58(str, maxRetLen)
  {
    l, r := 0, 0;
    if '\0' in str {
      ghost var k :| 0 <= k < |str| && str[k] == '\0';
      BadChar(str, k, maxRetLen);
      return None, 0, 0;
    }
    var p := SkipSpaces(str, 0);
    l := p;
    var zeroes := 0;
    while p < |str| && str[p] == '1'
      invariant l <= p <= |str| && p == l + zeroes && (forall i :: l <= i < p ==> str[i] == '1')
      invariant zeroes == 0 || zeroes <= maxRetLen
    {
      zeroes := zeroes + 1;
      if zeroes > maxRetLen {
        TooManyOnes(str, l, zeroes, maxRetLen);
        return None, 0, 0;
      }
      p := p + 1;
    }
    res, r := DecodeRest(str, p, zeroes, maxRetLen);
  }

  /** What is known once the leading ones have been counted. */
  ghost predicate OnesCounted(str: string, l: nat, zeroes: nat, maxRetLen: int) {
    && (forall i :: 0 <= i < l && i < |str| ==> IsSpace(str[i])) && (l < |str| ==> !IsSpace(str[l])) && Ones(str, l, |str|, zeroes)
    && (zeroes == 0 || zeroes <= maxRetLen)
  }

  /** Everything after the leading ones. */
  method DecodeRest(str: string, start: nat, zeroes: nat, maxRetLen: int) returns (res: Option<Bytes>, ghost r: nat)
    requires zeroes <= start && OnesCounted(str, start - zeroes, zeroes, maxRetLen)
    ensures res.Some? ==> Decodes(str, start - zeroes, r, res.value, maxRetLen)
    ensures res.None? ==> NotBase58(str, maxRetLen)
  {
    var ok, b256, length, p := FromBase58(str, start, zeroes, maxRetLen);
    r := p;
    if !ok {
      return None, 0;
    }
    p := SkipSpaces(str, p);
    if p != |str| {
      SpaceInside(str, start - zeroes, r, p, maxRetLen);
      return None, 0;
    }
    res := Some(seq(zeroes, _ => 0) + Reversed(b256[..length]));
    Decoded(str, start - zeroes, r, zeroes, b256[..length], res.value);
  }

  /** The loop over the characters: the buffer is multiplied by 58 for each. */
  method FromBase58(str: string, start: nat, zeroes: nat, maxRetLen: int)
    returns (ok: bool, b256: seq<nat>, length: nat, p: nat)
    requires zeroes <= start && OnesCounted(str, start - zeroes, zeroes, maxRetLen)
    ensures ok ==> Holds(b256, length, 256) && (length + zeroes == 0 || length + zeroes <= maxRetLen)
    ensures ok ==> start <= p <= |str| && (p < |str| ==> IsSpace(str[p])) && AllBase58(str, start, p)
    ensures ok ==> LE(b256[..length], 256) == TextNumber(str, start, p)
    ensures !ok ==> NotBase58(str, maxRetLen)
  {
    var size := (|str| - start) * 733 / 1000 + 1;
    b256, length, p := seq(size, _ => 0), 0, start;
    DecodeFits(|str| - start);
    while p < |str| && !IsSpace(str[p])
      invariant start <= p <= |str| && AllBase58(str, start, p) && |b256| == size && Holds(b256, length, 256)
      invariant LE(b256[..length], 256) == TextNumber(str, start, p)
      invariant length + zeroes == 0 || length + zeroes <= maxRetLen
    {
      ok, b256, length := PushChar(str, start, p, zeroes, maxRetLen, b256, length);
      if !ok {
        return;
      }
      p := p + 1;
    }
    ok := true;
  }

  /** Multiply the buffer by 58, and add the next digit. */
  method PushChar(str: string, start: nat, p: nat, zeroes: nat, maxRetLen: int, buf: seq<nat>, n: nat)
    returns (ok: bool, b256: seq<nat>, length: nat)
    requires zeroes <= start <= p < |str| && OnesCounted(str, start - zeroes, zeroes, maxRetLen) && !IsSpace(str[p])
    requires AllBase58(str, start, p) && Holds(buf, n, 256) && LE(buf[..n], 256) == TextNumber(str, start, p)
    requires Pow(58, |str| - start) <= Pow(256, |buf|)
    ensures ok ==> Holds(b256, length, 256) && |b256| == |buf| && length + zeroes <= maxRetLen
    ensures ok ==> AllBase58(str, start, p + 1) && LE(b256[..length], 256) == TextNumber(str, start, p + 1)
    ensures !ok ==> NotBase58(str, maxRetLen)
  {
    ok, b256, length := false, buf, n;
    var carry := MapBase58(str[p]);
    if carry == -1 {
      BadChar(str, p, maxRetLen);
      return;
    }
    NumberBound(str, start, p + 1, Pow(256, |buf|));
    b256, length := MultiplyAdd(buf, n, carry, 58, 256);
    ok := length + zeroes <= maxRetLen;
    if !ok {
      FirstDigit(str, start, p);
      assert b256[..0] == [];
      TooLong(str, start, zeroes, p, b256[..length], maxRetLen);
    }
  }

  /** The number of any part of the text is below the capacity of the buffer. */
  lemma {:induction false} NumberBound(str: string, l: nat, r: nat, limit: nat)
    requires l <= r <= |str| && Pow(58, |str| - l) <= limit
    ensures TextNumber(str, l, r) < limit
  {
    DigitsNumber(str, l, r);
    DigitsAt(str, l, r);
    BoundBE(DigitsOf(str, l, r), 58);
    PowGrows(58, r - l, |str| - l);
  }

  /** The first character after the ones is not a zero digit, so the number is positive. */
  lemma {:induction false} FirstDigit(str: string, start: nat, p: nat)
    requires start <= p < |str| && AllBase58(str, start, p + 1) && str[start] != '1'
    ensures TextNumber(str, start, p + 1) > 0
  {
    DigitsNumber(str, start, p + 1);
    DigitsAt(str, start, p + 1);
    AlphabetInverse(0, str[start]);
    AtLeastBE(DigitsOf(str, start, p + 1), 58);
  }

  /** Leading ones do not change the number. */
  lemma {:induction false} OnesNoValue(str: string, l: nat, start: nat, p: nat)
    requires l <= start <= p <= |str| && AllBase58(str, start, p) && forall i :: l <= i < start ==> str[i] == '1'
    ensures AllBase58(str, l, p) && TextNumber(str, l, p) == TextNumber(str, start, p)
    decreases p
  {
    AlphabetInverse(0, '1');
    if start < p {
      OnesNoValue(str, l, start, p - 1);
    } else if l < p {
      OnesNoValue(str, l, p - 1, p - 1);
    }
  }

  lemma {:induction false} Decoded(str: string, l: nat, r: nat, zeroes: nat, d: seq<nat>, bytes: Bytes)
    requires l + zeroes <= r <= |str| && Ones(str, l, |str|, zeroes) && AllBase58(str, l + zeroes, r)
    requires DigitsOk(d, 256) && (|d| > 0 ==> d[|d| - 1] != 0) && LE(d, 256) == TextNumber(str, l + zeroes, r)
    requires bytes == seq(zeroes, _ => 0) + Reversed(d)
    ensures IsBase58Of(str, l, r, bytes)
  {
    OnesNoValue(str, l, l + zeroes, r);
    LeadingIs(bytes, 0, zeroes);
    SameNumber(bytes, zeroes, d, 256);
  }

  // ---------- Why nothing is decoded ----------

  lemma {:induction false} BadChar(str: string, k: nat, maxRetLen: int)
    requires k < |str| && !IsSpace(str[k]) && MapBase58(str[k]) < 0
    ensures NotBase58(str, maxRetLen)
  {
  }

  /** A text that is not all space begins at its first character that is not space. */
  lemma {:induction false} CoreStart(str: string, first: nat, l: nat, r: nat)
    requires SpacesAround(str, l, r) && AllBase58(str, l, r) && first < |str| && !IsSpace(str[first])
    requires forall i :: 0 <= i < first ==> IsSpace(str[i])
    ensures l == first < r
  {
    assert l <= first < r;
    assert MapBase58(str[l]) >= 0;
  }

  lemma {:induction false} TooManyOnes(str: string, first: nat, zeroes: nat, maxRetLen: int)
    requires 0 < zeroes && zeroes > maxRetLen && first + zeroes <= |str| && (forall i :: 0 <= i < first ==> IsSpace(str[i]))
    requires forall i :: first <= i < first + zeroes ==> str[i] == '1'
    ensures NotBase58(str, maxRetLen)
  {
    forall l: nat, r: nat, bytes: Bytes ensures !Decodes(str, l, r, bytes, maxRetLen) {
      if SpacesAround(str, l, r) && IsBase58Of(str, l, r, bytes) {
        CoreStart(str, first, l, r);
        OnesAtLeast(str, l, r, zeroes, Leading(bytes, 0));
      }
    }
  }

  lemma {:induction false} OnesAtLeast(str: string, l: nat, r: nat, zeroes: nat, n: nat)
    requires zeroes > 0 && SpacesAround(str, l, r) && Ones(str, l, r, n) && l + zeroes <= |str| && forall i :: l <= i < l + zeroes ==> str[i] == '1'
    ensures n >= zeroes
  {
    var last := l + zeroes - 1;
    assert str[last] == '1' && last < r;
    assert n < zeroes ==> l + n < r;
  }

  lemma {:induction false} TooLong(str: string, start: nat, zeroes: nat, p: nat, d: seq<nat>, maxRetLen: int)
    requires zeroes <= start && OnesCounted(str, start - zeroes, zeroes, maxRetLen) && start <= p < |str| && AllBase58(str, start, p + 1)
    requires |d| > 0 && d[|d| - 1] != 0 && LE(d, 256) == TextNumber(str, start, p + 1) && zeroes + |d| > maxRetLen
    ensures NotBase58(str, maxRetLen)
  {
    forall l: nat, r: nat, bytes: Bytes ensures !Decodes(str, l, r, bytes, maxRetLen) {
      if SpacesAround(str, l, r) && IsBase58Of(str, l, r, bytes) {
        CoreStart(str, start - zeroes, l, r);
        LongCore(str, l, zeroes, p, r, d, bytes);
      }
    }
  }

  lemma {:induction false} LongCore(str: string, l: nat, zeroes: nat, p: nat, r: nat, d: seq<nat>, bytes: Bytes)
    requires SpacesAround(str, l, r) && IsBase58Of(str, l, r, bytes) && Ones(str, l, |str|, zeroes)
    requires l + zeroes <= p < |str| && AllBase58(str, l + zeroes, p + 1)
    requires |d| > 0 && d[|d| - 1] != 0 && LE(d, 256) == TextNumber(str, l + zeroes, p + 1)
    ensures |bytes| >= zeroes + |d|
  {
    assert p < r;
    OnesNoValue(str, l, l + zeroes, p + 1);
    NumberGrows(str, l, p + 1, r);
    var z := Leading(bytes, 0);
    assert z == zeroes;
    EnoughBytes(bytes, z, d);
  }

  lemma {:induction false} NumberGrows(str: string, l: nat, m: nat, r: nat)
    requires l <= m <= r <= |str|
    ensures TextNumber(str, l, m) <= TextNumber(str, l, r)
    decreases r
  {
    if m < r {
      NumberGrows(str, l, m, r - 1);
    }
  }

  /** A number with `|d|` digits needs at least as many bytes. */
  lemma {:induction false} EnoughBytes(bytes: Bytes, z: nat, d: seq<nat>)
    requires DigitsOk(bytes, 256) && z == Leading(bytes, 0) && |d| > 0 && d[|d| - 1] != 0 && LE(d, 256) <= BE(bytes, 256)
    ensures |bytes| >= z + |d|
  {
    ReversedBE(d, 256);
    AtLeastBE(Reversed(d), 256);
    SkipZeros(bytes, 256, z);
    BoundBE(bytes[z..], 256);
    if |bytes| - z < |d| {
      PowGrows(256, |bytes| - z, |d| - 1);
    }
  }

  lemma {:induction false} SpaceInside(str: string, first: nat, gap: nat, p: nat, maxRetLen: int)
    requires first < gap < p < |str| && !IsSpace(str[first]) && IsSpace(str[gap]) && !IsSpace(str[p])
    ensures NotBase58(str, maxRetLen)
  {
    assert MapBase58(str[gap]) < 0;
  }

  // ---------- Round trips ----------

  /** Decoding inverts encoding within the limit, and refuses beyond it. */
  method RoundTrip(bytes: Bytes, maxRetLen: int) returns (res: Option<Bytes>)
    requires DigitsOk(bytes, 256)
    ensures res == if WithinLimit(bytes, maxRetLen) then Some(bytes) else None
  {
    var str := EncodeBase58(bytes);
    ghost var l, r;
    res, l, r := DecodeBase58(str, maxRetLen);
    assert SpacesAround(str, 0, |str|);
    if res.Some? {
      WholeText(str, l, r);
      OneByteString(str, 0, |str|, bytes, res.value);
    } else {
      assert !Decodes(str, 0, |str|, bytes, maxRetLen);
    }
  }

  lemma {:induction false} WholeText(str: string, l: nat, r: nat)
    requires AllBase58(str, 0, |str|) && SpacesAround(str, l, r)
    ensures l == 0 && r == |str|
  {
    assert l > 0 ==> IsSpace(str[0]);
    assert r < |str| ==> IsSpace(str[r]);
  }

  /** Encoding inverts decoding, up to the space around the text. */
  method DecodeEncode(str: string, maxRetLen: int) returns (same: Option<string>, ghost l: nat, ghost r: nat)
    ensures same.Some? ==> SpacesAround(str, l, r) && same.value == str[l..r]
    ensures same.None? ==> NotBase58(str, maxRetLen)
  {
    var res;
    res, l, r := DecodeBase58(str, maxRetLen);
    if res.None? {
      return None, l, r;
    }
    var text := EncodeBase58(res.value);
    OneText(text, str, l, r, res.value);
    same := Some(text);
  }
}
