/** Bech32 and Bech32m strings: a human-readable part, a separator, and data with a checksum. */
module Bech32Codec {
  import opened Basics
  import opened Bech32Poly
  import opened Bech32Chars
  import opened Bech32

  // ---------- What a string stands for ----------

  /** The characters from `at` on stand for the values. */
  ghost predicate Reads(s: string, at: nat, values: Values) {
    |s| == at + |values| && forall i :: 0 <= i < |values| ==> CharsetRev(s[at + i]) == values[i]
  }

  /** The string begins with the human-readable part, in either case, and a separator. */
  ghost predicate Begins(s: string, hrp: string) {
    |hrp| < |s| && (forall i :: 0 <= i < |hrp| ==> LowerCase(s[i]) == hrp[i]) && s[|hrp|] == SEPARATOR
  }

  /** The string holds the values, checksum included, and is valid for the encoding. */
  ghost predicate IsBech32(s: string, e: Encoding, hrp: string, values: Values) {
    Begins(s, hrp) && Reads(s, |hrp| + 1, values) && Residue(hrp, values) == EncodingConstant(e)
  }

  ghost predicate Printable(s: string) {
    forall i :: 0 <= i < |s| ==> 33 <= s[i] as int <= 126
  }

  ghost predicate NoLower(s: string, n: nat) {
    forall i :: 0 <= i < n && i < |s| ==> !IsLower(s[i])
  }

  ghost predicate NoUpper(s: string, n: nat) {
    forall i :: 0 <= i < n && i < |s| ==> !IsUpper(s[i])
  }

  /** Printable characters, and not both cases. */
  ghost predicate CharsOk(s: string) {
    Printable(s) && (NoLower(s, |s|) || NoUpper(s, |s|))
  }

  ghost predicate Decodes(s: string, limit: nat, d: DecodeResult, values: Values) {
    && CharsOk(s) && |s| <= limit && d.hrp != "" && |values| >= CHECKSUM_SIZE
    && d.data == values[..|values| - CHECKSUM_SIZE] && IsBech32(s, d.encoding, d.hrp, values)
  }

  ghost predicate NotBech32(s: string, limit: nat) {
    forall d, values {:trigger Decodes(s, limit, d, values)} :: !Decodes(s, limit, d, values)
  }

  // ---------- Encoding ----------

  /** An upper-case human-readable part is refused by an assertion. */
  method Encode(e: Encoding, hrp: string, values: Values) returns (ret: string, ghost all: Values)
    requires SevenBit(hrp) && NoUpper(hrp, |hrp|) && FiveBit(values)
    ensures IsBech32(ret, e, hrp, all) && |all| == |values| + CHECKSUM_SIZE && all[..|values|] == values && FiveBit(all)
    ensures NoUpper(ret, |ret|) && (Printable(ret) <==> Printable(hrp)) && |ret| == |hrp| + 1 + |values| + CHECKSUM_SIZE
  {
    var checksum := CreateChecksum(e, hrp, values);
    ret := hrp + [SEPARATOR];
    ghost var head := ret;
    ret := AppendValues(ret, values);
    ghost var body := ret;
    ret := AppendValues(ret, checksum);
    all := values + checksum;
    JoinWritten(head, body, ret, values, checksum);
    EncodedReads(ret, |hrp| + 1, all);
    EncodedPlain(ret, hrp, all);
    assert all[..|values|] == values;
  }

  /** The characters from `at` on are those of the values. */
  ghost predicate Written(s: string, at: nat, values: Values) {
    |s| == at + |values| && FiveBit(values) && forall i :: 0 <= i < |values| ==> s[at + i] == CharsetChar(values[i])
  }

  ghost predicate Extends(str: string, values: Values, ret: string) {
    Written(ret, |str|, values) && forall i :: 0 <= i < |str| ==> ret[i] == str[i]
  }

  lemma {:induction false} JoinWritten(head: string, body: string, ret: string, a: Values, b: Values)
    requires Extends(head, a, body) && Extends(body, b, ret)
    ensures Extends(head, a + b, ret)
  {
  }

  lemma {:induction false} EncodedReads(s: string, at: nat, values: Values)
    requires Written(s, at, values)
    ensures Reads(s, at, values)
  {
    forall i | 0 <= i < |values| ensures CharsetRev(s[at + i]) == values[i] {
      CharsetInverse(values[i]);
    }
  }

  lemma {:induction false} EncodedPlain(s: string, hrp: string, values: Values)
    requires Written(s, |hrp| + 1, values) && s[|hrp|] == SEPARATOR && (forall i :: 0 <= i < |hrp| ==> s[i] == hrp[i]) && NoUpper(hrp, |hrp|)
    ensures NoUpper(s, |s|) && (Printable(s) <==> Printable(hrp)) && Begins(s, hrp)
  {
    forall i | |hrp| < i < |s| ensures !IsUpper(s[i]) && 33 <= s[i] as int <= 126 {
      var k := i - (|hrp| + 1);
      assert s[|hrp| + 1 + k] == CharsetChar(values[k]);
      CharsetInverse(values[k]);
    }
    PlainHead(s, hrp);
  }

  lemma {:induction false} PlainHead(s: string, hrp: string)
    requires |hrp| < |s| && s[|hrp|] == SEPARATOR && (forall i :: 0 <= i < |hrp| ==> s[i] == hrp[i]) && NoUpper(hrp, |hrp|)
    requires forall i :: |hrp| < i < |s| ==> !IsUpper(s[i]) && 33 <= s[i] as int <= 126
    ensures NoUpper(s, |s|) && (Printable(s) <==> Printable(hrp)) && Begins(s, hrp)
  {
    assert Printable(s) ==> forall i :: 0 <= i < |hrp| ==> hrp[i] == s[i];
  }

  /** Append the character of each value. */
  method AppendValues(str: string, values: Values) returns (ret: string)
    requires FiveBit(values)
    ensures Extends(str, values, ret)
  {
    ret := str;
    for i := 0 to |values|
      invariant |ret| == |str| + i && (forall j :: 0 <= j < |str| ==> ret[j] == str[j])
      invariant forall j :: 0 <= j < i ==> ret[|str| + j] == CharsetChar(values[j])
    {
      ret := ret + [CharsetChar(values[i])];
    }
  }

  // ---------- Decoding ----------

  /** The first letter among the first `n` characters is an upper-case one, or a lower-case one. */
  ghost predicate FirstUpper(s: string, n: nat) {
    exists k :: 0 <= k < n && k < |s| && IsUpper(s[k]) && NoLower(s, k)
  }

  ghost predicate FirstLower(s: string, n: nat) {
    exists k :: 0 <= k < n && k < |s| && IsLower(s[k]) && NoUpper(s, k)
  }

  /** A character that is not printable, or not in the case of the first letter. */
  ghost predicate BadAt(s: string, i: nat)
    requires i < |s|
  {
    if IsLower(s[i]) then FirstUpper(s, i) else if IsUpper(s[i]) then FirstLower(s, i) else !(33 <= s[i] as int <= 126)
  }

  /** `errors` are the positions of the bad characters among the first `n`, in order. */
  ghost predicate BadOnes(s: string, n: nat, errors: seq<nat>) {
    && n <= |s| && (forall k :: 0 <= k < |errors| ==> errors[k] < n && BadAt(s, errors[k]))
    && (forall i :: 0 <= i < n && BadAt(s, i) ==> i in errors) && forall j, k :: 0 <= j < k < |errors| ==> errors[j] < errors[k]
  }

  lemma {:induction false} BadNext(s: string, n: nat, errors: seq<nat>)
    requires n < |s| && BadOnes(s, n, errors)
    ensures BadOnes(s, n + 1, if BadAt(s, n) then errors + [n] else errors)
  {
    if BadAt(s, n) {
      var more := errors + [n];
      forall k | 0 <= k < |more| ensures more[k] < n + 1 && BadAt(s, more[k]) {
        assert k < |errors| ==> more[k] == errors[k];
      }
      forall i | 0 <= i < n + 1 && BadAt(s, i) ensures i in more {
        assert i in errors || i == n;
      }
    }
  }

  lemma {:induction false} CasesNext(s: string, n: nat)
    requires n < |s|
    ensures FirstUpper(s, n + 1) <==> FirstUpper(s, n) || (IsUpper(s[n]) && !FirstLower(s, n))
    ensures FirstLower(s, n + 1) <==> FirstLower(s, n) || (IsLower(s[n]) && !FirstUpper(s, n))
  {
    FirstLetter(s, n);
    if FirstUpper(s, n) {
      var k :| 0 <= k < n && k < |s| && IsUpper(s[k]) && NoLower(s, k);
    }
    if FirstLower(s, n) {
      var k :| 0 <= k < n && k < |s| && IsLower(s[k]) && NoUpper(s, k);
    }
  }

  /** Among the first characters there is no letter, or one comes first. */
  lemma {:induction false} FirstLetter(s: string, n: nat)
    requires n <= |s|
    ensures !(FirstUpper(s, n) && FirstLower(s, n))
    ensures !FirstUpper(s, n) && !FirstLower(s, n) ==> NoUpper(s, n) && NoLower(s, n)
    decreases n
  {
    if n > 0 {
      FirstLetter(s, n - 1);
      assert FirstUpper(s, n - 1) ==> FirstUpper(s, n);
      assert FirstLower(s, n - 1) ==> FirstLower(s, n);
    }
  }

  /** No bad character means printable characters of one case. */
  lemma {:induction false} NoBadOnes(s: string)
    ensures (forall i :: 0 <= i < |s| ==> !BadAt(s, i)) <==> CharsOk(s)
  {
    FirstLetter(s, |s|);
    if forall i :: 0 <= i < |s| ==> !BadAt(s, i) {
      OneCase(s);
      forall i | 0 <= i < |s| ensures 33 <= s[i] as int <= 126 {
        assert !BadAt(s, i);
      }
    }
  }

  lemma {:induction false} OneCase(s: string)
    requires forall i :: 0 <= i < |s| ==> !BadAt(s, i)
    ensures NoLower(s, |s|) || NoUpper(s, |s|)
  {
    FirstLetter(s, |s|);
    if FirstUpper(s, |s|) {
      var k :| 0 <= k < |s| && IsUpper(s[k]) && NoLower(s, k);
      forall i | 0 <= i < |s| ensures !IsLower(s[i]) {
        assert !BadAt(s, i);
        assert i > k ==> FirstUpper(s, i);
      }
    } else if FirstLower(s, |s|) {
      var k :| 0 <= k < |s| && IsLower(s[k]) && NoUpper(s, k);
      forall i | 0 <= i < |s| ensures !IsUpper(s[i]) {
        assert !BadAt(s, i);
        assert i > k ==> FirstLower(s, i);
      }
    }
  }

  /** Collect the positions of characters that are not printable, or not in the case seen first. */
  method CheckCharacters(str: string) returns (ok: bool, errors: seq<nat>)
    ensures ok <==> CharsOk(str)
    ensures (ok <==> errors == []) && BadOnes(str, |str|, errors)
  {
    var lower, upper := false, false;
    errors := [];
    for i := 0 to |str|
      invariant BadOnes(str, i, errors) && (lower <==> FirstLower(str, i)) && (upper <==> FirstUpper(str, i))
    {
      BadNext(str, i, errors);
      CasesNext(str, i);
      FirstLetter(str, i);
      var c := str[i];
      if IsLower(c) {
        if upper {
          errors := errors + [i];
        } else {
          lower := true;
        }
      } else if IsUpper(c) {
        if lower {
          errors := errors + [i];
        } else {
          upper := true;
        }
      } else if c as int < 33 || c as int > 126 {
        errors := errors + [i];
      }
    }
    ok := errors == [];
    NoBadOnes(str);
    assert errors != [] ==> BadAt(str, errors[0]);
  }

  /** The last separator, or -1. */
  method FindSeparator(str: string) returns (pos: int)
    ensures LastSeparator(str, pos)
  {
    pos := |str| - 1;
    while pos >= 0 && str[pos] != SEPARATOR
      invariant -1 <= pos < |str| && forall i :: pos < i < |str| ==> str[i] != SEPARATOR
    {
      pos := pos - 1;
    }
  }

  /** The human-readable part ends at the last separator, as no character of the data is one. */
  lemma {:induction false} SplitUnique(s: string, hrp: string, values: Values, pos: int)
    requires Begins(s, hrp) && Reads(s, |hrp| + 1, values) && LastSeparator(s, pos)
    ensures |hrp| == pos
  {
    ReadsAll(s, |hrp| + 1, values);
    assert CharsetRev(SEPARATOR) == -1;
  }

  /** What the string stands for, if it is valid within the limit; otherwise there is nothing it could stand for. */
  method Decode(str: string, limit: nat) returns (r: Option<DecodeResult>, ghost all: Values)
    ensures r.Some? ==> Decodes(str, limit, r.value, all)
    ensures r.None? ==> NotBech32(str, limit)
  {
    all := [];
    var ok, errors := CheckCharacters(str);
    if !ok {
      return None, [];
    }
    var pos := FindSeparator(str);
    if |str| > limit {
      return None, [];
    }
    if pos == -1 || pos == 0 || pos + CHECKSUM_SIZE >= |str| {
      NoSplit(str, limit, pos);
      return None, [];
    }
    r, all := DecodeAt(str, limit, pos);
  }

  /** The two parts beside the separator. */
  method DecodeAt(str: string, limit: nat, pos: nat) returns (r: Option<DecodeResult>, ghost all: Values)
    requires CharsOk(str) && |str| <= limit && LastSeparator(str, pos) && 0 < pos && pos + CHECKSUM_SIZE < |str|
    ensures r.Some? ==> Decodes(str, limit, r.value, all)
    ensures r.None? ==> NotBech32(str, limit)
  {
    all := [];
    var valid, values := ReadValues(str, pos + 1);
    if !valid {
      BadValue(str, limit, pos);
      return None, [];
    }
    var hrp := LowerPrefix(str, pos);
    var e := VerifyChecksum(hrp, values);
    if e.None? {
      BadChecksum(str, limit, pos, hrp, values);
      return None, [];
    }
    all := values;
    r := Some(DecodeResult(e.value, hrp, values[..|values| - CHECKSUM_SIZE]));
  }

  /** The values of the characters from `at` on. */
  method ReadValues(str: string, at: nat) returns (valid: bool, values: Values)
    requires at <= |str|
    ensures valid ==> Reads(str, at, values)
    ensures !valid ==> !AllValues(str, at)
  {
    values := [];
    for i := 0 to |str| - at
      invariant |values| == i && forall j :: 0 <= j < i ==> CharsetRev(str[at + j]) == values[j]
    {
      var rev := CharsetRev(str[i + at]);
      if rev == -1 {
        return false, [];
      }
      values := values + [rev];
    }
    valid := true;
  }

  ghost predicate AllValues(str: string, at: nat) {
    forall i :: at <= i < |str| ==> CharsetRev(str[i]) >= 0
  }

  method LowerPrefix(str: string, pos: nat) returns (hrp: string)
    requires pos <= |str|
    ensures |hrp| == pos && forall i :: 0 <= i < pos ==> hrp[i] == LowerCase(str[i])
  {
    hrp := "";
    for i := 0 to pos
      invariant |hrp| == i && forall j :: 0 <= j < i ==> hrp[j] == LowerCase(str[j])
    {
      hrp := hrp + [LowerCase(str[i])];
    }
  }

  ghost predicate LastSeparator(s: string, pos: int) {
    -1 <= pos < |s| && (pos >= 0 ==> s[pos] == SEPARATOR) && forall i :: pos < i < |s| ==> s[i] != SEPARATOR
  }

  // ---------- Why nothing is decoded ----------

  lemma {:induction false} NoSplit(s: string, limit: nat, pos: int)
    requires LastSeparator(s, pos) && (pos <= 0 || pos + CHECKSUM_SIZE >= |s|)
    ensures NotBech32(s, limit)
  {
    forall d: DecodeResult, values: Values ensures !Decodes(s, limit, d, values) {
      if IsBech32(s, d.encoding, d.hrp, values) {
        SplitUnique(s, d.hrp, values, pos);
      }
    }
  }

  lemma {:induction false} BadValue(s: string, limit: nat, pos: nat)
    requires LastSeparator(s, pos) && !AllValues(s, pos + 1)
    ensures NotBech32(s, limit)
  {
    forall d: DecodeResult, values: Values ensures !Decodes(s, limit, d, values) {
      if IsBech32(s, d.encoding, d.hrp, values) {
        SplitUnique(s, d.hrp, values, pos);
        ReadsAll(s, pos + 1, values);
      }
    }
  }

  lemma {:induction false} ReadsAll(s: string, at: nat, values: Values)
    requires Reads(s, at, values)
    ensures AllValues(s, at)
  {
    forall i | at <= i < |s| ensures CharsetRev(s[i]) >= 0 {
      assert CharsetRev(s[at + (i - at)]) == values[i - at];
    }
  }

  lemma {:induction false} BadChecksum(s: string, limit: nat, pos: nat, hrp: string, values: Values)
    requires LastSeparator(s, pos) && |hrp| == pos && (forall i :: 0 <= i < pos ==> hrp[i] == LowerCase(s[i])) && Reads(s, pos + 1, values)
    requires forall f :: Residue(hrp, values) != EncodingConstant(f)
    ensures NotBech32(s, limit)
  {
    forall d: DecodeResult, other: Values ensures !Decodes(s, limit, d, other) {
      if IsBech32(s, d.encoding, d.hrp, other) {
        SameResidue(s, pos, hrp, values, d.hrp, other);
      }
    }
  }

  lemma {:induction false} SameResidue(s: string, pos: nat, hrp: string, values: Values, hrp2: string, values2: Values)
    requires LastSeparator(s, pos) && |hrp| == pos && (forall i :: 0 <= i < pos ==> hrp[i] == LowerCase(s[i])) && Reads(s, pos + 1, values)
    requires Begins(s, hrp2) && Reads(s, |hrp2| + 1, values2)
    ensures Residue(hrp, values) == Residue(hrp2, values2)
  {
    SplitUnique(s, hrp2, values2, pos);
    SameParts(s, hrp, values, hrp2, values2);
  }

  /** Both parts are determined by the string and the place of the separator. */
  lemma {:induction false} SameParts(s: string, hrp: string, values: Values, hrp2: string, values2: Values)
    requires |hrp| == |hrp2| < |s| && Reads(s, |hrp| + 1, values) && Reads(s, |hrp| + 1, values2)
    requires forall i :: 0 <= i < |hrp| ==> hrp[i] == LowerCase(s[i]) && hrp2[i] == LowerCase(s[i])
    ensures hrp == hrp2 && values == values2
  {
    forall i | 0 <= i < |values| ensures values[i] == values2[i] {
      assert CharsetRev(s[|hrp| + 1 + i]) == values[i];
    }
  }

  // ---------- Round trips ----------

  /** Two readings of a string have the same parts. */
  lemma {:induction false} ReadingUnique(s: string, hrp: string, values: Values, hrp2: string, values2: Values)
    requires Begins(s, hrp) && Reads(s, |hrp| + 1, values) && Begins(s, hrp2) && Reads(s, |hrp2| + 1, values2)
    ensures hrp == hrp2 && values == values2
  {
    ReadsAll(s, |hrp| + 1, values);
    assert CharsetRev(SEPARATOR) == -1;
    SplitUnique(s, hrp2, values2, |hrp|);
    SameParts(s, hrp, values, hrp2, values2);
  }

  lemma {:induction false} ConstantUnique(e: Encoding, f: Encoding)
    requires EncodingConstant(e) == EncodingConstant(f)
    ensures e == f
  {
  }

  /** Decoding inverts encoding, exactly for printable human-readable parts that are not empty and within the limit. */
  method RoundTrip(e: Encoding, hrp: string, values: Values, limit: nat) returns (r: Option<DecodeResult>)
    requires SevenBit(hrp) && NoUpper(hrp, |hrp|) && FiveBit(values)
    ensures r == if hrp != "" && Printable(hrp) && |hrp| + 1 + |values| + CHECKSUM_SIZE <= limit then Some(DecodeResult(e, hrp, values)) else None
  {
    ghost var all, all2;
    var str;
    str, all := Encode(e, hrp, values);
    r, all2 := Decode(str, limit);
    var d := DecodeResult(e, hrp, values);
    if r.Some? {
      SameReading(str, limit, e, hrp, all, r.value, all2);
    } else {
      assert !Decodes(str, limit, d, all);
    }
  }

  lemma {:induction false} SameReading(s: string, limit: nat, e: Encoding, hrp: string, values: Values, d: DecodeResult, values2: Values)
    requires IsBech32(s, e, hrp, values) && Decodes(s, limit, d, values2)
    ensures d.encoding == e && d.hrp == hrp && values2 == values
  {
    ReadingUnique(s, hrp, values, d.hrp, values2);
    ConstantUnique(e, d.encoding);
  }

  /** Encoding inverts decoding, up to the case of the letters. */
  method DecodeEncode(str: string, limit: nat) returns (same: Option<string>)
    ensures same.Some? ==> |same.value| == |str| && forall i :: 0 <= i < |str| ==> same.value[i] == LowerCase(str[i])
    ensures same.None? ==> NotBech32(str, limit)
  {
    ghost var all, all2;
    var r;
    r, all := Decode(str, limit);
    if r.None? {
      return None;
    }
    var d := r.value;
    DecodedParts(str, limit, d, all);
    var text;
    text, all2 := Encode(d.encoding, d.hrp, d.data);
    SameChecksum(d.hrp, all, all2);
    SameText(str, text, d.hrp, all);
    same := Some(text);
  }

  lemma {:induction false} DecodedParts(s: string, limit: nat, d: DecodeResult, values: Values)
    requires Decodes(s, limit, d, values)
    ensures SevenBit(d.hrp) && NoUpper(d.hrp, |d.hrp|) && FiveBit(values) && FiveBit(d.data)
  {
    LoweredHead(s, d.hrp);
    ReadsFiveBit(s, |d.hrp| + 1, values);
  }

  lemma {:induction false} LoweredHead(s: string, hrp: string)
    requires Printable(s) && Begins(s, hrp)
    ensures SevenBit(hrp) && NoUpper(hrp, |hrp|)
  {
    forall i | 0 <= i < |hrp| ensures hrp[i] as int < 128 && !IsUpper(hrp[i]) {
      assert LowerCase(s[i]) == hrp[i];
    }
  }

  lemma {:induction false} ReadsFiveBit(s: string, at: nat, values: Values)
    requires Reads(s, at, values)
    ensures FiveBit(values)
  {
    forall i | 0 <= i < |values| ensures values[i] < 32 {
      assert CharsetRev(s[at + i]) == values[i];
    }
  }

  lemma {:induction false} SameChecksum(hrp: string, a: Values, b: Values)
    requires |a| == |b| >= 6 && FiveBit(a) && FiveBit(b) && a[..|a| - 6] == b[..|b| - 6] && Residue(hrp, a) == Residue(hrp, b)
    ensures a == b
  {
    var n := |a| - 6;
    assert a == a[..n] + a[n..] && b == a[..n] + b[n..];
    ChecksumUnique(hrp, a[..n], a[n..], b[n..]);
  }

  /** A string without upper case is determined by what it stands for. */
  lemma {:induction false} SameText(s: string, t: string, hrp: string, values: Values)
    requires Begins(s, hrp) && Reads(s, |hrp| + 1, values) && Begins(t, hrp) && Reads(t, |hrp| + 1, values) && NoUpper(t, |t|)
    ensures |t| == |s| && forall i :: 0 <= i < |s| ==> t[i] == LowerCase(s[i])
  {
    forall i | 0 <= i < |s| ensures t[i] == LowerCase(s[i]) {
      if i > |hrp| {
        var k := i - (|hrp| + 1);
        assert CharsetRev(s[|hrp| + 1 + k]) == values[k] && CharsetRev(t[|hrp| + 1 + k]) == values[k];
        CharsetUnique(LowerCase(s[i]));
        CharsetUnique(t[i]);
      }
    }
  }
}
