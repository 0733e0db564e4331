/** The base-58 alphabet, and why the buffers of the conversions are large enough. */
module Base58Digits {
  import opened LimbMath
  import opened BaseDigits

  /** The alphabet: digits and letters in order, without "0", "I", "O" and "l". */
  function Base58Char(d: nat): char
    requires d < 58
  {
    if d < 9 then ('1' as int + d) as char
    else if d < 17 then ('A' as int + d - 9) as char
    else if d < 22 then ('J' as int + d - 17) as char
    else if d < 33 then ('P' as int + d - 22) as char
    else if d < 44 then ('a' as int + d - 33) as char
    else ('m' as int + d - 44) as char
  }

  /** The digit that a character stands for, or -1: the table of the decoder. */
  function MapBase58(c: char): (d: int)
    ensures -1 <= d < 58
  {
    if '1' <= c <= '9' then c as int - '1' as int
    else if 'A' <= c <= 'H' then c as int - 'A' as int + 9
    else if 'J' <= c <= 'N' then c as int - 'J' as int + 17
    else if 'P' <= c <= 'Z' then c as int - 'P' as int + 22
    else if 'a' <= c <= 'k' then c as int - 'a' as int + 33
    else if 'm' <= c <= 'z' then c as int - 'm' as int + 44
    else -1
  }

  /** Characters and digits correspond one to one. */
  lemma {:induction false} AlphabetInverse(d: nat, c: char)
    requires d < 58
    ensures c == Base58Char(d) <==> MapBase58(c) == d
  {
  }

  /** The alphabet as a text. */
  ghost function Alphabet(): string {
    "123456789" + "ABCDEFGH" + "JKLMN" + "PQRSTUVWXYZ" + "abcdefghijk" + "mnopqrstuvwxyz"
  }

  /** Characters that follow each other. */
  ghost predicate Consecutive(t: string, c: char) {
    forall i :: 0 <= i < |t| ==> t[i] as int == c as int + i
  }

  lemma {:induction false} Pieces()
    ensures Consecutive("123456789", '1') && Consecutive("ABCDEFGH", 'A') && Consecutive("JKLMN", 'J')
    ensures Consecutive("PQRSTUVWXYZ", 'P') && Consecutive("abcdefghijk", 'a') && Consecutive("mnopqrstuvwxyz", 'm')
  {
  }

  /** The character of a digit is the one at its place of the alphabet. */
  lemma {:induction false} AlphabetIs(d: nat)
    requires d < 58
    ensures |Alphabet()| == 58 && Base58Char(d) == Alphabet()[d]
  {
    Pieces();
  }

  lemma {:induction false} PowIs(b: nat, m: nat, n: nat, x: nat, y: nat, z: nat)
    requires Pow(b, m) == x && Pow(b, n) == y && x * y == z
    ensures Pow(b, m + n) == z
  {
    PowSum(b, m, n);
  }

  lemma {:induction false} EightBytes()
    ensures Pow(256, 8) <= Pow(58, 11)
  {
    assert Pow(256, 1) == 256 && Pow(58, 1) == 58;
    PowIs(256, 1, 1, 256, 256, 65536);
    PowIs(256, 2, 2, 65536, 65536, 4294967296);
    PowIs(256, 4, 4, 4294967296, 4294967296, 18446744073709551616);
    PowIs(58, 1, 1, 58, 58, 3364);
    PowIs(58, 2, 1, 3364, 58, 195112);
    PowIs(58, 2, 2, 3364, 3364, 11316496);
    PowIs(58, 4, 4, 11316496, 11316496, 128063081718016);
    PowIs(58, 8, 3, 128063081718016, 195112, 24986644000165537792);
  }

  lemma {:induction false} SeventyOneDigits()
    ensures Pow(58, 71) <= Pow(256, 52)
  {
    assert Pow(256, 1) == 256 && Pow(58, 1) == 58;
    PowIs(256, 1, 1, 256, 256, 65536);
    PowIs(256, 2, 2, 65536, 65536, 4294967296);
    PowIs(256, 4, 4, 4294967296, 4294967296, 18446744073709551616);
    PowIs(256, 8, 8, 18446744073709551616, 18446744073709551616, 340282366920938463463374607431768211456);
    PowIs(256, 16, 16, 340282366920938463463374607431768211456, 340282366920938463463374607431768211456, 115792089237316195423570985008687907853269984665640564039457584007913129639936);
    PowIs(256, 32, 16, 115792089237316195423570985008687907853269984665640564039457584007913129639936, 340282366920938463463374607431768211456, 39402006196394479212279040100143613805079739270465446667948293404245721771497210611414266254884915640806627990306816);
    PowIs(256, 48, 4, 39402006196394479212279040100143613805079739270465446667948293404245721771497210611414266254884915640806627990306816, 4294967296, 169230328010303641331690318856389386196071598838855992136870091590247882556495704531248437872567112920983350278405979725889536);
    PowIs(58, 1, 1, 58, 58, 3364);
    PowIs(58, 2, 1, 3364, 58, 195112);
    PowIs(58, 2, 2, 3364, 3364, 11316496);
    PowIs(58, 4, 3, 11316496, 195112, 2207984167552);
    PowIs(58, 4, 4, 11316496, 11316496, 128063081718016);
    PowIs(58, 8, 8, 128063081718016, 128063081718016, 16400152899115243850138976256);
    PowIs(58, 16, 16, 16400152899115243850138976256, 16400152899115243850138976256, 268965015114358137726910587140455987105619365599731777536);
    PowIs(58, 32, 32, 268965015114358137726910587140455987105619365599731777536, 268965015114358137726910587140455987105619365599731777536, 72342179355466901471258927612150153907721848234316445933056526044582001260898145151856420451025374266490194231296);
    PowIs(58, 64, 7, 72342179355466901471258927612150153907721848234316445933056526044582001260898145151856420451025374266490194231296, 2207984167552, 159730386663078066345306447337161584696769904898410078913243029577507397293846405390982563136983769384625594118558891106107392);
  }

  /** log(256) / log(58), rounded up to 138/100. */
  lemma {:induction false} EncodeFits(n: nat)
    ensures Pow(256, n) <= Pow(58, n * 138 / 100 + 1)
  {
    EightBytes();
    BufferFits(256, 58, 8, 11, n, n * 138 / 100 + 1);
  }

  /** log(58) / log(256), rounded up to 733/1000. */
  lemma {:induction false} DecodeFits(n: nat)
    ensures Pow(58, n) <= Pow(256, n * 733 / 1000 + 1)
  {
    SeventyOneDigits();
    BufferFits(58, 256, 71, 52, n, n * 733 / 1000 + 1);
  }
}
