/** The characters of Bech32 and Bech32m strings. */
module Bech32Chars {

  /** The character set for encoding. */
  function CharsetChar(d: nat): char
    requires d < 32
  {
    if d == 0 then 'q' else if d == 1 then 'p' else if d == 2 then 'z' else if d == 3 then 'r'
    else if d == 4 then 'y' else if d == 5 then '9' else if d == 6 then 'x' else if d == 7 then '8'
    else if d == 8 then 'g' else if d == 9 then 'f' else if d == 10 then '2' else if d == 11 then 't'
    else if d == 12 then 'v' else if d == 13 then 'd' else if d == 14 then 'w' else if d == 15 then '0'
    else if d == 16 then 's' else if d == 17 then '3' else if d == 18 then 'j' else if d == 19 then 'n'
    else if d == 20 then '5' else if d == 21 then '4' else if d == 22 then 'k' else if d == 23 then 'h'
    else if d == 24 then 'c' else if d == 25 then 'e' else if d == 26 then '6' else if d == 27 then 'm'
    else if d == 28 then 'u' else if d == 29 then 'a' else if d == 30 then '7' else 'l'
  }

  /** The character set for decoding, on lower case. */
  function CharsetValue(c: char): (d: int)
    ensures -1 <= d < 32
  {
    if c == 'q' then 0 else if c == 'p' then 1 else if c == 'z' then 2 else if c == 'r' then 3
    else if c == 'y' then 4 else if c == '9' then 5 else if c == 'x' then 6 else if c == '8' then 7
    else if c == 'g' then 8 else if c == 'f' then 9 else if c == '2' then 10 else if c == 't' then 11
    else if c == 'v' then 12 else if c == 'd' then 13 else if c == 'w' then 14 else if c == '0' then 15
    else if c == 's' then 16 else if c == '3' then 17 else if c == 'j' then 18 else if c == 'n' then 19
    else if c == '5' then 20 else if c == '4' then 21 else if c == 'k' then 22 else if c == 'h' then 23
    else if c == 'c' then 24 else if c == 'e' then 25 else if c == '6' then 26 else if c == 'm' then 27
    else if c == 'u' then 28 else if c == 'a' then 29 else if c == '7' then 30 else if c == 'l' then 31
    else -1
  }

  predicate IsLower(c: char) { 'a' <= c <= 'z' }

  predicate IsUpper(c: char) { 'A' <= c <= 'Z' }

  function LowerCase(c: char): char {
    if IsUpper(c) then (c as int - 'A' as int + 'a' as int) as char else c
  }

  /** The decoding table takes both cases. */
  function CharsetRev(c: char): (d: int)
    ensures -1 <= d < 32
  {
    CharsetValue(LowerCase(c))
  }

  lemma {:induction false} CharsetInverse(d: nat)
    requires d < 32
    ensures CharsetValue(CharsetChar(d)) == d && !IsUpper(CharsetChar(d)) && 33 <= CharsetChar(d) as int <= 126
  {
  }

  /** One character for each value; the separator is not among them. */
  lemma {:induction false} CharsetUnique(c: char)
    requires CharsetValue(c) >= 0
    ensures c == CharsetChar(CharsetValue(c)) && c != '1'
  {
  }
}
