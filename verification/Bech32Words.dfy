/** The checksum of Bech32 and Bech32m on five-bit words, for examples. */
module Bech32Words {
  import opened LimbMath
  import opened BaseDigits
  import opened XorMath
  import opened Gf32
  import opened Bech32Poly
  import opened Bech32Division

  // ---------- Addition ----------

  lemma {:induction false} Halved(p: bv5)
    ensures p as nat == 2 * ((p >> 1) as nat) + (p & 1) as nat && (p & 1) as nat < 2
  {
  }

  lemma {:induction false} LowBit(p: bv5, q: bv5)
    ensures ((p ^ q) & 1) as nat == (if (p & 1) as nat == (q & 1) as nat then 0 else 1) && (p ^ q) >> 1 == (p >> 1) ^ (q >> 1)
  {
  }

  lemma {:induction false} JoinBits(a: nat, b: nat, c: nat, a1: nat, b1: nat, x: nat, y: nat)
    requires a == 2 * a1 + x && b == 2 * b1 + y && x < 2 && y < 2 && c == 2 * Xor(a1, b1) + if x == y then 0 else 1
    ensures Xor(a, b) == c
  {
    XorHalves(a, b);
  }

  lemma {:induction false} OneMoreBit(p: bv5, q: bv5)
    requires ((p >> 1) ^ (q >> 1)) as nat == Xor((p >> 1) as nat, (q >> 1) as nat)
    ensures (p ^ q) as nat == Xor(p as nat, q as nat)
  {
    Halved(p);
    Halved(q);
    Halved(p ^ q);
    LowBit(p, q);
    JoinBits(p as nat, q as nat, (p ^ q) as nat, (p >> 1) as nat, (q >> 1) as nat, (p & 1) as nat, (q & 1) as nat);
  }

  lemma {:induction false} HighBits(p: bv5, q: bv5)
    ensures ((p >> 3) ^ (q >> 3)) as nat == Xor((p >> 3) as nat, (q >> 3) as nat)
  {
    OneMoreBit(p >> 4, q >> 4);
    assert (p >> 3) >> 1 == p >> 4 && (q >> 3) >> 1 == q >> 4;
    OneMoreBit(p >> 3, q >> 3);
  }

  /** The exclusive or of words is that of the numbers. */
  lemma {:induction false} WordSum(p: bv5, q: bv5)
    ensures (p ^ q) as nat == Xor(p as nat, q as nat)
  {
    HighBits(p, q);
    assert (p >> 2) >> 1 == p >> 3 && (q >> 2) >> 1 == q >> 3;
    OneMoreBit(p >> 2, q >> 2);
    assert (p >> 1) >> 1 == p >> 2 && (q >> 1) >> 1 == q >> 2;
    OneMoreBit(p >> 1, q >> 1);
    OneMoreBit(p, q);
  }

  // ---------- Multiplication ----------

  function Double(p: bv5): bv5 {
    (p << 1) ^ if p & 16 == 0 then 0 else 9
  }

  lemma {:induction false} WordTwice(p: bv5)
    ensures Double(p) as nat == Twice(p as nat)
  {
    TwiceIs(p as nat);
  }

  function Pick(c: bv5, m: bv5, y: bv5): bv5 {
    if c & m == 0 then 0 else y
  }

  /** The sum of the doubles of `y` over the lowest `n` bits of `c`. */
  function Multiply(c: bv5, y: bv5, n: nat): bv5
    decreases n
  {
    if n == 0 then 0 else Pick(c, 1, y) ^ Multiply(c >> 1, Double(y), n - 1)
  }

  ghost predicate Fits(c: bv5, n: nat) {
    if n == 0 then c == 0 else Fits(c >> 1, n - 1)
  }

  /** A product by its lowest bit and the others. */
  lemma {:induction false} LowProduct(c: bv5, y: bv5, rest: bv5)
    requires Times((c >> 1) as nat, Double(y) as nat) == rest as nat
    ensures Times(c as nat, y as nat) == (Pick(c, 1, y) ^ rest) as nat
  {
    Halved(c);
    WordTwice(y);
    WordSum(Pick(c, 1, y), rest);
    LowOf(c);
  }

  lemma {:induction false} LowOf(c: bv5)
    ensures (c as nat % 2 == 1 <==> c & 1 != 0) && c as nat / 2 == (c >> 1) as nat && (c as nat == 0 ==> c == 0)
  {
    Halved(c);
  }

  /** The product of words is that of the field. */
  lemma {:induction false} WordTimes(c: bv5, y: bv5, n: nat)
    requires Fits(c, n)
    ensures Multiply(c, y, n) as nat == Times(c as nat, y as nat)
    decreases n
  {
    if n > 0 {
      WordTimes(c >> 1, Double(y), n - 1);
      LowProduct(c, y, Multiply(c >> 1, Double(y), n - 1));
    }
  }

  lemma {:induction false} FitsFive(c: bv5)
    ensures Fits(c, 5)
  {
    var c1 := c >> 1;
    var c2 := c1 >> 1;
    var c3 := c2 >> 1;
    var c4 := c3 >> 1;
    assert c4 >> 1 == 0;
    assert Fits(c4, 1);
    assert Fits(c3, 2);
    assert Fits(c2, 3);
    assert Fits(c1, 4);
  }

  // ---------- Remainders ----------

  /** The coefficients of a remainder, the highest first. */
  datatype Row = Row(a: bv5, b: bv5, c: bv5, d: bv5, e: bv5, f: bv5)

  /** The row holds these numbers. */
  ghost predicate IsRow(r: Row, g: Values) {
    && |g| == 6 && g[0] == r.a as nat && g[1] == r.b as nat && g[2] == r.c as nat
    && g[3] == r.d as nat && g[4] == r.e as nat && g[5] == r.f as nat
  }

  /** The sum of the multiples of a coefficient over the bits of `c`. */
  function Sum(c: bv5, k0: bv5, k1: bv5, k2: bv5, k3: bv5, k4: bv5): bv5 {
    Pick(c, 1, k0) ^ (Pick(c, 2, k1) ^ (Pick(c, 4, k2) ^ (Pick(c, 8, k3) ^ Pick(c, 16, k4))))
  }

  lemma {:induction false} MultiplyNext(c: bv5, y: bv5, n: nat, high: bv5, y2: bv5)
    requires high == c >> 1 && y2 == Double(y)
    ensures Multiply(c, y, n + 1) == Pick(c, 1, y) ^ Multiply(high, y2, n)
  {
  }

  lemma {:induction false} MultiplyNone(c: bv5, y: bv5)
    ensures Multiply(c, y, 0) == 0
  {
  }

  lemma {:induction false} TwoBits(c: bv5, c1: bv5, c2: bv5, k0: bv5, k1: bv5, k2: bv5, n: nat)
    requires c1 == c >> 1 && c2 == c1 >> 1 && k1 == Double(k0) && k2 == Double(k1)
    ensures Multiply(c, k0, n + 2) == Pick(c, 1, k0) ^ (Pick(c1, 1, k1) ^ Multiply(c2, k2, n))
  {
    MultiplyNext(c1, k1, n, c2, k2);
    MultiplyNext(c, k0, n + 1, c1, k1);
  }

  lemma {:induction false} SumFrom(c: bv5, c1: bv5, c2: bv5, c3: bv5, c4: bv5, k0: bv5, k1: bv5, k2: bv5, k3: bv5, k4: bv5, n: nat)
    requires k1 == Double(k0) && k2 == Double(k1) && k3 == Double(k2) && k4 == Double(k3)
    requires c1 == c >> 1 && c2 == c1 >> 1 && c3 == c2 >> 1 && c4 == c3 >> 1
    ensures Multiply(c, k0, n + 5)
         == Pick(c, 1, k0) ^ (Pick(c1, 1, k1) ^ (Pick(c2, 1, k2) ^ (Pick(c3, 1, k3) ^ (Pick(c4, 1, k4) ^ Multiply(c4 >> 1, Double(k4), n)))))
  {
    MultiplyNext(c4, k4, n, c4 >> 1, Double(k4));
    TwoBits(c2, c3, c4, k2, k3, k4, n + 1);
    TwoBits(c, c1, c2, k0, k1, k2, n + 3);
  }

  lemma {:induction false} Picks(c: bv5, k1: bv5, k2: bv5, k3: bv5, k4: bv5)
    ensures Pick(c >> 1, 1, k1) == Pick(c, 2, k1) && Pick((c >> 1) >> 1, 1, k2) == Pick(c, 4, k2)
    ensures Pick(((c >> 1) >> 1) >> 1, 1, k3) == Pick(c, 8, k3) && Pick((((c >> 1) >> 1) >> 1) >> 1, 1, k4) == Pick(c, 16, k4)
  {
  }

  lemma {:induction false} SumIs(c: bv5, k0: bv5, k1: bv5, k2: bv5, k3: bv5, k4: bv5, n: nat)
    requires k1 == Double(k0) && k2 == Double(k1) && k3 == Double(k2) && k4 == Double(k3) && n == 5
    ensures Sum(c, k0, k1, k2, k3, k4) == Multiply(c, k0, n)
  {
    var c1 := c >> 1;
    var c2 := c1 >> 1;
    var c3 := c2 >> 1;
    var c4 := c3 >> 1;
    SumFrom(c, c1, c2, c3, c4, k0, k1, k2, k3, k4, n - 5);
    MultiplyNone(c4 >> 1, Double(k4));
    Picks(c, k1, k2, k3, k4);
  }

  /** From f(x) mod g(x) to f(x) * x + v mod g(x). */
  function After(r: Row, v: bv5): Row {
    Row(r.b ^ Sum(r.a, 29, 19, 15, 30, 21), r.c ^ Sum(r.a, 22, 5, 10, 20, 1), r.d ^ Sum(r.a, 20, 1, 2, 4, 8),
        r.e ^ Sum(r.a, 21, 3, 6, 12, 24), r.f ^ Sum(r.a, 29, 19, 15, 30, 21), v ^ Sum(r.a, 18, 13, 26, 29, 19))
  }

  lemma {:induction false} Doubles()
    ensures Double(29) == 19 && Double(19) == 15 && Double(15) == 30 && Double(30) == 21
    ensures Double(22) == 5 && Double(5) == 10 && Double(10) == 20 && Double(20) == 1
    ensures Double(1) == 2 && Double(2) == 4 && Double(4) == 8 && Double(21) == 3 && Double(3) == 6 && Double(6) == 12 && Double(12) == 24
    ensures Double(18) == 13 && Double(13) == 26 && Double(26) == 29
  {
  }

  /** One coefficient of the next remainder. */
  lemma {:induction false} NextWord(c: bv5, x: bv5, y: bv5, k0: bv5, k1: bv5, k2: bv5, k3: bv5, k4: bv5, gc: nat, gx: nat, gk: nat, gy: nat)
    requires k1 == Double(k0) && k2 == Double(k1) && k3 == Double(k2) && k4 == Double(k3) && y == x ^ Sum(c, k0, k1, k2, k3, k4)
    requires gc == c as nat && gx == x as nat && gk == k0 as nat && gy == y as nat
    ensures gy == Xor(gx, Times(gc, gk))
  {
    var n := 5;
    SumIs(c, k0, k1, k2, k3, k4, n);
    FitsFive(c);
    WordTimes(c, k0, n);
    WordSum(x, Multiply(c, k0, n));
  }

  lemma {:induction false} NextNumbers(g: Values, v: nat, k: Values, s: Values)
    requires |g| == |s| == |k| == 6
    requires s[0] == Xor(g[1], Times(g[0], k[0])) && s[1] == Xor(g[2], Times(g[0], k[1])) && s[2] == Xor(g[3], Times(g[0], k[2]))
    requires s[3] == Xor(g[4], Times(g[0], k[3])) && s[4] == Xor(g[5], Times(g[0], k[4])) && s[5] == Xor(v, Times(g[0], k[5]))
    ensures NextRemainder(g, v, k) == s
  {
    XorSeqIs(g[1..] + [v], Scaled(g[0], k), s);
  }

  lemma {:induction false} RowHigh(r: Row, v: bv5, s: Row, g: Values, x: nat, k: Values, h: Values)
    requires s == After(r, v) && IsRow(r, g) && x == v as nat && IsRow(s, h) && RowIs(k, 29, 22, 20, 21, 29, 18)
    ensures h[0] == Xor(g[1], Times(g[0], k[0])) && h[1] == Xor(g[2], Times(g[0], k[1]))
  {
    Doubles();
    NextWord(r.a, r.b, s.a, 29, 19, 15, 30, 21, g[0], g[1], k[0], h[0]);
    NextWord(r.a, r.c, s.b, 22, 5, 10, 20, 1, g[0], g[2], k[1], h[1]);
  }

  lemma {:induction false} RowMiddle(r: Row, v: bv5, s: Row, g: Values, x: nat, k: Values, h: Values)
    requires s == After(r, v) && IsRow(r, g) && x == v as nat && IsRow(s, h) && RowIs(k, 29, 22, 20, 21, 29, 18)
    ensures h[2] == Xor(g[3], Times(g[0], k[2])) && h[3] == Xor(g[4], Times(g[0], k[3]))
  {
    Doubles();
    NextWord(r.a, r.d, s.c, 20, 1, 2, 4, 8, g[0], g[3], k[2], h[2]);
    NextWord(r.a, r.e, s.d, 21, 3, 6, 12, 24, g[0], g[4], k[3], h[3]);
  }

  lemma {:induction false} RowLow(r: Row, v: bv5, s: Row, g: Values, x: nat, k: Values, h: Values)
    requires s == After(r, v) && IsRow(r, g) && x == v as nat && IsRow(s, h) && RowIs(k, 29, 22, 20, 21, 29, 18)
    ensures h[4] == Xor(g[5], Times(g[0], k[4])) && h[5] == Xor(x, Times(g[0], k[5]))
  {
    Doubles();
    NextWord(r.a, r.f, s.e, 29, 19, 15, 30, 21, g[0], g[5], k[4], h[4]);
    NextWord(r.a, v, s.f, 18, 13, 26, 29, 19, g[0], x, k[5], h[5]);
  }

  lemma {:induction false} RowNext(r: Row, v: bv5, s: Row, g: Values, x: nat, k: Values, h: Values)
    requires s == After(r, v) && IsRow(r, g) && x == v as nat && IsRow(s, h) && RowIs(k, 29, 22, 20, 21, 29, 18)
    ensures NextRemainder(g, x, k) == h
  {
    RowHigh(r, v, s, g, x, k, h);
    RowMiddle(r, v, s, g, x, k, h);
    RowLow(r, v, s, g, x, k, h);
    NextNumbers(g, x, k, h);
  }

  ghost function Numbers(r: Row): (g: Values)
    ensures IsRow(r, g)
  {
    [r.a as nat, r.b as nat, r.c as nat, r.d as nat, r.e as nat, r.f as nat]
  }

  lemma {:induction false} SameNumbers(r: Row, g: Values, h: Values)
    requires IsRow(r, g) && IsRow(r, h)
    ensures g == h
  {
  }

  /** One more value. */
  lemma {:induction false} TakeOne(v: Values, i: nat, k: Values, r: Row, x: bv5)
    requires i < |v| && v[i] == x as nat && |k| == 6 && RowIs(k, 29, 22, 20, 21, 29, 18) && IsRow(r, Remainder(v[..i], k))
    ensures IsRow(After(r, x), Remainder(v[..i + 1], k))
  {
    var s := After(r, x);
    assert v[..i + 1][..i] == v[..i];
    RowNext(r, x, s, Remainder(v[..i], k), v[i], k, Numbers(s));
  }

  /** Three more values, with the remainders in between. */
  lemma {:induction false} TakeThree(v: Values, i: nat, k: Values, r: Row, x0: bv5, r1: Row, x1: bv5, r2: Row, x2: bv5, s: Row)
    requires i + 3 <= |v| && v[i] == x0 as nat && v[i + 1] == x1 as nat && v[i + 2] == x2 as nat
    requires |k| == 6 && RowIs(k, 29, 22, 20, 21, 29, 18) && IsRow(r, Remainder(v[..i], k))
    requires r1 == After(r, x0) && r2 == After(r1, x1) && s == After(r2, x2)
    ensures IsRow(s, Remainder(v[..i + 3], k))
  {
    TakeOne(v, i, k, r, x0);
    TakeOne(v, i + 1, k, r1, x1);
    TakeOne(v, i + 2, k, r2, x2);
  }

  lemma {:induction false} TakeNone(v: Values, k: Values)
    requires |k| == 6
    ensures IsRow(Row(0, 0, 0, 0, 0, 1), Remainder(v[..0], k))
  {
  }
}
