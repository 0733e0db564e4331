/** The table of the cuckoo cache: where elements may lie, and what putting one into a slot does. */
module CuckooTables {
  import opened LimbMath
  import opened LimbArith

  type Element = nat

  /** What an empty slot holds. */
  const DEFAULT: Element := 0

  /** A hash function: eight 32-bit hashes for each element. */
  type Hash = (nat, Element) -> nat

  ghost predicate HashOk(h: Hash) {
    forall k: nat, e: Element :: h(k, e) < B
  }

  /** Reduce a 32-bit number to the range below `n` by a multiplication. */
  function FastRange32(x: nat, n: nat): nat {
    x * n / B
  }

  lemma {:induction false} FastRangeBelow(x: nat, n: nat)
    requires x < B && n > 0
    ensures FastRange32(x, n) < n
  {
    MulMono(n, x + 1, B);
    Distribute(n, x, 1);
    QuotientBelow(x * n, B, n);
  }

  /** The eight locations of an element. */
  function ComputeHashes(h: Hash, size: nat, e: Element): (locs: seq<nat>)
    ensures |locs| == 8
  {
    [FastRange32(h(0, e), size), FastRange32(h(1, e), size), FastRange32(h(2, e), size), FastRange32(h(3, e), size),
     FastRange32(h(4, e), size), FastRange32(h(5, e), size), FastRange32(h(6, e), size), FastRange32(h(7, e), size)]
  }

  lemma {:induction false} LocationsBelow(h: Hash, size: nat, e: Element)
    requires HashOk(h) && size > 0
    ensures forall k :: 0 <= k < 8 ==> ComputeHashes(h, size, e)[k] < size
  {
    FastRangeBelow(h(0, e), size);
    FastRangeBelow(h(1, e), size);
    FastRangeBelow(h(2, e), size);
    FastRangeBelow(h(3, e), size);
    FastRangeBelow(h(4, e), size);
    FastRangeBelow(h(5, e), size);
    FastRangeBelow(h(6, e), size);
    FastRangeBelow(h(7, e), size);
  }

  /** The location for each hash divides the table as the hash divides the 32-bit numbers. */
  lemma {:induction false} LocationIs(h: Hash, size: nat, e: Element, k: nat)
    requires k < 8
    ensures var loc := ComputeHashes(h, size, e)[k]; loc * B <= h(k, e) * size < (loc + 1) * B
  {
    FloorOf(h(k, e) * size, B);
  }

  lemma {:induction false} FloorOf(n: nat, d: nat)
    requires d > 0
    ensures n / d * d <= n < (n / d + 1) * d
  {
  }

  /** Slot `i` is one of the locations of the element. */
  ghost predicate AtHome(h: Hash, size: nat, e: Element, i: nat) {
    exists k :: 0 <= k < 8 && ComputeHashes(h, size, e)[k] == i
  }

  /** Every element lies at one of its locations. */
  ghost predicate Homes(h: Hash, table: seq<Element>) {
    forall i {:trigger table[i]} :: 0 <= i < |table| && table[i] != DEFAULT ==> AtHome(h, |table|, table[i], i)
  }

  /** No element lies in two slots. */
  ghost predicate OneSlot(table: seq<Element>) {
    forall i, j {:trigger table[i], table[j]} :: 0 <= i < |table| && 0 <= j < |table| && table[i] == table[j] != DEFAULT ==> i == j
  }

  /** A slot that is not up for collection holds an element. */
  ghost predicate KeptFull(table: seq<Element>, erasable: seq<bool>) {
    |erasable| == |table| && forall i {:trigger erasable[i]} :: 0 <= i < |table| && !erasable[i] ==> table[i] != DEFAULT
  }

  ghost predicate TableOk(h: Hash, table: seq<Element>, erasable: seq<bool>) {
    Homes(h, table) && OneSlot(table) && KeptFull(table, erasable)
  }

  /** The elements that are not up for collection. */
  ghost function Live(table: seq<Element>, erasable: seq<bool>): set<Element>
    requires |erasable| == |table|
  {
    set i | 0 <= i < |table| && !erasable[i] :: table[i]
  }

  /** The slots of the current epoch that are not up for collection. */
  ghost function Recent(epoch: seq<bool>, erasable: seq<bool>): nat
    requires |erasable| == |epoch|
  {
    RecentUpTo(epoch, erasable, |epoch|)
  }

  ghost function RecentUpTo(epoch: seq<bool>, erasable: seq<bool>, n: nat): nat
    requires |erasable| == |epoch| && n <= |epoch|
  {
    if n == 0 then 0 else RecentUpTo(epoch, erasable, n - 1) + if epoch[n - 1] && !erasable[n - 1] then 1 else 0
  }

  /** The live elements of the current epoch. */
  ghost function RecentLive(table: seq<Element>, epoch: seq<bool>, erasable: seq<bool>): set<Element>
    requires |erasable| == |epoch| == |table|
  {
    set i | 0 <= i < |table| && epoch[i] && !erasable[i] :: table[i]
  }

  ghost function Only(b: bool, e: Element): set<Element> {
    if b then {e} else {}
  }

  // ---------- Putting an element into a slot ----------

  lemma {:induction false} PutHomes(h: Hash, table: seq<Element>, loc: nat, e: Element)
    requires Homes(h, table) && OneSlot(table) && loc < |table| && AtHome(h, |table|, e, loc) && e !in table
    ensures Homes(h, table[loc := e]) && OneSlot(table[loc := e])
  {
  }

  /** The element that was there is gone from the table. */
  lemma {:induction false} PutOut(table: seq<Element>, loc: nat, e: Element)
    requires OneSlot(table) && loc < |table| && table[loc] != DEFAULT && e !in table
    ensures table[loc] !in table[loc := e]
  {
    var u := table[loc := e];
    forall i | 0 <= i < |u| ensures u[i] != table[loc] {
      assert i != loc ==> u[i] == table[i];
    }
  }

  /** Over a slot up for collection: one more live element. */
  lemma {:induction false} PutLive(table: seq<Element>, erasable: seq<bool>, loc: nat, e: Element)
    requires |erasable| == |table| && loc < |table| && erasable[loc]
    ensures Live(table[loc := e], erasable[loc := false]) == Live(table, erasable) + {e}
  {
    var u, f := table[loc := e], erasable[loc := false];
    forall x | x in Live(table, erasable) ensures x in Live(u, f) {
      var i :| 0 <= i < |table| && !erasable[i] && table[i] == x;
      assert u[i] == x && !f[i];
    }
    assert u[loc] == e && !f[loc];
  }

  /** Over a live element: it makes room for the new one. */
  lemma {:induction false} SwapLive(table: seq<Element>, erasable: seq<bool>, loc: nat, e: Element)
    requires |erasable| == |table| && loc < |table| && !erasable[loc] && OneSlot(table) && KeptFull(table, erasable) && e !in table
    ensures Live(table[loc := e], erasable) + {table[loc]} == Live(table, erasable) + {e}
  {
    var u := table[loc := e];
    forall x | x in Live(table, erasable) ensures x in Live(u, erasable) + {table[loc]} {
      var i :| 0 <= i < |table| && !erasable[i] && table[i] == x;
      assert i != loc ==> u[i] == x;
    }
    assert u[loc] == e;
    assert table[loc] in Live(table, erasable);
  }

  lemma {:induction false} PutRecent(table: seq<Element>, epoch: seq<bool>, erasable: seq<bool>, loc: nat, e: Element, b: bool)
    requires |erasable| == |table| == |epoch| && loc < |table| && erasable[loc]
    ensures RecentLive(table[loc := e], epoch[loc := b], erasable[loc := false]) == RecentLive(table, epoch, erasable) + Only(b, e)
  {
    var u, c, f := table[loc := e], epoch[loc := b], erasable[loc := false];
    forall x | x in RecentLive(table, epoch, erasable) ensures x in RecentLive(u, c, f) {
      var i :| 0 <= i < |table| && epoch[i] && !erasable[i] && table[i] == x;
      assert u[i] == x && c[i] && !f[i];
    }
    assert u[loc] == e && c[loc] == b && !f[loc];
  }

  lemma {:induction false} SwapRecent(table: seq<Element>, epoch: seq<bool>, erasable: seq<bool>, loc: nat, e: Element, b: bool)
    requires |table| == |epoch| && KeptFull(table, erasable) && OneSlot(table) && loc < |table| && !erasable[loc] && e !in table
    ensures RecentLive(table[loc := e], epoch[loc := b], erasable) + Only(epoch[loc], table[loc]) == RecentLive(table, epoch, erasable) + Only(b, e)
  {
    var u, c := table[loc := e], epoch[loc := b];
    forall x | x in RecentLive(table, epoch, erasable) ensures x in RecentLive(u, c, erasable) + Only(epoch[loc], table[loc]) {
      var i :| 0 <= i < |table| && epoch[i] && !erasable[i] && table[i] == x;
      assert i != loc ==> u[i] == x && c[i];
    }
    assert u[loc] == e && c[loc] == b;
    assert epoch[loc] ==> table[loc] in RecentLive(table, epoch, erasable);
  }

  // ---------- Counting ----------

  lemma {:induction false} RecentSet(epoch: seq<bool>, erasable: seq<bool>, loc: nat, b: bool, f: bool, n: nat)
    requires |erasable| == |epoch| && loc < |epoch| && n <= |epoch|
    ensures RecentUpTo(epoch[loc := b], erasable[loc := f], n) ==
            RecentUpTo(epoch, erasable, n) + if loc < n then One(b && !f) - One(epoch[loc] && !erasable[loc]) else 0
    decreases n
  {
    if n > 0 {
      RecentSet(epoch, erasable, loc, b, f, n - 1);
    }
  }

  function One(b: bool): int {
    if b then 1 else 0
  }
}
