/** The cuckoo cache: eight locations for each element, lazy erasure, and epochs that age the elements. */
module CuckooCaches {
  import opened Basics
  import opened LimbMath
  import opened CuckooTables

  /** A location that no slot has. */
  const INVALID: nat := 0xffff_ffff

  // ---------- Moving elements ----------

  /** The first location up for collection, or 8. */
  method FindErasable(erasable: seq<bool>, locs: seq<nat>) returns (k: nat)
    requires |locs| == 8 && forall i :: 0 <= i < 8 ==> locs[i] < |erasable|
    ensures k <= 8 && (k < 8 ==> erasable[locs[k]]) && forall i :: 0 <= i < k ==> !erasable[locs[i]]
  {
    k := 0;
    while k < 8 && !erasable[locs[k]]
      invariant k <= 8 && forall i :: 0 <= i < k ==> !erasable[locs[i]]
    {
      k := k + 1;
    }
  }

  /** A location that is followed by itself where it first occurs. */
  ghost predicate Repeated(locs: seq<nat>, i: nat)
    requires |locs| == 8 && i < 8
  {
    locs[(i + 1) % 8] == locs[i] && locs[i] !in locs[..i]
  }

  /** The location after the last one looked at, cyclically; the second one if that is none of them. It is another
      location, so that the element just put in is not moved, unless the last one is followed by itself. */
  method NextLocation(locs: seq<nat>, lastLoc: nat) returns (k: nat)
    requires |locs| == 8
    ensures k < 8 && (lastLoc !in locs ==> k == 1)
    ensures lastLoc in locs ==> locs[(k + 7) % 8] == lastLoc && lastLoc !in locs[..(k + 7) % 8]
    ensures locs[k] == lastLoc <==> exists i :: 0 <= i < 8 && Repeated(locs, i) && locs[i] == lastLoc
  {
    var i := 0;
    while i < 8 && locs[i] != lastLoc
      invariant i <= 8 && forall j :: 0 <= j < i ==> locs[j] != lastLoc
    {
      i := i + 1;
    }
    k := (1 + i) % 8;
    assert i < 8 ==> (k + 7) % 8 == i;
    assert i < 8 ==> (locs[k] == lastLoc <==> Repeated(locs, i));
  }

  /** What a displacement keeps: the element `e` is on its way, with its epoch, in place of `e0`. */
  ghost predicate Carrying(h: Hash, table0: seq<Element>, erasable: seq<bool>, epoch0: seq<bool>, e0: Element,
                           table: seq<Element>, epoch: seq<bool>, e: Element, b: bool)
    requires |table0| == |epoch0| == |erasable|
  {
    && |table| == |table0| == |epoch| && TableOk(h, table, erasable) && e != DEFAULT && e !in table
    && Live(table, erasable) + {e} == Live(table0, erasable) + {e0}
    && Recent(epoch, erasable) + One(b) == Recent(epoch0, erasable) + 1
    && RecentLive(table, epoch, erasable) + Only(b, e) == RecentLive(table0, epoch0, erasable) + {e0}
    && (e in table0 || e == e0) && forall x :: x in table ==> x in table0 || x == e0
  }

  // ---------- The way of a displacement ----------

  /** No location of the element is up for collection. */
  ghost predicate Blocked(h: Hash, erasable: seq<bool>, e: Element) {
    forall k :: 0 <= k < 8 ==> ComputeHashes(h, |erasable|, e)[k] < |erasable| && !erasable[ComputeHashes(h, |erasable|, e)[k]]
  }

  /** The first location of the element that is up for collection. */
  ghost predicate FirstFree(h: Hash, erasable: seq<bool>, e: Element, loc: nat) {
    var locs := ComputeHashes(h, |erasable|, e);
    && loc < |erasable| && erasable[loc]
    && exists k :: 0 <= k < 8 && locs[k] == loc && forall i :: 0 <= i < k ==> locs[i] < |erasable| && !erasable[locs[i]]
  }

  /** `loc` comes after the place where `last` first occurs, or is the second one. */
  ghost predicate ComesAfter(locs: seq<nat>, last: nat, loc: nat)
    requires |locs| == 8
  {
    exists k :: 0 <= k < 8 && NextAt(locs, last, loc, k)
  }

  ghost predicate NextAt(locs: seq<nat>, last: nat, loc: nat, k: nat)
    requires |locs| == 8 && k < 8
  {
    locs[k] == loc && if last in locs then locs[(k + 7) % 8] == last && last !in locs[..(k + 7) % 8] else k == 1
  }

  /** The element `e` was put into `loc` of the table `before`. */
  datatype Hop = Hop(e: Element, loc: nat, before: seq<Element>)

  ghost function LastLoc(hops: seq<Hop>): nat {
    if hops == [] then INVALID else hops[|hops| - 1].loc
  }

  /** Each element on the way was blocked, and took the place of the next one. */
  ghost predicate Trail(h: Hash, erasable: seq<bool>, table0: seq<Element>, e0: Element, hops: seq<Hop>, table: seq<Element>, e: Element)
    decreases |hops|
  {
    if hops == [] then table == table0 && e == e0
    else
      var n := |hops| - 1;
      var p := hops[n];
      && Trail(h, erasable, table0, e0, hops[..n], p.before, p.e) && Blocked(h, erasable, p.e)
      && ComesAfter(ComputeHashes(h, |erasable|, p.e), LastLoc(hops[..n]), p.loc)
      && p.loc < |p.before| && table == p.before[p.loc := p.e] && e == p.before[p.loc]
  }

  lemma {:induction false} TrailNext(h: Hash, erasable: seq<bool>, table0: seq<Element>, e0: Element, hops: seq<Hop>,
                                     table: seq<Element>, e: Element, loc: nat)
    requires Trail(h, erasable, table0, e0, hops, table, e) && Blocked(h, erasable, e) && loc < |table|
    requires ComesAfter(ComputeHashes(h, |erasable|, e), LastLoc(hops), loc)
    ensures Trail(h, erasable, table0, e0, hops + [Hop(e, loc, table)], table[loc := e], table[loc])
  {
    var more := hops + [Hop(e, loc, table)];
    assert more[..|more| - 1] == hops;
  }

  lemma {:induction false} TrailStart(h: Hash, erasable: seq<bool>, table0: seq<Element>, e0: Element, hops: seq<Hop>, table: seq<Element>, e: Element)
    requires Trail(h, erasable, table0, e0, hops, table, e) && !Blocked(h, erasable, e0)
    ensures hops == [] && table == table0 && e == e0
    decreases |hops|
  {
    if hops != [] {
      var p := hops[|hops| - 1];
      TrailStart(h, erasable, table0, e0, hops[..|hops| - 1], p.before, p.e);
    }
  }

  /** What has moved when a displacement ends, and the element that is left over. */
  datatype Way = Way(hops: seq<Hop>, table: seq<Element>, e: Element)

  /** The last element on the way is put into its first location up for collection; or, after as many rounds as are
      allowed, it is lost. */
  ghost predicate Ends(h: Hash, depthLimit: nat, table0: seq<Element>, erasable0: seq<bool>, e0: Element, way: Way,
                       table: seq<Element>, erasable: seq<bool>, lost: set<Element>) {
    && Trail(h, erasable0, table0, e0, way.hops, way.table, way.e)
    && if lost == {} then |way.hops| < depthLimit && exists loc :: EndsAt(h, erasable0, way, table, erasable, loc)
       else lost == {way.e} && |way.hops| == depthLimit && table == way.table && erasable == erasable0
  }

  ghost predicate EndsAt(h: Hash, erasable0: seq<bool>, way: Way, table: seq<Element>, erasable: seq<bool>, loc: nat) {
    && FirstFree(h, erasable0, way.e, loc) && loc < |way.table|
    && table == way.table[loc := way.e] && erasable == erasable0[loc := false]
  }

  /** If there is a free location, and a round is allowed, the new element gets it and no other element moves. */
  lemma {:induction false} FreeTaken(h: Hash, depthLimit: nat, table0: seq<Element>, erasable0: seq<bool>, e0: Element, way: Way,
                                     table: seq<Element>, erasable: seq<bool>, lost: set<Element>)
    requires Ends(h, depthLimit, table0, erasable0, e0, way, table, erasable, lost) && depthLimit > 0 && !Blocked(h, erasable0, e0)
    ensures lost == {} && exists loc :: EndsAt(h, erasable0, Way([], table0, e0), table, erasable, loc)
  {
    TrailStart(h, erasable0, table0, e0, way.hops, way.table, way.e);
    var loc :| EndsAt(h, erasable0, way, table, erasable, loc);
  }

  lemma {:induction false} CarryOn(h: Hash, table0: seq<Element>, erasable: seq<bool>, epoch0: seq<bool>, e0: Element,
                                   table: seq<Element>, epoch: seq<bool>, e: Element, b: bool, loc: nat)
    requires |table0| == |epoch0| == |erasable| && Carrying(h, table0, erasable, epoch0, e0, table, epoch, e, b)
    requires loc < |table| && !erasable[loc] && AtHome(h, |table|, e, loc)
    ensures Carrying(h, table0, erasable, epoch0, e0, table[loc := e], epoch[loc := b], table[loc], epoch[loc])
  {
    Swapped(h, table, erasable, epoch, loc, e, b);
  }

  /** What a displacement does: of the live elements and the new one at most one is lost; each of the others keeps its
      epoch, and at most one more slot is recent. */
  ghost predicate Displaced(h: Hash, table0: seq<Element>, erasable0: seq<bool>, epoch0: seq<bool>, e0: Element,
                            table: seq<Element>, erasable: seq<bool>, epoch: seq<bool>, lost: set<Element>)
    requires |table0| == |epoch0| == |erasable0|
  {
    && |table| == |table0| == |epoch| && TableOk(h, table, erasable)
    && |lost| <= 1 && Live(table, erasable) == Live(table0, erasable0) + {e0} - lost
    && Recent(epoch, erasable) <= Recent(epoch0, erasable0) + 1
    && RecentLive(table, epoch, erasable) == RecentLive(table0, epoch0, erasable0) + {e0} - lost
    && (forall x :: x in table ==> x in table0 || x == e0) && (e0 in table <==> e0 !in lost)
  }

  /** The state of a displacement that goes on. */
  ghost predicate Walking(h: Hash, table0: seq<Element>, erasable: seq<bool>, epoch0: seq<bool>, e0: Element,
                          hops: seq<Hop>, table: seq<Element>, epoch: seq<bool>, e: Element, b: bool)
    requires |table0| == |epoch0| == |erasable|
  {
    Carrying(h, table0, erasable, epoch0, e0, table, epoch, e, b) && Trail(h, erasable, table0, e0, hops, table, e)
  }

  lemma {:induction false} WalkOn(h: Hash, table0: seq<Element>, erasable: seq<bool>, epoch0: seq<bool>, e0: Element,
                                  hops: seq<Hop>, table: seq<Element>, epoch: seq<bool>, e: Element, b: bool, loc: nat)
    requires |table0| == |epoch0| == |erasable| && Walking(h, table0, erasable, epoch0, e0, hops, table, epoch, e, b)
    requires Blocked(h, erasable, e) && loc < |table| && !erasable[loc] && AtHome(h, |table|, e, loc)
    requires ComesAfter(ComputeHashes(h, |erasable|, e), LastLoc(hops), loc)
    ensures Walking(h, table0, erasable, epoch0, e0, hops + [Hop(e, loc, table)], table[loc := e], epoch[loc := b], table[loc], epoch[loc])
  {
    CarryOn(h, table0, erasable, epoch0, e0, table, epoch, e, b, loc);
    TrailNext(h, erasable, table0, e0, hops, table, e, loc);
  }

  lemma {:induction false} WalkFree(h: Hash, table0: seq<Element>, erasable: seq<bool>, epoch0: seq<bool>, e0: Element,
                                    table: seq<Element>, epoch: seq<bool>, e: Element, b: bool, loc: nat)
    requires |table0| == |epoch0| == |erasable| && Carrying(h, table0, erasable, epoch0, e0, table, epoch, e, b)
    requires loc < |table| && erasable[loc] && AtHome(h, |table|, e, loc)
    ensures Displaced(h, table0, erasable, epoch0, e0, table[loc := e], erasable[loc := false], epoch[loc := b], {})
  {
    Placed(h, table, erasable, epoch, loc, e, b);
    var t, f := table[loc := e], erasable[loc := false];
    assert |t| == |table0| && |f| == |erasable|;
    assert Live(t, f) == Live(table0, erasable) + {e0} - {};
    LiveInTable(t, f, e0);
  }

  lemma {:induction false} LiveInTable(table: seq<Element>, erasable: seq<bool>, e: Element)
    requires |erasable| == |table| && e in Live(table, erasable)
    ensures e in table
  {
  }

  lemma {:induction false} WalkLost(h: Hash, table0: seq<Element>, erasable: seq<bool>, epoch0: seq<bool>, e0: Element,
                                    table: seq<Element>, epoch: seq<bool>, e: Element, b: bool)
    requires |table0| == |epoch0| == |erasable| && Carrying(h, table0, erasable, epoch0, e0, table, epoch, e, b)
    ensures Displaced(h, table0, erasable, epoch0, e0, table, erasable, epoch, {e})
  {
    NotLive(table, epoch, erasable, e);
    if e != e0 {
      LiveInTable(table, erasable, e0);
    }
  }

  /** The first location of the element that is up for collection, or else the one after the last looked at. */
  method Look(h: Hash, erasable: seq<bool>, e: Element, lastLoc: nat) returns (free: bool, loc: nat)
    requires HashOk(h) && |erasable| > 0
    ensures loc < |erasable| && AtHome(h, |erasable|, e, loc) && (free <==> erasable[loc])
    ensures if free then FirstFree(h, erasable, e, loc)
            else Blocked(h, erasable, e) && ComesAfter(ComputeHashes(h, |erasable|, e), lastLoc, loc)
  {
    var locs := ComputeHashes(h, |erasable|, e);
    LocationsBelow(h, |erasable|, e);
    var k := FindErasable(erasable, locs);
    free := k < 8;
    if !free {
      k := NextLocation(locs, lastLoc);
      assert NextAt(locs, lastLoc, locs[k], k);
    }
    loc := locs[k];
  }

  lemma {:induction false} EndFree(h: Hash, depthLimit: nat, table0: seq<Element>, erasable0: seq<bool>, e0: Element, way: Way, loc: nat)
    requires Trail(h, erasable0, table0, e0, way.hops, way.table, way.e) && |way.hops| < depthLimit
    requires FirstFree(h, erasable0, way.e, loc) && loc < |way.table|
    ensures Ends(h, depthLimit, table0, erasable0, e0, way, way.table[loc := way.e], erasable0[loc := false], {})
  {
    assert EndsAt(h, erasable0, way, way.table[loc := way.e], erasable0[loc := false], loc);
  }

  /** Put an element that is not in the table into one of its locations, moving others on, up to the depth limit. */
  method Displace(h: Hash, table0: seq<Element>, erasable0: seq<bool>, epoch0: seq<bool>, e0: Element, depthLimit: nat)
    returns (table: seq<Element>, erasable: seq<bool>, epoch: seq<bool>, ghost lost: set<Element>, ghost way: Way)
    requires HashOk(h) && 0 < |table0| == |epoch0| && TableOk(h, table0, erasable0) && e0 != DEFAULT && e0 !in table0
    ensures Displaced(h, table0, erasable0, epoch0, e0, table, erasable, epoch, lost)
    ensures Ends(h, depthLimit, table0, erasable0, e0, way, table, erasable, lost)
  {
    table, erasable, epoch, lost := table0, erasable0, epoch0, {};
    var e, lastLoc, lastEpoch := e0, INVALID, true;
    var depth := 0;
    ghost var hops := [];
    while depth < depthLimit
      invariant Walking(h, table0, erasable0, epoch0, e0, hops, table, epoch, e, lastEpoch)
      invariant erasable == erasable0 && |hops| == depth <= depthLimit && lastLoc == LastLoc(hops)
    {
      var free, loc := Look(h, erasable, e, lastLoc);
      if free {
        way := Way(hops, table, e);
        WalkFree(h, table0, erasable, epoch0, e0, table, epoch, e, lastEpoch, loc);
        EndFree(h, depthLimit, table0, erasable, e0, way, loc);
        table, erasable, epoch := table[loc := e], erasable[loc := false], epoch[loc := lastEpoch];
        return;
      }
      lastLoc := loc;
      WalkOn(h, table0, erasable, epoch0, e0, hops, table, epoch, e, lastEpoch, lastLoc);
      hops := hops + [Hop(e, lastLoc, table)];
      var out, outEpoch := table[lastLoc], epoch[lastLoc];
      table, epoch := table[lastLoc := e], epoch[lastLoc := lastEpoch];
      e, lastEpoch := out, outEpoch;
      depth := depth + 1;
    }
    lost, way := {e}, Way(hops, table, e);
    WalkLost(h, table0, erasable, epoch0, e0, table, epoch, e, lastEpoch);
  }

  lemma {:induction false} NotLive(table: seq<Element>, epoch: seq<bool>, erasable: seq<bool>, e: Element)
    requires |erasable| == |table| == |epoch| && e !in table
    ensures e !in Live(table, erasable) && e !in RecentLive(table, epoch, erasable)
  {
  }

  /** Into a slot up for collection. */
  lemma {:induction false} Placed(h: Hash, table: seq<Element>, erasable: seq<bool>, epoch: seq<bool>, loc: nat, e: Element, b: bool)
    requires |table| == |epoch| && TableOk(h, table, erasable) && loc < |table| && erasable[loc] && e != DEFAULT && e !in table
    requires AtHome(h, |table|, e, loc)
    ensures TableOk(h, table[loc := e], erasable[loc := false])
    ensures Live(table[loc := e], erasable[loc := false]) == Live(table, erasable) + {e}
    ensures Recent(epoch[loc := b], erasable[loc := false]) == Recent(epoch, erasable) + One(b)
    ensures RecentLive(table[loc := e], epoch[loc := b], erasable[loc := false]) == RecentLive(table, epoch, erasable) + Only(b, e)
    ensures forall x :: x in table[loc := e] ==> x in table || x == e
  {
    PutHomes(h, table, loc, e);
    PutLive(table, erasable, loc, e);
    PutRecent(table, epoch, erasable, loc, e, b);
    RecentSet(epoch, erasable, loc, b, false, |epoch|);
  }

  /** In exchange for a live element, which has no other slot. */
  lemma {:induction false} Swapped(h: Hash, table: seq<Element>, erasable: seq<bool>, epoch: seq<bool>, loc: nat, e: Element, b: bool)
    requires |table| == |epoch| && TableOk(h, table, erasable) && loc < |table| && !erasable[loc] && e != DEFAULT && e !in table
    requires AtHome(h, |table|, e, loc)
    ensures TableOk(h, table[loc := e], erasable) && table[loc] != DEFAULT && table[loc] !in table[loc := e]
    ensures Live(table[loc := e], erasable) + {table[loc]} == Live(table, erasable) + {e}
    ensures Recent(epoch[loc := b], erasable) + One(epoch[loc]) == Recent(epoch, erasable) + One(b)
    ensures RecentLive(table[loc := e], epoch[loc := b], erasable) + Only(epoch[loc], table[loc]) == RecentLive(table, epoch, erasable) + Only(b, e)
    ensures forall x :: x in table[loc := e] ==> x in table || x == e
  {
    PutHomes(h, table, loc, e);
    PutOut(table, loc, e);
    SwapLive(table, erasable, loc, e);
    SwapRecent(table, epoch, erasable, loc, e, b);
    RecentSet(epoch, erasable, loc, b, false, |epoch|);
    assert erasable[loc := false] == erasable;
  }

  // ---------- Epochs ----------

  /** How far the current epoch may grow beyond its size before it is noticed. */
  function Slack(epochSize: nat): nat {
    Max(1, epochSize / 16)
  }

  /** The number of recent slots. */
  method CountRecent(epoch: seq<bool>, erasable: seq<bool>) returns (count: nat)
    requires |erasable| == |epoch|
    ensures count == Recent(epoch, erasable)
  {
    count := 0;
    for i := 0 to |epoch|
      invariant count == RecentUpTo(epoch, erasable, i)
    {
      if epoch[i] && !erasable[i] {
        count := count + 1;
      }
    }
  }

  /** Demote the current epoch, and put the one before it up for collection. */
  method AgeEpoch(epoch0: seq<bool>, erasable0: seq<bool>) returns (epoch: seq<bool>, erasable: seq<bool>)
    requires |erasable0| == |epoch0|
    ensures |epoch| == |erasable| == |epoch0|
    ensures forall i :: 0 <= i < |epoch| ==> !epoch[i] && (erasable[i] <==> erasable0[i] || !epoch0[i])
  {
    epoch, erasable := epoch0, erasable0;
    for i := 0 to |epoch0|
      invariant |epoch| == |erasable| == |epoch0|
      invariant forall j :: 0 <= j < i ==> !epoch[j] && (erasable[j] <==> erasable0[j] || !epoch0[j])
      invariant forall j :: i <= j < |epoch0| ==> epoch[j] == epoch0[j] && erasable[j] == erasable0[j]
    {
      if epoch[i] {
        epoch := epoch[i := false];
      } else {
        erasable := erasable[i := true];
      }
    }
  }

  lemma {:induction false} NoneRecent(epoch: seq<bool>, erasable: seq<bool>, n: nat)
    requires |erasable| == |epoch| && n <= |epoch| && forall i :: 0 <= i < |epoch| ==> !epoch[i]
    ensures RecentUpTo(epoch, erasable, n) == 0
    decreases n
  {
    if n > 0 {
      NoneRecent(epoch, erasable, n - 1);
    }
  }

  /** The flags after an epoch check, which ages the epochs if the current one is full. */
  ghost function AgedFlags(full: bool, epoch: seq<bool>, erasable: seq<bool>): (r: seq<bool>)
    requires |erasable| == |epoch|
    ensures |r| == |epoch|
  {
    if full then seq(|epoch|, i requires 0 <= i < |epoch| => erasable[i] || !epoch[i]) else erasable
  }

  ghost function AgedEpoch(full: bool, epoch: seq<bool>): (r: seq<bool>)
    ensures |r| == |epoch|
  {
    if full then seq(|epoch|, _ => false) else epoch
  }

  /** The number of inserts before the next scan: a scan comes before the epoch can be over its size by a sixteenth. */
  ghost function NextCounter(counter: nat, epochSize: nat, recent: nat): nat {
    if counter > 0 then counter - 1
    else if recent >= epochSize then epochSize
    else Max(1, Max(epochSize / 16, epochSize - recent))
  }

  /** The slot of the element is kept, as a recent one. */
  ghost predicate StaysAt(table: seq<Element>, flags0: seq<bool>, epoch0: seq<bool>, e: Element, flags: seq<bool>, epoch: seq<bool>)
    requires |flags0| == |epoch0| == |table|
  {
    exists i :: 0 <= i < |table| && table[i] == e && flags == flags0[i := false] && epoch == epoch0[i := true]
  }

  lemma {:induction false} StillFull(table: seq<Element>, erasable: seq<bool>, more: seq<bool>)
    requires KeptFull(table, erasable) && |more| == |table| && forall i :: 0 <= i < |table| ==> erasable[i] ==> more[i]
    ensures KeptFull(table, more)
  {
  }

  // ---------- The cache ----------

  class Cache {
    const hash: Hash
    const size: nat
    const epochSize: nat
    const depthLimit: nat
    var table: seq<Element>
    var collectionFlags: seq<bool>
    var epochFlags: seq<bool>
    var epochHeuristicCounter: nat
    /** Everything inserted so far. */
    ghost var inserted: set<Element>

    /** The table is in order, holds nothing that was not inserted, and the current epoch is not much over its size. */
    ghost predicate Valid()
      reads this
    {
      && Sound()
      && Recent(epochFlags, collectionFlags) + epochHeuristicCounter <= epochSize + Slack(epochSize)
    }

    ghost predicate Sound()
      reads this
    {
      && HashOk(hash) && size >= 2 && epochSize >= 1 && |table| == |epochFlags| == size
      && TableOk(hash, table, collectionFlags)
      && DEFAULT !in inserted && forall i :: 0 <= i < |table| && table[i] != DEFAULT ==> table[i] in inserted
    }

    /** The current epoch is full, and the next insert will notice. */
    ghost predicate EpochFull()
      requires |collectionFlags| == |epochFlags|
      reads this
    {
      epochHeuristicCounter == 0 && Recent(epochFlags, collectionFlags) >= epochSize
    }

    ghost function LiveElements(): set<Element>
      requires |collectionFlags| == |table|
      reads this
    {
      Live(table, collectionFlags)
    }

    /** `setup`: an empty table, everything up for collection. */
    constructor (h: Hash, newSize: nat, depth: nat)
      requires HashOk(h) && newSize < B
      ensures Valid() && hash == h && size == Max(2, newSize) && depthLimit == depth && LiveElements() == {} && inserted == {}
      ensures epochSize == epochHeuristicCounter == Max(1, 45 * size % B / 100)
      ensures forall i :: 0 <= i < size ==> collectionFlags[i] && !epochFlags[i]
      ensures fresh(this) && forall i :: 0 <= i < size ==> table[i] == DEFAULT
    {
      hash, size, depthLimit := h, Max(2, newSize), depth;
      var n := Max(2, newSize);
      epochSize := Max(1, 45 * n % B / 100);
      epochHeuristicCounter := Max(1, 45 * n % B / 100);
      table, collectionFlags, epochFlags := seq(n, _ => DEFAULT), seq(n, _ => true), seq(n, _ => false);
      inserted := {};
      new;
      NoneRecent(epochFlags, collectionFlags, |epochFlags|);
    }

    /**
     * Before every insert: count down, or scan and age the epoch when it is full. Afterwards there is room for one
     * more recent element; ageing leaves just the recent elements live.
     */
    method EpochCheck()
      requires Valid()
      modifies `collectionFlags, `epochFlags, `epochHeuristicCounter
      ensures Sound() && Recent(epochFlags, collectionFlags) + epochHeuristicCounter + 1 <= epochSize + Slack(epochSize)
      ensures LiveElements() == if old(EpochFull()) then old(RecentLive(table, epochFlags, collectionFlags)) else old(LiveElements())
      ensures collectionFlags == AgedFlags(old(EpochFull()), old(epochFlags), old(collectionFlags))
      ensures epochFlags == AgedEpoch(old(EpochFull()), old(epochFlags))
      ensures epochHeuristicCounter == NextCounter(old(epochHeuristicCounter), epochSize, old(Recent(epochFlags, collectionFlags)))
    {
      if epochHeuristicCounter != 0 {
        epochHeuristicCounter := epochHeuristicCounter - 1;
        return;
      }
      var epochUnusedCount := CountRecent(epochFlags, collectionFlags);
      if epochUnusedCount >= epochSize {
        ghost var was := collectionFlags;
        epochFlags, collectionFlags := AgeEpoch(epochFlags, collectionFlags);
        epochHeuristicCounter := epochSize;
        NoneRecent(epochFlags, collectionFlags, |epochFlags|);
        StillFull(table, was, collectionFlags);
        assert epochFlags == AgedEpoch(true, old(epochFlags)) && collectionFlags == AgedFlags(true, old(epochFlags), was);
      } else {
        epochHeuristicCounter := Max(1, Max(epochSize / 16, epochSize - epochUnusedCount));
      }
    }

    /** Where the element is, among its locations; 8 if it is not in the table. */
    method Find(e: Element) returns (k: nat, locs: seq<nat>)
      requires Sound()
      ensures locs == ComputeHashes(hash, size, e) && (forall i :: 0 <= i < 8 ==> locs[i] < size) && k <= 8
      ensures (k < 8 ==> table[locs[k]] == e) && forall i :: 0 <= i < k ==> table[locs[i]] != e
      ensures k == 8 && e != DEFAULT ==> e !in table
    {
      locs := ComputeHashes(hash, size, e);
      LocationsBelow(hash, size, e);
      k := 0;
      while k < 8 && table[locs[k]] != e
        invariant k <= 8 && forall i :: 0 <= i < k ==> table[locs[i]] != e
      {
        k := k + 1;
      }
    }

    /** Whether the element is in the table, erased or not; if so it may be put up for collection. */
    method Contains(e: Element, erase: bool) returns (found: bool)
      requires Valid()
      modifies `collectionFlags
      ensures Valid()
      ensures found <==> exists i :: 0 <= i < size && AtHome(hash, size, e, i) && table[i] == e
      ensures e != DEFAULT ==> (found <==> e in table) && (found ==> e in inserted)
      ensures !(found && erase) ==> collectionFlags == old(collectionFlags)
      ensures found && erase ==> exists i :: 0 <= i < size && table[i] == e && collectionFlags == old(collectionFlags)[i := true]
      ensures found && erase && e != DEFAULT ==> LiveElements() == old(LiveElements()) - {e}
    {
      var k, locs := Find(e);
      found := k < 8;
      if found && erase {
        var loc := locs[k];
        ghost var was := collectionFlags;
        collectionFlags := collectionFlags[loc := true];
        StillFull(table, was, collectionFlags);
        RecentSet(epochFlags, was, loc, epochFlags[loc], true, |epochFlags|);
        assert epochFlags[loc := epochFlags[loc]] == epochFlags;
        EraseLive(table, was, loc);
      }
    }

    /**
     * Insert an element. What the epoch check keeps, all live elements or just those of a full current epoch, stays
     * live together with the new element, except for at most one of them; it is lost only if no element on the way had
     * a free location.
     */
    method Insert(e: Element) returns (ghost kept: set<Element>, ghost lost: set<Element>, ghost flags: seq<bool>, ghost epoch: seq<bool>, ghost way: Way)
      requires Valid() && e != DEFAULT
      modifies this
      ensures Valid() && inserted == old(inserted) + {e}
      ensures LiveElements() == kept + {e} - lost && |lost| <= 1 && (e in table <==> e !in lost)
      ensures kept == if old(EpochFull()) then old(RecentLive(table, epochFlags, collectionFlags)) else old(LiveElements())
      ensures flags == AgedFlags(old(EpochFull()), old(epochFlags), old(collectionFlags))
      ensures epoch == AgedEpoch(old(EpochFull()), old(epochFlags))
      ensures epochHeuristicCounter == NextCounter(old(epochHeuristicCounter), epochSize, old(Recent(epochFlags, collectionFlags)))
      ensures if e in old(table) then lost == {} && table == old(table) && StaysAt(table, flags, epoch, e, collectionFlags, epochFlags)
              else Displaced(hash, old(table), flags, epoch, e, table, collectionFlags, epochFlags, lost)
                   && Ends(hash, depthLimit, old(table), flags, e, way, table, collectionFlags, lost)
    {
      EpochCheck();
      kept, lost, flags, epoch := LiveElements(), {}, collectionFlags, epochFlags;
      way := Way([], table, e);
      inserted := inserted + {e};
      var k, locs := Find(e);
      if k < 8 {
        Keep(locs[k], e);
      } else {
        lost, way := Place(e);
      }
    }

    /** An element is found after it was inserted, unless it was the one to be lost; so always if it is there already,
        or if one of its locations is up for collection and a round is allowed. */
    method InsertThenContains(e: Element) returns (found: bool, ghost lost: set<Element>)
      requires Valid() && e != DEFAULT
      modifies this
      ensures Valid() && (found <==> e !in lost)
      ensures e in old(table) ==> found
      ensures depthLimit > 0 && !Blocked(hash, AgedFlags(old(EpochFull()), old(epochFlags), old(collectionFlags)), e) ==> found
    {
      ghost var was := table;
      ghost var kept, flags, epoch, way;
      kept, lost, flags, epoch, way := Insert(e);
      if e !in was && depthLimit > 0 && !Blocked(hash, flags, e) {
        FreeTaken(hash, depthLimit, was, flags, e, way, table, collectionFlags, lost);
      }
      found := Contains(e, false);
    }

    /** Erasing only permits collection: an element that was found is still found. */
    method EraseThenContains(e: Element) returns (answer: bool)
      requires Valid() && e != DEFAULT
      modifies this
      ensures Valid() && answer
    {
      ghost var kept, lost, flags, epoch, way;
      kept, lost, flags, epoch, way := Insert(e);
      var found := Contains(e, true);
      answer := true;
      if found {
        answer := Contains(e, false);
      }
    }

    /** The element is not there yet. */
    method Place(e: Element) returns (ghost lost: set<Element>, ghost way: Way)
      requires Sound() && e != DEFAULT && e !in table && e in inserted
      requires Recent(epochFlags, collectionFlags) + epochHeuristicCounter + 1 <= epochSize + Slack(epochSize)
      modifies `table, `collectionFlags, `epochFlags
      ensures Valid()
      ensures Displaced(hash, old(table), old(collectionFlags), old(epochFlags), e, table, collectionFlags, epochFlags, lost)
      ensures Ends(hash, depthLimit, old(table), old(collectionFlags), e, way, table, collectionFlags, lost)
    {
      table, collectionFlags, epochFlags, lost, way := Displace(hash, table, collectionFlags, epochFlags, e, depthLimit);
      assert forall i :: 0 <= i < |table| ==> table[i] in table;
    }

    /** The element is there already: make sure that it stays. */
    method Keep(loc: nat, ghost e: Element)
      requires Sound() && loc < size && table[loc] == e != DEFAULT
      requires Recent(epochFlags, collectionFlags) + epochHeuristicCounter + 1 <= epochSize + Slack(epochSize)
      modifies `collectionFlags, `epochFlags
      ensures Valid() && LiveElements() == old(LiveElements()) + {e}
      ensures StaysAt(table, old(collectionFlags), old(epochFlags), e, collectionFlags, epochFlags)
    {
      RecentSet(epochFlags, collectionFlags, loc, true, false, |epochFlags|);
      KeepLive(table, collectionFlags, loc);
      collectionFlags := collectionFlags[loc := false];
      epochFlags := epochFlags[loc := true];
    }
  }

  lemma {:induction false} EraseLive(table: seq<Element>, erasable: seq<bool>, loc: nat)
    requires |erasable| == |table| && loc < |table| && OneSlot(table)
    ensures table[loc] != DEFAULT ==> Live(table, erasable[loc := true]) == Live(table, erasable) - {table[loc]}
  {
    if table[loc] != DEFAULT {
      var f := erasable[loc := true];
      forall x | x in Live(table, erasable) - {table[loc]} ensures x in Live(table, f) {
        var i :| 0 <= i < |table| && !erasable[i] && table[i] == x;
        assert !f[i];
      }
    }
  }

  lemma {:induction false} KeepLive(table: seq<Element>, erasable: seq<bool>, loc: nat)
    requires |erasable| == |table| && loc < |table|
    ensures Live(table, erasable[loc := false]) == Live(table, erasable) + {table[loc]}
  {
    var f := erasable[loc := false];
    forall x | x in Live(table, erasable) ensures x in Live(table, f) {
      var i :| 0 <= i < |table| && !erasable[i] && table[i] == x;
      assert !f[i];
    }
    assert !f[loc];
  }

  /** The default element cannot be told from an empty slot: a new cache already contains it, and nothing else. */
  method NewCacheContains(h: Hash, newSize: nat, depth: nat, e: Element) returns (found: bool)
    requires HashOk(h) && newSize < B
    ensures found <==> e == DEFAULT
  {
    var cache := new Cache(h, newSize, depth);
    LocationsBelow(h, cache.size, e);
    assert AtHome(h, cache.size, e, ComputeHashes(h, cache.size, e)[0]);
    found := cache.Contains(e, false);
  }
}
