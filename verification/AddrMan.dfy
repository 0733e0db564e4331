/** The address manager (`AddrManImpl`), updated in place. */
module AddrManagers {
  import opened Basics
  import opened AddrBooks
  import opened AddrSteps
  import opened AddrMoves

  const HOUR: int := 3600
  const DAY: int := 86400
  const HORIZON: int := 30 * DAY
  const RETRIES: int := 3
  const MAX_FAILURES: int := 10
  const MIN_FAIL: int := 7 * DAY
  const REPLACEMENT: int := 4 * HOUR
  const TRIED_COLLISION_SIZE: nat := 10
  const TEST_WINDOW: int := 40 * 60

  /** Whether an entry of the new table may be thrown away. */
  predicate IsTerrible(i: AddrInfo, now: int) {
    if now - i.lastTry <= 60 then false
    else if i.time > now + 600 then true
    else if now - i.time > HORIZON then true
    else if i.lastSuccess == 0 && i.attempts >= RETRIES then true
    else now - i.lastSuccess > MIN_FAIL && i.attempts >= MAX_FAILURES
  }

  /** Nothing tried within the last minute is terrible; otherwise everything is that is dated more than ten minutes
      ahead, was not seen for 30 days, failed three times without ever a success, or ten times in a week without one. */
  lemma {:induction false} TerribleExactly(i: AddrInfo, now: int)
    ensures IsTerrible(i, now) <==>
            now > i.lastTry + 60 && (i.time > now + 600 || now > i.time + 2592000 || (i.lastSuccess == 0 && i.attempts >= 3)
                                     || (now > i.lastSuccess + 604800 && i.attempts >= 10))
  {
  }

  /** The time of an entry is updated now and then, more often if the address was seen lately. */
  function Refreshed(i: AddrInfo, time: int, penalty: int, now: int): AddrInfo {
    if i.time < time - (if now - time < DAY then HOUR else DAY) - penalty then i.(time := Max(0, time - penalty)) else i
  }

  /** A failed attempt counts once between two successes with anyone. */
  function Attempted(i: AddrInfo, countFailure: bool, time: int, lastGood: int): AddrInfo {
    var j := i.(lastTry := time);
    if countFailure && i.lastCountAttempt < lastGood then j.(lastCountAttempt := time, attempts := i.attempts + 1) else j
  }

  /** Attempts one after the other, without a success in between. */
  ghost function AttemptedAll(i: AddrInfo, tries: seq<(bool, int)>, lastGood: int): AddrInfo
    decreases |tries|
  {
    if tries == [] then i
    else Attempted(AttemptedAll(i, tries[..|tries| - 1], lastGood), tries[|tries| - 1].0, tries[|tries| - 1].1, lastGood)
  }

  /** Attempts that are not dated before the last success count once together, if one of them is to count. */
  lemma {:induction false} CountedOnce(i: AddrInfo, tries: seq<(bool, int)>, lastGood: int)
    requires forall k :: 0 <= k < |tries| ==> tries[k].1 >= lastGood
    ensures var counted := i.lastCountAttempt < lastGood && exists k :: 0 <= k < |tries| && tries[k].0;
            && AttemptedAll(i, tries, lastGood).attempts == i.attempts + (if counted then 1 else 0)
            && (AttemptedAll(i, tries, lastGood).lastCountAttempt < lastGood <==> i.lastCountAttempt < lastGood && !counted)
    decreases |tries|
  {
    if tries != [] {
      var n := |tries| - 1;
      CountedOnce(i, tries[..n], lastGood);
      assert (exists k :: 0 <= k < |tries| && tries[k].0) <==> tries[n].0 || exists k :: 0 <= k < n && tries[..n][k].0;
    }
  }

  /** A backdated attempt makes room for another one: two attempts count twice just if the first is dated before the last success. */
  lemma {:induction false} CountedTwice(i: AddrInfo, first: (bool, int), second: (bool, int), lastGood: int)
    ensures AttemptedAll(i, [first, second], lastGood).attempts == i.attempts + 2 <==>
            first.0 && second.0 && i.lastCountAttempt < lastGood && first.1 < lastGood
  {
    assert [first, second][..1] == [first] && [first][..0] == [];
    assert AttemptedAll(i, [first], lastGood) == Attempted(i, first.0, first.1, lastGood);
  }

  /** The slot of the new table may be given to the entry. */
  predicate MayTake(b: Book, id: Id, slot: Slot, now: int)
    requires id in b.mapInfo
  {
    slot in b.vvNew ==>
      && b.vvNew[slot] != id && b.vvNew[slot] in b.mapInfo
      && (IsTerrible(b.mapInfo[b.vvNew[slot]], now) || (b.mapInfo[b.vvNew[slot]].refCount > 1 && b.mapInfo[id].refCount == 0))
  }

  /** Adding an address that is known: its time is set if it is more than an hour behind, for an address seen within
      a day, and otherwise more than a day. It may get another place if that is news, unless it has eight or was tried. */
  ghost predicate KnownAdded(f: Layout, b: Book, addr: Service, time: int, source: Source, pen: int, now: int, b2: Book, inserted: bool)
    requires addr in b.mapAddr
  {
    var id := b.mapAddr[addr];
    && id in b.mapInfo
    && var i := b.mapInfo[id];
       var behind := i.time < time - pen - (if now - time < 86400 then 3600 else 86400);
       var b1 := WithInfo(b, id, i.(time := if behind then Max(0, time - pen) else i.time));
       if inserted then
         && time > b1.mapInfo[id].time && !i.inTried && i.refCount < 8 && MayTake(b1, id, NewSlot(f, addr, f.newBucket(addr, source)), now)
         && addr in b2.mapAddr && b2.mapAddr[addr] == id && SameFacts(b1, b2)
       else b2 == b1
  }

  /** Adding an address that is not known: it is entered if there is a place for it, without any attempts. */
  ghost predicate UnknownAdded(f: Layout, b: Book, addr: Service, time: int, source: Source, pen: int, now: int, b2: Book, inserted: bool) {
    && (inserted <==> Free(b, NewSlot(f, addr, f.newBucket(addr, source)), now)) && SameFacts(b, b2)
    && if inserted then
         && addr in b2.mapAddr && b2.mapAddr[addr] == b.nIdCount && b.nIdCount in b2.mapInfo
         && Bare(b2.mapInfo[b.nIdCount]) == AddrInfo(addr, source, Max(0, time - pen), 0, 0, 0, 0, 0, false, 0)
       else b2.mapAddr == b.mapAddr
  }

  /** The slot of the new table may be given to an entry that has no place yet. */
  predicate Free(b: Book, slot: Slot, now: int) {
    slot in b.vvNew ==> b.vvNew[slot] in b.mapInfo && (IsTerrible(b.mapInfo[b.vvNew[slot]], now) || b.mapInfo[b.vvNew[slot]].refCount > 1)
  }

  /** What was not seen for 30 days gives up its place to a new address, unless it was tried within a minute. */
  lemma {:induction false} OldGivesWay(f: Layout, b: Book, slot: Slot, now: int)
    requires Agree(f, b, {}, {}) && slot in b.vvNew
    ensures b.vvNew[slot] in b.mapInfo
    ensures now - b.mapInfo[b.vvNew[slot]].time > 2592000 && now - b.mapInfo[b.vvNew[slot]].lastTry > 60 ==> Free(b, slot, now)
  {
    assert NewAt(f, b, slot);
    TerribleExactly(b.mapInfo[b.vvNew[slot]], now);
  }

  /** What adding one address does. There is no penalty for an address that announces itself. */
  ghost predicate AddedOne(f: Layout, b: Book, addr: Service, time: int, source: Source, penalty: int, now: int, b2: Book, inserted: bool) {
    if !f.routable(addr) then !inserted && b2 == b
    else
      var pen := if f.host(addr) == source then 0 else penalty;
      && b2.vvTried == b.vvTried
      && (!inserted ==> b2.vvNew == b.vvNew)
      && (inserted ==> addr in b2.mapAddr && b2.vvNew == b.vvNew[NewSlot(f, addr, f.newBucket(addr, source)) := b2.mapAddr[addr]])
      && if addr in b.mapAddr then KnownAdded(f, b, addr, time, source, pen, now, b2, inserted)
         else UnknownAdded(f, b, addr, time, source, pen, now, b2, inserted)
  }

  /** The addresses were added one after the other, with these books before, between and after. */
  ghost predicate AddedAll(f: Layout, addrs: seq<(Service, int)>, source: Source, penalty: int, now: int, books: seq<Book>, ins: seq<bool>) {
    && |ins| <= |addrs| && |books| == |ins| + 1
    && forall k :: 0 <= k < |ins| ==> AddedOne(f, books[k], addrs[k].0, addrs[k].1, source, penalty, now, books[k + 1], ins[k])
  }

  lemma {:induction false} AddedNext(f: Layout, addrs: seq<(Service, int)>, source: Source, penalty: int, now: int, books: seq<Book>, ins: seq<bool>,
                                     b2: Book, inserted: bool)
    requires AddedAll(f, addrs, source, penalty, now, books, ins) && |ins| < |addrs|
    requires AddedOne(f, books[|ins|], addrs[|ins|].0, addrs[|ins|].1, source, penalty, now, b2, inserted)
    ensures AddedAll(f, addrs, source, penalty, now, books + [b2], ins + [inserted])
  {
  }

  /** The address is known, and in the new table. */
  predicate Movable(b: Book, addr: Service) {
    addr in b.mapAddr && b.mapAddr[addr] in b.mapInfo && !b.mapInfo[b.mapAddr[addr]].inTried && b.mapInfo[b.mapAddr[addr]].refCount > 0
  }

  /** The entry of the address after a successful connection. */
  function Touched(b: Book, addr: Service, time: int): Book {
    if addr in b.mapAddr && b.mapAddr[addr] in b.mapInfo
    then WithInfo(b, b.mapAddr[addr], b.mapInfo[b.mapAddr[addr]].(lastSuccess := time, lastTry := time, attempts := 0)) else b
  }

  /** The entry `id` has moved to its slot of the tried table. What was there went to its home in the new table, and
      nothing else is known about any address than before. */
  ghost predicate MovedTo(f: Layout, b: Book, id: Id, b2: Book) {
    && id in b.mapInfo && SameFacts(b, b2)
    && var slot := TriedSlot(f, b.mapInfo[id].addr);
       && b2.vvTried == b.vvTried[slot := id] && (slot in b.vvTried ==> b.vvTried[slot] in b.mapInfo)
       && b2.vvNew == Rehoused(f, b.mapInfo, b.vvTried, b.vvNew - Places(b.vvNew, id), slot)
  }

  /** What becomes of an entry that waits for a slot of the tried table. */
  datatype Verdict = Drop | Wait | Replace

  /** It is dropped if the other had a success within four hours, and takes its place if the other was tried within
      four hours, though not within a minute, or if it waits for more than forty minutes. */
  function Decide(f: Layout, b: Book, id: Id, now: int): Verdict {
    if id !in b.mapInfo || !f.valid(b.mapInfo[id].addr) then Drop
    else
      var slot := TriedSlot(f, b.mapInfo[id].addr);
      if slot !in b.vvTried || b.vvTried[slot] !in b.mapInfo then Replace
      else
        var other := b.mapInfo[b.vvTried[slot]];
        if now - other.lastSuccess < 14400 then Drop
        else if now - other.lastTry < 14400 then (if now - other.lastTry > 60 then Replace else Wait)
        else if now - b.mapInfo[id].lastSuccess > 2400 then Replace else Wait
  }

  /** What a decision does to the tables. */
  ghost predicate Decided(f: Layout, b: Book, id: Id, now: int, b2: Book) {
    if Decide(f, b, id, now) == Replace then
      && id in b.mapInfo
      && var b1 := Touched(b, b.mapInfo[id].addr, now);
         if Movable(b, b.mapInfo[id].addr) then MovedTo(f, b1, id, b2) else b2 == b1
    else b2 == b
  }

  /** The waiting entries `ids` were decided on one after the other, with these books before, between and after. */
  ghost predicate DecidedAll(f: Layout, books: seq<Book>, ids: seq<Id>, now: int, waiting: set<Id>) {
    && |books| == |ids| + 1
    && (forall k :: 0 <= k < |ids| ==> Decided(f, books[k], ids[k], now, books[k + 1]))
    && (forall k :: 0 <= k < |ids| ==> (ids[k] in waiting <==> Decide(f, books[k], ids[k], now) == Wait))
    && forall j, k :: 0 <= j < k < |ids| ==> ids[j] != ids[k]
  }

  /** An id waiting for its tried slot was given out before, and if it is still known, the slot is taken. */
  ghost predicate Collides(f: Layout, b: Book, id: Id) {
    id < b.nIdCount && (id in b.mapInfo ==> TriedSlot(f, b.mapInfo[id].addr) in b.vvTried)
  }

  ghost predicate CollisionsOk(f: Layout, b: Book, ids: set<Id>) {
    forall id {:trigger Collides(f, b, id)} :: id in ids ==> Collides(f, b, id)
  }

  /** An id keeps its address. */
  ghost predicate AddrKept(b: Book, b2: Book, id: Id)
    requires id in b2.mapInfo
  {
    id >= b.nIdCount || (id in b.mapInfo && b2.mapInfo[id].addr == b.mapInfo[id].addr)
  }

  /** No slot of the tried table gets empty, no id gets another address. */
  ghost predicate Evolves(b: Book, b2: Book) {
    && b.nIdCount <= b2.nIdCount && b.vvTried.Keys <= b2.vvTried.Keys
    && forall id {:trigger AddrKept(b, b2, id)} :: id in b2.mapInfo ==> AddrKept(b, b2, id)
  }

  lemma {:induction false} FactsEvolve(b: Book, b2: Book)
    requires SameFacts(b, b2) && b.vvTried.Keys <= b2.vvTried.Keys
    ensures Evolves(b, b2)
  {
    forall id | id in b2.mapInfo ensures AddrKept(b, b2, id) {
      assert FactsKept(b, b2, id);
    }
  }

  lemma {:induction false} EvolvesRefl(b: Book)
    ensures Evolves(b, b)
  {
    forall id | id in b.mapInfo ensures AddrKept(b, b, id) {}
  }

  lemma {:induction false} EvolvesTrans(b: Book, c: Book, d: Book)
    requires Evolves(b, c) && Evolves(c, d)
    ensures Evolves(b, d)
  {
    forall id | id in d.mapInfo ensures AddrKept(b, d, id) {
      assert AddrKept(c, d, id);
      assert id in c.mapInfo ==> AddrKept(b, c, id);
    }
  }

  lemma {:induction false} CollisionsStay(f: Layout, b: Book, b2: Book, ids: set<Id>)
    requires CollisionsOk(f, b, ids) && Evolves(b, b2)
    ensures CollisionsOk(f, b2, ids)
  {
    forall id | id in ids ensures Collides(f, b2, id) {
      assert Collides(f, b, id);
      assert id in b2.mapInfo ==> AddrKept(b, b2, id);
    }
  }

  lemma {:induction false} WithInfoEvolves(b: Book, id: Id, info: AddrInfo)
    requires id in b.mapInfo && info.addr == b.mapInfo[id].addr
    ensures Evolves(b, WithInfo(b, id, info))
  {
    var b2 := WithInfo(b, id, info);
    forall j | j in b2.mapInfo ensures AddrKept(b, b2, j) {}
  }

  class AddrMan {
    const f: Layout
    var b: Book
    var lastGood: int
    var collisions: set<Id>

    ghost predicate Valid()
      reads this
    {
      Agree(f, b, {}, {}) && CollisionsOk(f, b, collisions)
    }

    constructor (f: Layout)
      requires LayoutOk(f)
      ensures Valid() && this.f == f && b == Book(0, map[], map[], [], 0, map[], 0, map[], map[]) && lastGood == 1 && collisions == {}
    {
      this.f, b, lastGood, collisions := f, Book(0, map[], map[], [], 0, map[], 0, map[], map[]), 1, {};
      new;
      EmptyAgree(f);
    }

    /** Replace the book by one that agrees too. */
    method Update(b2: Book)
      requires Valid() && Agree(f, b2, {}, {}) && Evolves(b, b2)
      modifies this
      ensures Valid() && b == b2 && lastGood == old(lastGood) && collisions == old(collisions)
    {
      CollisionsStay(f, b, b2, collisions);
      b := b2;
    }

    /** Update the time of a known entry. Says whether it may get another place in the new table. */
    method Refresh(addr: Service, time: int, penalty: int, now: int) returns (more: bool)
      requires Valid() && addr in b.mapAddr
      modifies this
      ensures Valid() && Evolves(old(b), b) && collisions == old(collisions) && lastGood == old(lastGood)
      ensures old(b).mapAddr[addr] in old(b).mapInfo
      ensures var id := old(b).mapAddr[addr]; b == WithInfo(old(b), id, Refreshed(old(b).mapInfo[id], time, penalty, now))
      ensures more ==> time > b.mapInfo[b.mapAddr[addr]].time
      ensures more ==> !b.mapInfo[b.mapAddr[addr]].inTried && b.mapInfo[b.mapAddr[addr]].refCount < NEW_BUCKETS_PER_ADDRESS
    {
      assert FoundAt(b, addr);
      var id := b.mapAddr[addr];
      var info := Refreshed(b.mapInfo[id], time, penalty, now);
      assert TimesAt(b.mapInfo[id]) && RefsAt(b, {}, id);
      WithInfoAgree(f, b, id, info);
      WithInfoEvolves(b, id, info);
      Update(WithInfo(b, id, info));
      var luck: bool := *;
      more := time > info.time && !info.inTried && info.refCount != NEW_BUCKETS_PER_ADDRESS && (info.refCount > 0 ==> luck);
    }

    /** Add one address, seen at `time` by `source`. `now` is the current time. */
    method AddSingle(addr: Service, time: int, source: Source, penalty: int, now: int) returns (inserted: bool)
      requires Valid()
      modifies this
      ensures Valid() && Evolves(old(b), b) && collisions == old(collisions) && lastGood == old(lastGood)
      ensures AddedOne(f, old(b), addr, time, source, penalty, now, b, inserted)
    {
      EvolvesRefl(b);
      if !f.routable(addr) {
        return false;
      }
      var pen := if f.host(addr) == source then 0 else penalty;
      if addr in b.mapAddr {
        var more := Refresh(addr, time, pen, now);
        if !more {
          return false;
        }
        var b2;
        b2, inserted := AddKnown(f, b, addr, source, now);
        EvolvesTrans(old(b), b, b2);
        Update(b2);
      } else {
        var b2;
        b2, inserted := AddUnknown(f, b, addr, source, Max(0, time - pen), now);
        Update(b2);
      }
    }

    /** Add addresses that one source told us about. */
    method Add(addrs: seq<(Service, int)>, source: Source, penalty: int, now: int) returns (any: bool, ghost books: seq<Book>, ghost ins: seq<bool>)
      requires Valid()
      modifies this
      ensures Valid() && Evolves(old(b), b) && collisions == old(collisions) && lastGood == old(lastGood)
      ensures AddedAll(f, addrs, source, penalty, now, books, ins) && |ins| == |addrs| && books[0] == old(b) && books[|ins|] == b
      ensures any <==> true in ins
    {
      any, books, ins := false, [b], [];
      EvolvesRefl(b);
      for k := 0 to |addrs|
        invariant Valid() && Evolves(old(b), b) && collisions == old(collisions) && lastGood == old(lastGood)
        invariant AddedAll(f, addrs, source, penalty, now, books, ins) && |ins| == k && books[0] == old(b) && books[|ins|] == b
        invariant any <==> true in ins
      {
        ghost var before := b;
        var inserted := AddSingle(addrs[k].0, addrs[k].1, source, penalty, now);
        EvolvesTrans(old(b), before, b);
        any := any || inserted;
        AddedNext(f, addrs, source, penalty, now, books, ins, b, inserted);
        books, ins := books + [b], ins + [inserted];
      }
    }

    /** A connection to an address succeeded: move it to the tried table. If its slot there is taken and
        `testBeforeEvict` is set, it has to wait. */
    method Good(addr: Service, testBeforeEvict: bool, time: int) returns (moved: bool)
      requires Valid() && time > 0
      modifies this
      ensures Valid() && Evolves(old(b), b) && lastGood == time
      ensures moved <==> Movable(old(b), addr) && (!testBeforeEvict || TriedSlot(f, addr) !in old(b).vvTried)
      ensures moved ==> MovedTo(f, Touched(old(b), addr, time), old(b).mapAddr[addr], b)
      ensures moved ==> addr in b.mapAddr && b.mapAddr[addr] == old(b).mapAddr[addr] && b.mapAddr[addr] in b.mapInfo && b.mapInfo[b.mapAddr[addr]].inTried
      ensures !moved ==> b == Touched(old(b), addr, time)
      ensures collisions == old(collisions) +
                if Movable(old(b), addr) && !moved && |old(collisions)| < 10 then {old(b).mapAddr[addr]} else {}
    {
      EvolvesRefl(b);
      lastGood := time;
      if addr !in b.mapAddr {
        return false;
      }
      TouchedAgree(f, b, addr, time);
      var id := b.mapAddr[addr];
      var info := b.mapInfo[id].(lastSuccess := time, lastTry := time, attempts := 0);
      Update(WithInfo(b, id, info));
      if info.inTried || info.refCount <= 0 {
        return false;
      }
      var slot := TriedSlot(f, addr);
      if testBeforeEvict && slot in b.vvTried {
        if |collisions| < TRIED_COLLISION_SIZE {
          collisions := collisions + {id};
        }
        return false;
      }
      ghost var before := b;
      MoveToTried(id);
      EvolvesTrans(old(b), before, b);
      return true;
    }

    method MoveToTried(id: Id)
      requires Valid() && id in b.mapInfo && !b.mapInfo[id].inTried && b.mapInfo[id].lastSuccess > 0
      modifies this
      ensures Valid() && Evolves(old(b), b) && collisions == old(collisions) && lastGood == old(lastGood)
      ensures MovedTo(f, old(b), id, b)
      ensures var addr := old(b).mapInfo[id].addr;
              addr in b.mapAddr && b.mapAddr[addr] == id && id in b.mapInfo && b.mapInfo[id].inTried
    {
      var b2 := MakeTried(f, b, id);
      assert AddrAt(b, id);
      FactsEvolve(b, b2);
      assert id in b2.mapInfo ==> AddrKept(b, b2, id);
      MovedIn(f, b2, id, b.mapInfo[id].addr);
      Update(b2);
    }

    /** We try to connect to an address. */
    method Attempt(addr: Service, countFailure: bool, time: int)
      requires Valid() && time >= 0
      modifies this
      ensures Valid() && Evolves(old(b), b) && collisions == old(collisions) && lastGood == old(lastGood)
      ensures addr !in old(b).mapAddr ==> b == old(b)
      ensures addr in old(b).mapAddr ==> old(b).mapAddr[addr] in old(b).mapInfo
      ensures addr in old(b).mapAddr ==>
                var id := old(b).mapAddr[addr]; b == WithInfo(old(b), id, Attempted(old(b).mapInfo[id], countFailure, time, lastGood))
    {
      EvolvesRefl(b);
      if addr in b.mapAddr {
        assert FoundAt(b, addr);
        var id := b.mapAddr[addr];
        var info := b.mapInfo[id].(lastTry := time);
        assert TimesAt(b.mapInfo[id]);
        if countFailure && info.lastCountAttempt < lastGood {
          info := info.(lastCountAttempt := time, attempts := info.attempts + 1);
        }
        WithInfoAgree(f, b, id, info);
        WithInfoEvolves(b, id, info);
        Update(WithInfo(b, id, info));
      }
    }

    /** We were connected to an address until now. */
    method Connected(addr: Service, time: int)
      requires Valid()
      modifies this
      ensures Valid() && Evolves(old(b), b) && collisions == old(collisions) && lastGood == old(lastGood)
      ensures addr in old(b).mapAddr ==> old(b).mapAddr[addr] in old(b).mapInfo
      ensures b == if addr in old(b).mapAddr && time - old(b).mapInfo[old(b).mapAddr[addr]].time > 20 * 60
                   then WithInfo(old(b), old(b).mapAddr[addr], old(b).mapInfo[old(b).mapAddr[addr]].(time := time)) else old(b)
    {
      EvolvesRefl(b);
      if addr in b.mapAddr {
        assert FoundAt(b, addr);
        var id := b.mapAddr[addr];
        assert TimesAt(b.mapInfo[id]);
        if time - b.mapInfo[id].time > 20 * 60 {
          var info := b.mapInfo[id].(time := time);
          WithInfoAgree(f, b, id, info);
          WithInfoEvolves(b, id, info);
          Update(WithInfo(b, id, info));
        }
      }
    }

    /** Decide the fate of the entries that wait for a slot in the tried table. */
    method ResolveCollisions(now: int) returns (ghost ids: seq<Id>, ghost books: seq<Book>)
      requires Valid() && now > 0
      modifies this
      ensures Valid() && Evolves(old(b), b) && collisions <= old(collisions) && (lastGood == old(lastGood) || lastGood == now)
      ensures DecidedAll(f, books, ids, now, collisions) && books[0] == old(b) && books[|ids|] == b
      ensures forall id :: id in ids <==> id in old(collisions)
    {
      var todo := collisions;
      EvolvesRefl(b);
      ids, books := [], [b];
      while todo != {}
        invariant Valid() && Evolves(old(b), b) && todo <= collisions <= old(collisions) && (lastGood == old(lastGood) || lastGood == now)
        invariant DecidedAll(f, books, ids, now, collisions) && books[0] == old(b) && books[|ids|] == b
        invariant forall id :: id in old(collisions) <==> id in ids || id in todo
        invariant forall id :: id in ids ==> id !in todo
        decreases todo
      {
        var id :| id in todo;
        ghost var before, was := b, collisions;
        var done := Resolve(id, now);
        EvolvesTrans(old(b), before, b);
        if done {
          collisions := collisions - {id};
        }
        DecidedNext(f, books, ids, now, was, id, b, collisions);
        ids, books := ids + [id], books + [b];
        todo := todo - {id};
      }
    }

    /** Look at one waiting entry. Says whether it need not wait any longer. */
    method Resolve(id: Id, now: int) returns (done: bool)
      requires Valid() && now > 0 && id in collisions
      modifies this
      ensures Valid() && Evolves(old(b), b) && collisions == old(collisions)
      ensures done <==> Decide(f, old(b), id, now) != Wait
      ensures Decided(f, old(b), id, now, b) && lastGood == (if Decide(f, old(b), id, now) == Replace then now else old(lastGood))
    {
      EvolvesRefl(b);
      done := false;
      if id !in b.mapInfo {
        return true;
      }
      var info := b.mapInfo[id];
      var slot := TriedSlot(f, info.addr);
      if !f.valid(info.addr) {
        done := true;
      } else if slot in b.vvTried {
        assert TriedAt(f, b, slot);
        var other := b.mapInfo[b.vvTried[slot]];
        if now - other.lastSuccess < REPLACEMENT {
          done := true;
        } else if now - other.lastTry < REPLACEMENT {
          if now - other.lastTry > 60 {
            Promote(id, now);
            done := true;
          }
        } else if now - info.lastSuccess > TEST_WINDOW {
          Promote(id, now);
          done := true;
        }
      } else {
        Promote(id, now);
        done := true;
      }
    }

    /** Move a waiting entry to the tried table, whatever is in its slot. */
    method Promote(id: Id, now: int)
      requires Valid() && now > 0 && id in b.mapInfo
      modifies this
      ensures Valid() && Evolves(old(b), b) && collisions == old(collisions) && lastGood == now
      ensures var addr := old(b).mapInfo[id].addr;
              var b1 := Touched(old(b), addr, now);
              if Movable(old(b), addr) then MovedTo(f, b1, id, b) else b == b1
    {
      EntryMovable(f, b, id, now);
      var moved := Good(b.mapInfo[id].addr, false, now);
    }

    /** A random waiting entry's competitor in the tried table. It always exists. */
    method SelectTriedCollision() returns (found: bool, other: AddrInfo)
      requires Valid()
      modifies this
      ensures Valid() && b == old(b) && collisions <= old(collisions)
      ensures found ==> exists id :: id in collisions && id in b.mapInfo && TriedSlot(f, b.mapInfo[id].addr) in b.vvTried
                                     && b.vvTried[TriedSlot(f, b.mapInfo[id].addr)] in b.mapInfo
                                     && other == b.mapInfo[b.vvTried[TriedSlot(f, b.mapInfo[id].addr)]] && other.inTried
      ensures !found ==> collisions == {} || exists id :: id in old(collisions) && id !in b.mapInfo && collisions == old(collisions) - {id}
    {
      other := AddrInfo(0, 0, 0, 0, 0, 0, 0, 0, false, -1);
      if collisions == {} {
        return false, other;
      }
      var id :| id in collisions;
      if id !in b.mapInfo {
        collisions := collisions - {id};
        return false, other;
      }
      assert Collides(f, b, id);
      var slot := TriedSlot(f, b.mapInfo[id].addr);
      assert TriedAt(f, b, slot);
      return true, b.mapInfo[b.vvTried[slot]];
    }
  }

  lemma {:induction false} DecidedNext(f: Layout, books: seq<Book>, ids: seq<Id>, now: int, waiting: set<Id>, id: Id, b2: Book, waiting2: set<Id>)
    requires DecidedAll(f, books, ids, now, waiting) && id !in ids && Decided(f, books[|ids|], id, now, b2)
    requires waiting2 == (if Decide(f, books[|ids|], id, now) == Wait then waiting else waiting - {id}) && id in waiting
    ensures DecidedAll(f, books + [b2], ids + [id], now, waiting2)
  {
  }

  /** Every known entry can be moved, unless it is in the tried table already. */
  lemma {:induction false} EntryMovable(f: Layout, b: Book, id: Id, now: int)
    requires Agree(f, b, {}, {}) && id in b.mapInfo
    ensures var a := b.mapInfo[id].addr;
            && a in b.mapAddr && b.mapAddr[a] == id && Touched(b, a, now).vvTried == b.vvTried
            && (Movable(b, a) || b.vvTried == b.vvTried[TriedSlot(f, a) := id])
  {
    assert AddrAt(b, id) && RefsAt(b, {}, id) && InTriedAt(f, b, id);
  }

  lemma {:induction false} TouchedAgree(f: Layout, b: Book, addr: Service, time: int)
    requires Agree(f, b, {}, {}) && addr in b.mapAddr && time > 0
    ensures var id := b.mapAddr[addr];
            && id in b.mapInfo && id < b.nIdCount && b.mapInfo[id].addr == addr
            && Touched(b, addr, time) == WithInfo(b, id, b.mapInfo[id].(lastSuccess := time, lastTry := time, attempts := 0))
    ensures Agree(f, Touched(b, addr, time), {}, {}) && Evolves(b, Touched(b, addr, time))
  {
    assert FoundAt(b, addr);
    var id := b.mapAddr[addr];
    assert AddrAt(b, id);
    var info := b.mapInfo[id].(lastSuccess := time, lastTry := time, attempts := 0);
    WithInfoAgree(f, b, id, info);
    WithInfoEvolves(b, id, info);
  }

  lemma {:induction false} MovedIn(f: Layout, b: Book, id: Id, addr: Service)
    requires Agree(f, b, {}, {}) && TriedSlot(f, addr) in b.vvTried && b.vvTried[TriedSlot(f, addr)] == id
    requires id in b.mapInfo ==> b.mapInfo[id].addr == addr
    ensures addr in b.mapAddr && b.mapAddr[addr] == id && id in b.mapInfo && b.mapInfo[id].inTried
  {
    assert TriedAt(f, b, TriedSlot(f, addr));
    assert AddrAt(b, id);
  }

  lemma {:induction false} EmptyAgree(f: Layout)
    requires LayoutOk(f)
    ensures Agree(f, Book(0, map[], map[], [], 0, map[], 0, map[], map[]), {}, {})
  {
    var b := Book(0, map[], map[], [], 0, map[], 0, map[], map[]);
    forall net ensures NetAt(f, b, {}, net) {
      assert Members(f, b.mapInfo, {}, false, net) == {} && Members(f, b.mapInfo, {}, true, net) == {};
    }
    assert AllMembers(b.mapInfo, {}, false) == {} && AllMembers(b.mapInfo, {}, true) == {};
  }

  lemma {:induction false} CreatedFacts(f: Layout, b: Book, a: Service, source: Source, time: int)
    ensures SameFacts(b, Created(f, b, a, source, time))
  {
    var b2 := Created(f, b, a, source, time);
    forall j | j in b2.mapInfo ensures FactsKept(b, b2, j) {}
  }

  lemma {:induction false} SameFactsRefl(b: Book)
    ensures SameFacts(b, b)
  {
    forall j | j in b.mapInfo ensures FactsKept(b, b, j) {}
  }

  /** Give an entry a place in the new table, in the bucket for `source`, if the slot is free or what is
      there may go. An entry that gets no place and has none is deleted. */
  method InsertNew(f: Layout, b: Book, id: Id, source: Source, now: int) returns (b2: Book, inserted: bool)
    requires Agree(f, b, {id}, {}) && id in b.mapInfo && !b.mapInfo[id].inTried && b.mapInfo[id].refCount < NEW_BUCKETS_PER_ADDRESS
    ensures Agree(f, b2, {}, {}) && SameFacts(b, b2) && b2.vvTried == b.vvTried
    ensures var a := b.mapInfo[id].addr;
            var slot := NewSlot(f, a, f.newBucket(a, source));
            && (inserted <==> MayTake(b, id, slot, now))
            && (inserted ==> a in b2.mapAddr && b2.mapAddr[a] == id)
            && b2.vvNew == (if inserted then b.vvNew[slot := id] else b.vvNew)
            && (!inserted ==> if b.mapInfo[id].refCount > 0 then b2 == b else b2.mapAddr == b.mapAddr - {a})
  {
    var a := b.mapInfo[id].addr;
    var slot := NewSlot(f, a, f.newBucket(a, source));
    b2, inserted := b, slot !in b.vvNew;
    SameFactsRefl(b);
    if slot in b.vvNew && b.vvNew[slot] == id {
      TightAgree(f, b, id, slot);
      assert RefsAt(b, {}, id);
      return;
    }
    if !inserted {
      assert NewAt(f, b, slot);
      var existing := b.mapInfo[b.vvNew[slot]];
      if IsTerrible(existing, now) || (existing.refCount > 1 && b.mapInfo[id].refCount == 0) {
        inserted := true;
      }
    }
    if inserted {
      b2 := TakeSlot(f, b, id, slot);
    } else if b.mapInfo[id].refCount == 0 {
      DeletedAgree(f, b, id, {id}, {});
      assert {id} - {id} == {};
      DeletedSameFacts(f, b, id);
      DeletedKeeps(f, b, id);
      DeletedTally(f, b, id);
      b2 := Deleted(f, b, id);
    } else {
      assert RefsAt(b, {id}, id);
      NotLoose(f, b, id);
    }
  }

  /** Another place for an entry of the new table. */
  method AddKnown(f: Layout, b: Book, addr: Service, source: Source, now: int) returns (b2: Book, inserted: bool)
    requires Agree(f, b, {}, {}) && addr in b.mapAddr && b.mapAddr[addr] in b.mapInfo
    requires !b.mapInfo[b.mapAddr[addr]].inTried && b.mapInfo[b.mapAddr[addr]].refCount < NEW_BUCKETS_PER_ADDRESS
    ensures Agree(f, b2, {}, {}) && Evolves(b, b2) && SameFacts(b, b2) && b2.vvTried == b.vvTried
    ensures var id, slot := b.mapAddr[addr], NewSlot(f, addr, f.newBucket(addr, source));
            && (inserted <==> MayTake(b, id, slot, now))
            && if inserted then addr in b2.mapAddr && b2.mapAddr[addr] == id && b2.vvNew == b.vvNew[slot := id] else b2 == b
  {
    var id := b.mapAddr[addr];
    LooserAgree(f, b, id);
    assert FoundAt(b, addr) && RefsAt(b, {}, id);
    b2, inserted := InsertNew(f, b, id, source, now);
    FactsEvolve(b, b2);
  }

  /** A first place for an address that is not known. */
  method AddUnknown(f: Layout, b: Book, addr: Service, source: Source, time: int, now: int) returns (b2: Book, inserted: bool)
    requires Agree(f, b, {}, {}) && addr !in b.mapAddr
    ensures Agree(f, b2, {}, {}) && Evolves(b, b2) && SameFacts(b, b2) && b2.vvTried == b.vvTried
    ensures var slot := NewSlot(f, addr, f.newBucket(addr, source));
            && (inserted <==> Free(b, slot, now))
            && b2.vvNew == (if inserted then b.vvNew[slot := b.nIdCount] else b.vvNew)
    ensures if inserted then
              && addr in b2.mapAddr && b2.mapAddr[addr] == b.nIdCount && b.nIdCount in b2.mapInfo
              && Bare(b2.mapInfo[b.nIdCount]) == AddrInfo(addr, source, time, 0, 0, 0, 0, 0, false, 0)
            else b2.mapAddr == b.mapAddr
  {
    CreatedAgree(f, b, addr, source, time);
    var b1 := Created(f, b, addr, source, time);
    CreatedFacts(f, b, addr, source, time);
    b2, inserted := InsertNew(f, b1, b.nIdCount, source, now);
    FirstPlace(f, b, addr, source, time, now);
    SameFactsTrans(b, b1, b2);
    FactsEvolve(b, b2);
    assert b.mapAddr[addr := b.nIdCount] - {addr} == b.mapAddr;
    if inserted {
      assert FoundAt(b2, addr);
      assert FactsKept(b1, b2, b.nIdCount);
    }
  }

  /** An entry that was just created may take the slots that are free. */
  lemma {:induction false} FirstPlace(f: Layout, b: Book, addr: Service, source: Source, time: int, now: int)
    requires Agree(f, b, {}, {}) && b.nIdCount !in b.mapInfo
    ensures var slot := NewSlot(f, addr, f.newBucket(addr, source));
            MayTake(Created(f, b, addr, source, time), b.nIdCount, slot, now) <==> Free(b, slot, now)
  {
    var slot := NewSlot(f, addr, f.newBucket(addr, source));
    assert slot in b.vvNew ==> NewAt(f, b, slot);
  }

  lemma {:induction false} NotLoose(f: Layout, b: Book, id: Id)
    requires Agree(f, b, {id}, {}) && id in b.mapInfo && b.mapInfo[id].refCount > 0
    ensures Agree(f, b, {}, {})
  {
    forall j | j in b.mapInfo ensures RefsAt(b, {}, j) {
      assert RefsAt(b, {id}, j);
    }
  }

  lemma {:induction false} TightAgree(f: Layout, b: Book, id: Id, slot: Slot)
    requires Agree(f, b, {id}, {}) && id in b.mapInfo && slot in b.vvNew && b.vvNew[slot] == id
    ensures Agree(f, b, {}, {})
  {
    assert slot in Places(b.vvNew, id);
    assert RefsAt(b, {id}, id);
    NotLoose(f, b, id);
  }

  /** Clear a slot of the new table and put the entry there. */
  method TakeSlot(f: Layout, b: Book, id: Id, slot: Slot) returns (b2: Book)
    requires Agree(f, b, {id}, {}) && id in b.mapInfo && !b.mapInfo[id].inTried && b.mapInfo[id].refCount < NEW_BUCKETS_PER_ADDRESS
    requires slot.bucket < NEW_BUCKET_COUNT && slot == NewSlot(f, b.mapInfo[id].addr, slot.bucket) && (slot in b.vvNew ==> b.vvNew[slot] != id)
    ensures Agree(f, b2, {}, {}) && SameFacts(b, b2) && b2.vvTried == b.vvTried
    ensures b.mapInfo[id].addr in b2.mapAddr && b2.mapAddr[b.mapInfo[id].addr] == id && b2.vvNew == b.vvNew[slot := id]
  {
    var b1 := ClearNew(f, b, slot, {id}, {});
    StillThere(b, b1, slot, id);
    PlaceAddedAgree(f, b1, slot, id, {id}, {});
    assert {id} - {id} == {};
    b2 := PlaceAdded(b1, slot, id);
    PutOver(b.vvNew, slot, id);
    PlaceAddedFacts(b, b1, slot, id);
    assert AddrAt(b2, id);
  }

  lemma {:induction false} PlaceAddedFacts(b: Book, b1: Book, slot: Slot, id: Id)
    requires SameFacts(b, b1) && id in b1.mapInfo
    ensures SameFacts(b, PlaceAdded(b1, slot, id))
  {
    var b2 := PlaceAdded(b1, slot, id);
    forall j | j in b2.mapInfo ensures FactsKept(b, b2, j) {
      assert FactsKept(b, b1, j);
    }
  }
}
