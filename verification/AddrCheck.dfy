/** The consistency check of the address manager (`CheckAddrman`), on any tables: when it passes, what each of its errors
    means, that it passes on tables that agree, and what it does not see. */
module AddrChecks {
  import opened AddrBooks
  import opened AddrSteps

  /** The tables are arrays of buckets. */
  ghost predicate Shaped(b: Book) {
    && (forall s :: s in b.vvTried ==> s.bucket < TRIED_BUCKET_COUNT && s.pos < BUCKET_SIZE)
    && forall s :: s in b.vvNew ==> s.bucket < NEW_BUCKET_COUNT && s.pos < BUCKET_SIZE
  }

  // ---------- Entries ----------

  /** An entry in order. */
  ghost predicate EntryOk(b: Book, id: Id)
    requires id in b.mapInfo
  {
    var i := b.mapInfo[id];
    && (if i.inTried then i.lastSuccess != 0 && i.refCount == 0 else 0 < i.refCount <= 8)
    && i.addr in b.mapAddr && b.mapAddr[i.addr] == id && PosAt(b, id) && i.lastTry >= 0 && i.lastSuccess >= 0
  }

  ghost predicate EntryFault(b: Book, id: Id, err: int)
    requires id in b.mapInfo
  {
    var i := b.mapInfo[id];
    || (err == -1 && i.inTried && i.lastSuccess == 0)
    || (err == -2 && i.inTried && i.refCount != 0)
    || (err == -3 && !i.inTried && !(0 <= i.refCount <= 8))
    || (err == -4 && !i.inTried && i.refCount == 0)
    || (err == -5 && (i.addr !in b.mapAddr || b.mapAddr[i.addr] != id))
    || (err == -14 && !PosAt(b, id))
    || (err == -6 && i.lastTry < 0)
    || (err == -8 && i.lastSuccess < 0)
  }

  /** What the first loop collects from the entries in `done`. */
  ghost predicate Collected(f: Layout, b: Book, done: set<Id>, tried: set<Id>, new_: map<Id, int>, counts: map<Network, NetCount>) {
    && done <= b.mapInfo.Keys
    && (forall id :: id in tried <==> id in done && b.mapInfo[id].inTried)
    && (forall id :: id in new_ <==> id in done && !b.mapInfo[id].inTried)
    && (forall id :: id in new_ ==> new_[id] == b.mapInfo[id].refCount)
    && (forall net {:trigger CountedAt(f, b, done, counts, net)} :: CountedAt(f, b, done, counts, net))
  }

  ghost predicate CountedAt(f: Layout, b: Book, done: set<Id>, counts: map<Network, NetCount>, net: Network) {
    && CountOf(counts, net).nNew == |Members(f, b.mapInfo, b.mapInfo.Keys - done, false, net)|
    && CountOf(counts, net).nTried == |Members(f, b.mapInfo, b.mapInfo.Keys - done, true, net)|
    && (net in counts ==> counts[net].nNew + counts[net].nTried > 0)
  }

  /** The checks of one entry. */
  method CheckEntry(b: Book, id: Id) returns (err: int)
    requires id in b.mapInfo
    ensures (err == 0 <==> EntryOk(b, id)) && (err != 0 ==> EntryFault(b, id, err))
  {
    var info := b.mapInfo[id];
    if info.inTried {
      if info.lastSuccess == 0 {
        return -1;
      }
      if info.refCount != 0 {
        return -2;
      }
    } else {
      if info.refCount < 0 || info.refCount > NEW_BUCKETS_PER_ADDRESS {
        return -3;
      }
      if info.refCount == 0 {
        return -4;
      }
    }
    if info.addr !in b.mapAddr || b.mapAddr[info.addr] != id {
      return -5;
    }
    if info.randomPos < 0 || info.randomPos >= |b.vRandom| || b.vRandom[info.randomPos] != id {
      return -14;
    }
    if info.lastTry < 0 {
      return -6;
    }
    if info.lastSuccess < 0 {
      return -8;
    }
    return 0;
  }

  lemma {:induction false} CollectedNone(f: Layout, b: Book)
    ensures Collected(f, b, {}, {}, map[], map[])
  {
    forall net ensures CountedAt(f, b, {}, map[], net) {
      assert Members(f, b.mapInfo, b.mapInfo.Keys, false, net) == {} && Members(f, b.mapInfo, b.mapInfo.Keys, true, net) == {};
    }
  }

  lemma {:induction false} CollectedOne(f: Layout, b: Book, done: set<Id>, tried: set<Id>, new_: map<Id, int>, counts: map<Network, NetCount>, id: Id)
    requires Collected(f, b, done, tried, new_, counts) && id in b.mapInfo && id !in done
    ensures var info := b.mapInfo[id];
            Collected(f, b, done + {id}, if info.inTried then tried + {id} else tried, if info.inTried then new_ else new_[id := info.refCount],
                      Bump(counts, f.network(info.addr), One(!info.inTried), One(info.inTried)))
  {
    var info := b.mapInfo[id];
    var more := Bump(counts, f.network(info.addr), One(!info.inTried), One(info.inTried));
    var skip, skip2 := b.mapInfo.Keys - done, b.mapInfo.Keys - (done + {id});
    assert SameBut(b.mapInfo, skip, b.mapInfo, skip2, id);
    forall net ensures CountedAt(f, b, done + {id}, more, net) {
      assert CountedAt(f, b, done, counts, net);
      Recount(f, b.mapInfo, skip, b.mapInfo, skip2, id, false, net);
      Recount(f, b.mapInfo, skip, b.mapInfo, skip2, id, true, net);
    }
  }

  method CheckEntries(f: Layout, b: Book) returns (err: int, tried: set<Id>, new_: map<Id, int>, counts: map<Network, NetCount>)
    ensures err == 0 ==> (forall id :: id in b.mapInfo ==> EntryOk(b, id)) && Collected(f, b, b.mapInfo.Keys, tried, new_, counts)
    ensures err != 0 ==> exists id :: id in b.mapInfo && !EntryOk(b, id) && EntryFault(b, id, err)
  {
    err, tried, new_, counts := 0, {}, map[], map[];
    var todo := b.mapInfo.Keys;
    ghost var done: set<Id> := {};
    CollectedNone(f, b);
    while todo != {}
      invariant done + todo == b.mapInfo.Keys && done !! todo && err == 0
      invariant Collected(f, b, done, tried, new_, counts) && forall id :: id in done ==> EntryOk(b, id)
      decreases todo
    {
      var id :| id in todo;
      CollectedOne(f, b, done, tried, new_, counts, id);
      var info := b.mapInfo[id];
      if info.inTried {
        tried := tried + {id};
        counts := Bump(counts, f.network(info.addr), 0, 1);
      } else {
        new_ := new_[id := info.refCount];
        counts := Bump(counts, f.network(info.addr), 1, 0);
      }
      err := CheckEntry(b, id);
      if err != 0 {
        return;
      }
      Moved(done, todo, id);
      done, todo := done + {id}, todo - {id};
    }
    assert done == b.mapInfo.Keys;
  }

  lemma {:induction false} Moved(a: set<Id>, t: set<Id>, id: Id)
    requires a !! t && id in t
    ensures (a + {id}) + (t - {id}) == a + t && (a + {id}) !! (t - {id})
  {
  }

  // ---------- The tried table ----------

  ghost predicate Before(n: nat, i: nat, s: Slot) {
    s.bucket < n || (s.bucket == n && s.pos < i)
  }

  ghost predicate AllTriedAt(f: Layout, b: Book) {
    forall s {:trigger TriedAt(f, b, s)} :: s in b.vvTried ==> TriedAt(f, b, s)
  }

  ghost predicate TriedFault(f: Layout, b: Book, s: Slot, err: int)
    requires s in b.vvTried
  {
    var id := b.vvTried[s];
    || (err == -11 && (id !in b.mapInfo || !b.mapInfo[id].inTried || exists r :: r in b.vvTried && r != s && b.vvTried[r] == id))
    || (err == -17 && id in b.mapInfo && f.triedBucket(b.mapInfo[id].addr) != s.bucket)
    || (err == -18 && id in b.mapInfo && f.position(b.mapInfo[id].addr, false, s.bucket) != s.pos)
  }

  lemma {:induction false} NoTriedFault(f: Layout, b: Book, s: Slot, err: int)
    requires AllTriedAt(f, b) && s in b.vvTried
    ensures !TriedFault(f, b, s, err)
  {
    assert TriedAt(f, b, s);
    forall r | r in b.vvTried && r != s ensures b.vvTried[r] != b.vvTried[s] {
      assert TriedAt(f, b, r);
    }
  }

  /** The slot of the tried table that holds `id` was visited. */
  ghost predicate Held(b: Book, n: nat, i: nat, id: Id) {
    exists s :: s in b.vvTried && Before(n, i, s) && b.vvTried[s] == id
  }

  /** All slots visited so far are right, and `tried` are the tried entries that were not met. */
  ghost predicate TriedSeen(f: Layout, b: Book, n: nat, i: nat, tried: set<Id>) {
    && (forall s {:trigger TriedAt(f, b, s)} :: s in b.vvTried && Before(n, i, s) ==> TriedAt(f, b, s))
    && forall id :: id in tried <==> id in b.mapInfo && b.mapInfo[id].inTried && !Held(b, n, i, id)
  }

  lemma {:induction false} TriedStart(f: Layout, b: Book, tried: set<Id>)
    requires forall id :: id in tried <==> id in b.mapInfo && b.mapInfo[id].inTried
    ensures TriedSeen(f, b, 0, 0, tried)
  {
  }

  lemma {:induction false} HeldNext(b: Book, n: nat, i: nat, id: Id)
    ensures Held(b, n, i + 1, id) <==> Held(b, n, i, id) || (Slot(n, i) in b.vvTried && b.vvTried[Slot(n, i)] == id)
  {
    if Held(b, n, i, id) {
      var s :| s in b.vvTried && Before(n, i, s) && b.vvTried[s] == id;
      assert Before(n, i + 1, s);
    }
    if Slot(n, i) in b.vvTried {
      assert Before(n, i + 1, Slot(n, i));
    }
  }

  /** An empty slot, or one that is right. */
  lemma {:induction false} TriedNext(f: Layout, b: Book, n: nat, i: nat, tried: set<Id>)
    requires TriedSeen(f, b, n, i, tried) && (Slot(n, i) in b.vvTried ==> TriedAt(f, b, Slot(n, i)))
    ensures TriedSeen(f, b, n, i + 1, if Slot(n, i) in b.vvTried then tried - {b.vvTried[Slot(n, i)]} else tried)
  {
    var s := Slot(n, i);
    var left := if s in b.vvTried then tried - {b.vvTried[s]} else tried;
    forall r | r in b.vvTried && Before(n, i + 1, r) ensures TriedAt(f, b, r) {
      assert r == s || Before(n, i, r);
    }
    forall id ensures id in left <==> id in b.mapInfo && b.mapInfo[id].inTried && !Held(b, n, i + 1, id) {
      HeldNext(b, n, i, id);
    }
  }

  lemma {:induction false} TriedRow(f: Layout, b: Book, n: nat, tried: set<Id>)
    requires Shaped(b) && TriedSeen(f, b, n, BUCKET_SIZE, tried)
    ensures TriedSeen(f, b, n + 1, 0, tried)
  {
    forall s | s in b.vvTried ensures Before(n + 1, 0, s) <==> Before(n, BUCKET_SIZE, s) {}
    forall id ensures Held(b, n + 1, 0, id) <==> Held(b, n, BUCKET_SIZE, id) {}
  }

  /** A slot whose id is not among the entries to be met. */
  lemma {:induction false} TriedTwice(f: Layout, b: Book, n: nat, i: nat, tried: set<Id>)
    requires TriedSeen(f, b, n, i, tried) && Slot(n, i) in b.vvTried && b.vvTried[Slot(n, i)] !in tried
    ensures TriedFault(f, b, Slot(n, i), -11)
  {
    var id := b.vvTried[Slot(n, i)];
    if id in b.mapInfo && b.mapInfo[id].inTried {
      var r :| r in b.vvTried && Before(n, i, r) && b.vvTried[r] == id;
      assert r != Slot(n, i);
    }
  }

  method CheckTried(f: Layout, b: Book, all: set<Id>) returns (err: int, tried: set<Id>)
    requires Shaped(b) && forall id :: id in all <==> id in b.mapInfo && b.mapInfo[id].inTried
    ensures err == 0 ==> AllTriedAt(f, b) && forall id :: id in tried <==> id in all && id !in b.vvTried.Values
    ensures err != 0 ==> exists s :: s in b.vvTried && TriedFault(f, b, s, err)
  {
    err, tried := 0, all;
    TriedStart(f, b, all);
    for n := 0 to TRIED_BUCKET_COUNT
      invariant err == 0 && TriedSeen(f, b, n, 0, tried)
    {
      for i := 0 to BUCKET_SIZE
        invariant err == 0 && TriedSeen(f, b, n, i, tried)
      {
        if Slot(n, i) in b.vvTried {
          var id := b.vvTried[Slot(n, i)];
          if id !in tried {
            TriedTwice(f, b, n, i, tried);
            return -11, tried;
          }
          if id !in b.mapInfo || f.triedBucket(b.mapInfo[id].addr) != n {
            assert TriedFault(f, b, Slot(n, i), -17);
            return -17, tried;
          }
          if f.position(b.mapInfo[id].addr, false, n) != i {
            assert TriedFault(f, b, Slot(n, i), -18);
            return -18, tried;
          }
          TriedNext(f, b, n, i, tried);
          tried := tried - {id};
        } else {
          TriedNext(f, b, n, i, tried);
        }
      }
      TriedRow(f, b, n, tried);
    }
    TriedEnd(f, b, tried);
  }

  lemma {:induction false} TriedEnd(f: Layout, b: Book, tried: set<Id>)
    requires Shaped(b) && TriedSeen(f, b, TRIED_BUCKET_COUNT, 0, tried)
    ensures AllTriedAt(f, b) && forall id :: id in tried <==> id in b.mapInfo && b.mapInfo[id].inTried && id !in b.vvTried.Values
  {
    forall id ensures Held(b, TRIED_BUCKET_COUNT, 0, id) <==> id in b.vvTried.Values {
      if id in b.vvTried.Values {
        var s :| s in b.vvTried && b.vvTried[s] == id;
        assert Before(TRIED_BUCKET_COUNT, 0, s);
      }
    }
  }

  // ---------- The new table ----------

  ghost predicate PlaceAt(f: Layout, b: Book, s: Slot)
    requires s in b.vvNew
  {
    var id := b.vvNew[s];
    id in b.mapInfo && !b.mapInfo[id].inTried && f.position(b.mapInfo[id].addr, true, s.bucket) == s.pos
  }

  ghost predicate AllPlaceAt(f: Layout, b: Book) {
    forall s {:trigger PlaceAt(f, b, s)} :: s in b.vvNew ==> PlaceAt(f, b, s)
  }

  ghost predicate NewFault(f: Layout, b: Book, s: Slot, err: int)
    requires s in b.vvNew
  {
    var id := b.vvNew[s];
    || (err == -12 && (id !in b.mapInfo || b.mapInfo[id].inTried || |Places(b.vvNew, id)| > b.mapInfo[id].refCount))
    || (err == -19 && id in b.mapInfo && f.position(b.mapInfo[id].addr, true, s.bucket) != s.pos)
  }

  /** The places of an entry that were visited. */
  ghost function Seen(t: Table, id: Id, n: nat, i: nat): set<Slot> {
    set s | s in Places(t, id) && Before(n, i, s)
  }

  ghost predicate LeftAt(b: Book, n: nat, i: nat, all: map<Id, int>, new_: map<Id, int>, id: Id) {
    && (id in new_ <==> id in all && |Seen(b.vvNew, id, n, i)| < all[id])
    && (id in all ==> |Seen(b.vvNew, id, n, i)| <= all[id])
    && (id in new_ && id in all ==> new_[id] == all[id] - |Seen(b.vvNew, id, n, i)|)
  }

  /** All slots visited so far are right, and `new_` counts the places that were not met. */
  ghost predicate NewSeen(f: Layout, b: Book, n: nat, i: nat, all: map<Id, int>, new_: map<Id, int>) {
    && (forall s {:trigger PlaceAt(f, b, s)} :: s in b.vvNew && Before(n, i, s) ==> PlaceAt(f, b, s))
    && forall id {:trigger LeftAt(b, n, i, all, new_, id)} :: LeftAt(b, n, i, all, new_, id)
  }

  lemma {:induction false} NewStart(f: Layout, b: Book, all: map<Id, int>)
    requires forall id :: id in all ==> all[id] > 0
    ensures NewSeen(f, b, 0, 0, all, all)
  {
    forall id ensures LeftAt(b, 0, 0, all, all, id) {
      assert Seen(b.vvNew, id, 0, 0) == {};
    }
  }

  lemma {:induction false} SeenNext(t: Table, id: Id, n: nat, i: nat)
    ensures Slot(n, i) !in Seen(t, id, n, i)
    ensures Seen(t, id, n, i + 1) == if Slot(n, i) in t && t[Slot(n, i)] == id then Seen(t, id, n, i) + {Slot(n, i)} else Seen(t, id, n, i)
  {
  }

  lemma {:induction false} NewNext(f: Layout, b: Book, n: nat, i: nat, all: map<Id, int>, new_: map<Id, int>)
    requires NewSeen(f, b, n, i, all, new_)
    requires Slot(n, i) in b.vvNew ==> PlaceAt(f, b, Slot(n, i)) && b.vvNew[Slot(n, i)] in new_
    ensures var s := Slot(n, i);
            NewSeen(f, b, n, i + 1, all,
                    if s !in b.vvNew then new_
                    else if new_[b.vvNew[s]] == 1 then new_ - {b.vvNew[s]} else new_[b.vvNew[s] := new_[b.vvNew[s]] - 1])
  {
    var s := Slot(n, i);
    var after := if s !in b.vvNew then new_
                 else if new_[b.vvNew[s]] == 1 then new_ - {b.vvNew[s]} else new_[b.vvNew[s] := new_[b.vvNew[s]] - 1];
    forall r | r in b.vvNew && Before(n, i + 1, r) ensures PlaceAt(f, b, r) {
      assert r == s || Before(n, i, r);
    }
    var j := i + 1;
    forall id ensures LeftAt(b, n, j, all, after, id) {
      assert LeftAt(b, n, i, all, new_, id);
      SeenNext(b.vvNew, id, n, i);
    }
  }

  lemma {:induction false} NewRow(f: Layout, b: Book, n: nat, all: map<Id, int>, new_: map<Id, int>)
    requires Shaped(b) && NewSeen(f, b, n, BUCKET_SIZE, all, new_)
    ensures NewSeen(f, b, n + 1, 0, all, new_)
  {
    forall s | s in b.vvNew ensures Before(n + 1, 0, s) <==> Before(n, BUCKET_SIZE, s) {}
    var m := n + 1;
    forall id ensures LeftAt(b, m, 0, all, new_, id) {
      assert LeftAt(b, n, BUCKET_SIZE, all, new_, id);
      assert Seen(b.vvNew, id, m, 0) == Seen(b.vvNew, id, n, BUCKET_SIZE);
    }
  }

  /** A slot whose id is not among the places to be met. */
  lemma {:induction false} NewTooMany(f: Layout, b: Book, n: nat, i: nat, all: map<Id, int>, new_: map<Id, int>)
    requires NewSeen(f, b, n, i, all, new_) && Slot(n, i) in b.vvNew && b.vvNew[Slot(n, i)] !in new_
    requires forall id :: id in b.mapInfo && !b.mapInfo[id].inTried ==> id in all && all[id] == b.mapInfo[id].refCount
    ensures NewFault(f, b, Slot(n, i), -12)
  {
    var s := Slot(n, i);
    var id := b.vvNew[s];
    if id in b.mapInfo && !b.mapInfo[id].inTried {
      assert LeftAt(b, n, i, all, new_, id);
      var seen := Seen(b.vvNew, id, n, i);
      SeenNext(b.vvNew, id, n, i);
      assert seen + {s} <= Places(b.vvNew, id);
      SlotSubset(seen + {s}, Places(b.vvNew, id));
    }
  }

  lemma {:induction false} SlotSubset(a: set<Slot>, c: set<Slot>)
    requires a <= c
    ensures |a| <= |c|
  {
    assert c == a + (c - a);
  }

  method CheckNew(f: Layout, b: Book, all: map<Id, int>) returns (err: int, new_: map<Id, int>)
    requires Shaped(b) && (forall id :: id in all <==> id in b.mapInfo && !b.mapInfo[id].inTried)
    requires forall id :: id in all ==> all[id] == b.mapInfo[id].refCount > 0
    ensures err == 0 ==> AllPlaceAt(f, b) && forall id :: id in all ==> |Places(b.vvNew, id)| <= all[id]
    ensures err == 0 ==> forall id :: id in new_ <==> id in all && |Places(b.vvNew, id)| < all[id]
    ensures err != 0 ==> exists s :: s in b.vvNew && NewFault(f, b, s, err)
  {
    err, new_ := 0, all;
    NewStart(f, b, all);
    for n := 0 to NEW_BUCKET_COUNT
      invariant err == 0 && NewSeen(f, b, n, 0, all, new_)
    {
      for i := 0 to BUCKET_SIZE
        invariant err == 0 && NewSeen(f, b, n, i, all, new_)
      {
        if Slot(n, i) in b.vvNew {
          var id := b.vvNew[Slot(n, i)];
          if id !in new_ {
            NewTooMany(f, b, n, i, all, new_);
            return -12, new_;
          }
          assert LeftAt(b, n, i, all, new_, id);
          if id !in b.mapInfo || f.position(b.mapInfo[id].addr, true, n) != i {
            assert NewFault(f, b, Slot(n, i), -19);
            return -19, new_;
          }
          NewNext(f, b, n, i, all, new_);
          new_ := if new_[id] == 1 then new_ - {id} else new_[id := new_[id] - 1];
        } else {
          NewNext(f, b, n, i, all, new_);
        }
      }
      NewRow(f, b, n, all, new_);
    }
    NewEnd(f, b, all, new_);
  }

  lemma {:induction false} NewEnd(f: Layout, b: Book, all: map<Id, int>, new_: map<Id, int>)
    requires Shaped(b) && NewSeen(f, b, NEW_BUCKET_COUNT, 0, all, new_)
    ensures AllPlaceAt(f, b) && (forall id :: id in all ==> |Places(b.vvNew, id)| <= all[id])
    ensures forall id :: id in new_ <==> id in all && |Places(b.vvNew, id)| < all[id]
  {
    forall id
      ensures (id in new_ <==> id in all && |Places(b.vvNew, id)| < all[id]) && (id in all ==> |Places(b.vvNew, id)| <= all[id])
    {
      assert LeftAt(b, NEW_BUCKET_COUNT, 0, all, new_, id);
      assert Seen(b.vvNew, id, NEW_BUCKET_COUNT, 0) == Places(b.vvNew, id);
    }
  }

  // ---------- Networks ----------

  /** The networks of the entries. */
  ghost function Networks(f: Layout, b: Book): set<Network> {
    set id | id in b.mapInfo :: f.network(b.mapInfo[id].addr)
  }

  ghost function Actual(f: Layout, b: Book, net: Network): NetCount {
    NetCount(|Members(f, b.mapInfo, {}, false, net)|, |Members(f, b.mapInfo, {}, true, net)|)
  }

  /** What the first loop counted are the networks of the entries with their numbers. */
  lemma {:induction false} NetworksCounted(f: Layout, b: Book, tried: set<Id>, new_: map<Id, int>, counts: map<Network, NetCount>)
    requires Collected(f, b, b.mapInfo.Keys, tried, new_, counts)
    ensures |counts| == |Networks(f, b)| && forall net :: CountOf(counts, net) == Actual(f, b, net)
  {
    var keys := b.mapInfo.Keys;
    assert keys - keys == {};
    forall net ensures CountOf(counts, net) == Actual(f, b, net) && (net in counts <==> net in Networks(f, b)) {
      assert CountedAt(f, b, keys, counts, net);
      NetworkMembers(f, b, net);
    }
    assert counts.Keys == Networks(f, b);
  }

  lemma {:induction false} EntriesSplit(f: Layout, b: Book, tried: set<Id>, new_: map<Id, int>, counts: map<Network, NetCount>)
    requires Collected(f, b, b.mapInfo.Keys, tried, new_, counts)
    ensures tried == AllMembers(b.mapInfo, {}, true) && new_.Keys == AllMembers(b.mapInfo, {}, false) && |new_| == |AllMembers(b.mapInfo, {}, false)|
  {
    assert new_.Keys == AllMembers(b.mapInfo, {}, false);
  }

  lemma {:induction false} NetworkMembers(f: Layout, b: Book, net: Network)
    ensures net in Networks(f, b) <==> Actual(f, b, net).nNew + Actual(f, b, net).nTried > 0
  {
    if net in Networks(f, b) {
      var id :| id in b.mapInfo && f.network(b.mapInfo[id].addr) == net;
      assert id in Members(f, b.mapInfo, {}, b.mapInfo[id].inTried, net);
    } else {
      assert Members(f, b.mapInfo, {}, false, net) == {} && Members(f, b.mapInfo, {}, true, net) == {};
    }
  }

  method CheckNetworks(counts: map<Network, NetCount>, local: map<Network, NetCount>) returns (err: int)
    ensures err == 0 <==> |counts| >= |local| && forall net :: net in counts ==> CountOf(local, net) == counts[net]
    ensures err != 0 ==> (err == -20 && |counts| < |local|) || (err == -21 && exists net :: net in counts && CountOf(local, net) != counts[net])
  {
    if |counts| < |local| {
      return -20;
    }
    var todo := counts.Keys;
    while todo != {}
      invariant todo <= counts.Keys && forall net :: net in counts && net !in todo ==> CountOf(local, net) == counts[net]
      decreases todo
    {
      var net :| net in todo;
      if CountOf(local, net) != counts[net] {
        return -21;
      }
      todo := todo - {net};
    }
    return 0;
  }

  // ---------- The whole check ----------

  /** Every entry is in order and in the tables, the tables hold nothing else, and the counters are right, as far as the
      check looks at them. */
  ghost predicate Sane(f: Layout, b: Book) {
    SaneEntries(f, b) && SaneNetworks(f, b)
  }

  ghost predicate SaneEntries(f: Layout, b: Book) {
    && |b.vRandom| == b.nTried + b.nNew && (forall id :: id in b.mapInfo ==> EntryOk(b, id))
    && |AllMembers(b.mapInfo, {}, true)| == b.nTried && |AllMembers(b.mapInfo, {}, false)| == b.nNew
    && AllTriedAt(f, b) && (forall id :: id in b.mapInfo && b.mapInfo[id].inTried ==> id in b.vvTried.Values)
    && AllPlaceAt(f, b) && (forall id :: id in b.mapInfo && !b.mapInfo[id].inTried ==> |Places(b.vvNew, id)| == b.mapInfo[id].refCount)
  }

  ghost predicate SaneNetworks(f: Layout, b: Book) {
    |b.counts| >= |Networks(f, b)| && forall net :: net in b.counts ==> b.counts[net] == Actual(f, b, net)
  }

  /** What an error says. */
  ghost predicate Fault(f: Layout, b: Book, err: int) {
    || (err == -7 && |b.vRandom| != b.nTried + b.nNew)
    || (exists id :: id in b.mapInfo && EntryFault(b, id, err))
    || (err == -9 && |AllMembers(b.mapInfo, {}, true)| != b.nTried)
    || (err == -10 && |AllMembers(b.mapInfo, {}, false)| != b.nNew)
    || (exists s :: s in b.vvTried && TriedFault(f, b, s, err))
    || (exists s :: s in b.vvNew && NewFault(f, b, s, err))
    || (err == -13 && exists id :: id in b.mapInfo && b.mapInfo[id].inTried && id !in b.vvTried.Values)
    || (err == -15 && exists id :: id in b.mapInfo && !b.mapInfo[id].inTried && |Places(b.vvNew, id)| < b.mapInfo[id].refCount)
    || (err == -20 && |b.counts| < |Networks(f, b)|)
    || (err == -21 && exists net :: net in b.counts && b.counts[net] != Actual(f, b, net))
  }

  lemma {:induction false} SaneHasNoFault(f: Layout, b: Book, err: int)
    requires Sane(f, b)
    ensures !Fault(f, b, err)
  {
    forall s | s in b.vvTried ensures !TriedFault(f, b, s, err) {
      NoTriedFault(f, b, s, err);
    }
    forall s | s in b.vvNew ensures !NewFault(f, b, s, err) {
      assert PlaceAt(f, b, s);
    }
    forall id | id in b.mapInfo ensures !EntryFault(b, id, err) {
      assert EntryOk(b, id);
    }
  }

  /** All checks of `CheckAddrman`, for a key that is not null: no error exactly if everything looked at is right, and
      otherwise an error that says what is wrong. */
  method CheckAddrman(f: Layout, b: Book) returns (err: int)
    requires Shaped(b)
    ensures err == 0 <==> Sane(f, b)
    ensures err != 0 ==> Fault(f, b, err)
  {
    err := RunChecks(f, b);
    if Sane(f, b) {
      SaneHasNoFault(f, b, err);
    }
  }

  method RunChecks(f: Layout, b: Book) returns (err: int)
    requires Shaped(b)
    ensures if err == 0 then Sane(f, b) else Fault(f, b, err)
  {
    if |b.vRandom| != b.nTried + b.nNew {
      return -7;
    }
    var tried, new_, counts;
    err, tried, new_, counts := CheckEntries(f, b);
    if err != 0 {
      return;
    }
    NetworksCounted(f, b, tried, new_, counts);
    EntriesSplit(f, b, tried, new_, counts);
    if |tried| != b.nTried {
      return -9;
    }
    if |new_| != b.nNew {
      return -10;
    }
    err := CheckTables(f, b, tried, new_);
    if err != 0 {
      return;
    }
    err := CheckNetworks(b.counts, counts);
  }

  lemma {:induction false} BadTried(f: Layout, b: Book, s: Slot, err: int)
    requires s in b.vvTried && TriedFault(f, b, s, err)
    ensures Fault(f, b, err)
  {
  }

  lemma {:induction false} BadNew(f: Layout, b: Book, s: Slot, err: int)
    requires s in b.vvNew && NewFault(f, b, s, err)
    ensures Fault(f, b, err)
  {
  }

  lemma {:induction false} NotInTried(f: Layout, b: Book, id: Id)
    requires id in b.mapInfo && b.mapInfo[id].inTried && id !in b.vvTried.Values
    ensures Fault(f, b, -13)
  {
  }

  lemma {:induction false} NotInNew(f: Layout, b: Book, id: Id)
    requires id in b.mapInfo && !b.mapInfo[id].inTried && |Places(b.vvNew, id)| < b.mapInfo[id].refCount
    ensures Fault(f, b, -15)
  {
  }

  method CheckTables(f: Layout, b: Book, tried: set<Id>, new_: map<Id, int>) returns (err: int)
    requires Shaped(b) && (forall id :: id in b.mapInfo ==> EntryOk(b, id))
    requires tried == AllMembers(b.mapInfo, {}, true) && new_.Keys == AllMembers(b.mapInfo, {}, false)
    requires forall id :: id in new_ ==> new_[id] == b.mapInfo[id].refCount
    ensures err == 0 ==> AllTriedAt(f, b) && (forall id :: id in b.mapInfo && b.mapInfo[id].inTried ==> id in b.vvTried.Values)
    ensures err == 0 ==> AllPlaceAt(f, b) && (forall id :: id in b.mapInfo && !b.mapInfo[id].inTried ==> |Places(b.vvNew, id)| == b.mapInfo[id].refCount)
    ensures err != 0 ==> Fault(f, b, err)
  {
    var triedLeft, newLeft;
    err, triedLeft := CheckTried(f, b, tried);
    if err != 0 {
      ghost var s :| s in b.vvTried && TriedFault(f, b, s, err);
      BadTried(f, b, s, err);
      return;
    }
    err, newLeft := CheckNew(f, b, new_);
    if err != 0 {
      ghost var s :| s in b.vvNew && NewFault(f, b, s, err);
      BadNew(f, b, s, err);
      return;
    }
    err := CheckLeft(f, b, triedLeft, newLeft);
  }

  /** Whether entries were not met in the tables. */
  method CheckLeft(f: Layout, b: Book, tried: set<Id>, new_: map<Id, int>) returns (err: int)
    requires forall id :: id in tried <==> id in b.mapInfo && b.mapInfo[id].inTried && id !in b.vvTried.Values
    requires forall id :: id in new_ <==> id in b.mapInfo && !b.mapInfo[id].inTried && |Places(b.vvNew, id)| < b.mapInfo[id].refCount
    ensures err == 0 ==> forall id :: id in b.mapInfo && b.mapInfo[id].inTried ==> id in b.vvTried.Values
    ensures err == 0 ==> forall id :: id in b.mapInfo && !b.mapInfo[id].inTried ==> |Places(b.vvNew, id)| >= b.mapInfo[id].refCount
    ensures err != 0 ==> Fault(f, b, err)
  {
    if tried != {} {
      ghost var id :| id in tried;
      NotInTried(f, b, id);
      return -13;
    }
    if new_ != map[] {
      ghost var id :| id in new_;
      NotInNew(f, b, id);
      return -15;
    }
    err := 0;
  }

  // ---------- Agreement ----------

  ghost function ItemsOf(l: seq<Id>): set<Id> {
    set x | x in l
  }

  ghost predicate NoRepeats(l: seq<Id>) {
    forall j, k :: 0 <= j < k < |l| ==> l[j] != l[k]
  }

  /** A list has at most as many items as elements, and as many just if there are no repetitions. */
  lemma {:induction false} ItemCount(l: seq<Id>)
    ensures |ItemsOf(l)| <= |l| && (|ItemsOf(l)| == |l| <==> NoRepeats(l))
    decreases |l|
  {
    if l == [] {
      assert ItemsOf(l) == {};
    } else {
      var m, t := l[..|l| - 1], l[|l| - 1];
      assert l == m + [t];
      ItemCount(m);
      assert ItemsOf(l) == ItemsOf(m) + {t};
      if t in m {
        assert ItemsOf(l) == ItemsOf(m);
        var j :| 0 <= j < |m| && m[j] == t;
        assert l[j] == l[|l| - 1];
      } else {
        assert NoRepeats(m) ==> NoRepeats(l);
        assert NoRepeats(l) ==> NoRepeats(m);
      }
    }
  }

  /** `vRandom` has as many elements as there are entries. */
  lemma {:induction false} RandomCount(b: Book)
    requires RandomOk(b)
    ensures |b.vRandom| == |b.mapInfo|
  {
    forall j, k | 0 <= j < k < |b.vRandom| ensures b.vRandom[j] != b.vRandom[k] {
      assert ListedAt(b, j) && ListedAt(b, k);
    }
    ItemCount(b.vRandom);
    assert ItemsOf(b.vRandom) == b.mapInfo.Keys by {
      forall id | id in ItemsOf(b.vRandom) ensures id in b.mapInfo {
        var k :| 0 <= k < |b.vRandom| && b.vRandom[k] == id;
        assert ListedAt(b, k);
      }
      forall id | id in b.mapInfo ensures id in ItemsOf(b.vRandom) {
        assert PosAt(b, id);
      }
    }
  }

  /** If there are as many elements as entries, and each entry is at its position, nothing else is in the list. */
  lemma {:induction false} RandomListed(b: Book)
    requires |b.vRandom| == |b.mapInfo| && forall id :: id in b.mapInfo ==> PosAt(b, id)
    ensures RandomOk(b)
  {
    var items := ItemsOf(b.vRandom);
    assert b.mapInfo.Keys <= items;
    ItemCount(b.vRandom);
    SameSize(b.mapInfo.Keys, items);
    forall k | 0 <= k < |b.vRandom| ensures ListedAt(b, k) {
      assert b.vRandom[k] in items;
      assert PosAt(b, b.vRandom[k]);
    }
  }

  lemma {:induction false} SameSize(a: set<Id>, c: set<Id>)
    requires a <= c && |c| <= |a|
    ensures a == c
  {
    assert c == a + (c - a);
    assert |c| == |a| + |c - a|;
  }

  lemma {:induction false} SplitCount(b: Book)
    ensures |b.mapInfo| == |AllMembers(b.mapInfo, {}, false)| + |AllMembers(b.mapInfo, {}, true)|
  {
    assert b.mapInfo.Keys == AllMembers(b.mapInfo, {}, false) + AllMembers(b.mapInfo, {}, true);
  }

  lemma {:induction false} NetSubset(a: set<Network>, c: set<Network>)
    requires a <= c
    ensures |a| <= |c|
  {
    assert c == a + (c - a);
  }

  lemma {:induction false} HasNoPlace(f: Layout, b: Book, id: Id)
    requires NewOk(f, b, {}) && id in b.mapInfo && b.mapInfo[id].inTried
    ensures b.mapInfo[id].refCount == 0
  {
    forall s | s in b.vvNew ensures b.vvNew[s] != id {
      assert NewAt(f, b, s);
    }
    assert Places(b.vvNew, id) == {};
    assert RefsAt(b, {}, id);
  }

  lemma {:induction false} AgreeEntries(f: Layout, b: Book)
    requires Agree(f, b, {}, {})
    ensures forall id :: id in b.mapInfo ==> EntryOk(b, id)
  {
    forall id | id in b.mapInfo ensures EntryOk(b, id) {
      assert TimesAt(b.mapInfo[id]) && RefsAt(b, {}, id) && AddrAt(b, id) && PosAt(b, id);
      if b.mapInfo[id].inTried {
        HasNoPlace(f, b, id);
      }
    }
  }

  lemma {:induction false} AgreeTables(f: Layout, b: Book)
    requires Agree(f, b, {}, {})
    ensures Shaped(b) && AllTriedAt(f, b) && (forall id :: id in b.mapInfo && b.mapInfo[id].inTried ==> id in b.vvTried.Values)
    ensures AllPlaceAt(f, b) && (forall id :: id in b.mapInfo && !b.mapInfo[id].inTried ==> |Places(b.vvNew, id)| == b.mapInfo[id].refCount)
  {
    forall s | s in b.vvTried ensures TriedAt(f, b, s) {}
    forall s | s in b.vvNew ensures PlaceAt(f, b, s) && s.bucket < NEW_BUCKET_COUNT && s.pos < BUCKET_SIZE {
      assert NewAt(f, b, s);
    }
    forall id | id in b.mapInfo ensures b.mapInfo[id].inTried ==> id in b.vvTried.Values {
      assert InTriedAt(f, b, id);
    }
    forall id | id in b.mapInfo ensures |Places(b.vvNew, id)| == b.mapInfo[id].refCount {
      assert RefsAt(b, {}, id);
    }
  }

  lemma {:induction false} AgreeNetworks(f: Layout, b: Book)
    requires CountsOk(f, b, {})
    ensures |b.counts| >= |Networks(f, b)| && Networks(f, b) <= b.counts.Keys && forall net :: net in b.counts ==> b.counts[net] == Actual(f, b, net)
  {
    forall net ensures CountOf(b.counts, net) == Actual(f, b, net) && (net in Networks(f, b) ==> net in b.counts) {
      assert NetAt(f, b, {}, net);
      NetworkMembers(f, b, net);
    }
    NetSubset(Networks(f, b), b.counts.Keys);
  }

  /** The check passes on all tables that agree, so in every state of an address manager. */
  lemma {:induction false} AgreeIsSane(f: Layout, b: Book)
    requires Agree(f, b, {}, {})
    ensures Shaped(b) && Sane(f, b)
  {
    RandomCount(b);
    SplitCount(b);
    AgreeEntries(f, b);
    AgreeTables(f, b);
    AgreeNetworks(f, b);
  }

  /** What the check does not look at: addresses without an entry, ids that were not given out, and networks of entries
      without a counter. */
  ghost predicate Unchecked(f: Layout, b: Book) {
    && (forall a {:trigger FoundAt(b, a)} :: a in b.mapAddr ==> FoundAt(b, a)) && (forall id :: id in b.mapInfo ==> id < b.nIdCount)
    && Networks(f, b) <= b.counts.Keys
  }

  /** The tables agree exactly if the check passes and that is in order too. */
  lemma {:induction false} AgreeExactly(f: Layout, b: Book)
    requires LayoutOk(f) && Shaped(b)
    ensures Agree(f, b, {}, {}) <==> Sane(f, b) && Unchecked(f, b)
  {
    if Agree(f, b, {}, {}) {
      AgreeIsSane(f, b);
      AgreeNetworks(f, b);
      forall id | id in b.mapInfo ensures id < b.nIdCount {
        assert AddrAt(b, id);
      }
    }
    if Sane(f, b) && Unchecked(f, b) {
      SaneAgrees(f, b);
    }
  }

  lemma {:induction false} SaneAgrees(f: Layout, b: Book)
    requires LayoutOk(f) && Shaped(b) && Sane(f, b) && Unchecked(f, b)
    ensures Agree(f, b, {}, {})
  {
    forall id | id in b.mapInfo ensures AddrAt(b, id) && PosAt(b, id) && TimesAt(b.mapInfo[id]) {
      assert EntryOk(b, id);
    }
    SplitCount(b);
    RandomListed(b);
    SaneTables(f, b);
    SaneCounts(f, b);
  }

  lemma {:induction false} SaneTables(f: Layout, b: Book)
    requires Shaped(b) && Sane(f, b)
    ensures TriedOk(f, b) && NewOk(f, b, {})
  {
    forall id | id in b.mapInfo ensures InTriedAt(f, b, id) {
      if b.mapInfo[id].inTried {
        var s :| s in b.vvTried && b.vvTried[s] == id;
        assert TriedAt(f, b, s);
      }
    }
    forall s | s in b.vvNew ensures NewAt(f, b, s) {
      assert PlaceAt(f, b, s);
    }
    forall id | id in b.mapInfo ensures RefsAt(b, {}, id) {
      assert EntryOk(b, id);
      if b.mapInfo[id].inTried {
        forall s | s in b.vvNew ensures b.vvNew[s] != id {
          assert PlaceAt(f, b, s);
        }
        assert Places(b.vvNew, id) == {};
      }
    }
  }

  lemma {:induction false} SaneCounts(f: Layout, b: Book)
    requires Sane(f, b) && Networks(f, b) <= b.counts.Keys
    ensures CountsOk(f, b, {})
  {
    forall net ensures NetAt(f, b, {}, net) {
      NetworkMembers(f, b, net);
    }
  }

  /** The check compares only the number of networks: it goes on to pass when the counter of one is replaced by an empty one of
      a network without entries. */
  lemma {:induction false} MissedNetwork(f: Layout, b: Book, net: Network, other: Network)
    requires Sane(f, b) && net in b.counts && other !in b.counts && other !in Networks(f, b)
    ensures Sane(f, b.(counts := (b.counts - {net})[other := NetCount(0, 0)]))
  {
    var b2 := b.(counts := (b.counts - {net})[other := NetCount(0, 0)]);
    SwapNetworks(f, b, net, other, b2);
    SameSane(f, b, b2);
  }

  lemma {:induction false} SwapNetworks(f: Layout, b: Book, net: Network, other: Network, b2: Book)
    requires SaneNetworks(f, b) && net in b.counts && other !in b.counts && other !in Networks(f, b)
    requires b2 == b.(counts := (b.counts - {net})[other := NetCount(0, 0)])
    ensures SaneNetworks(f, b2)
  {
    NetworkMembers(f, b, other);
    SwapKey(b.counts, net, other);
    assert Actual(f, b, other) == NetCount(0, 0);
    CountersFrom(f, b, b2);
  }

  lemma {:induction false} CountersFrom(f: Layout, b: Book, b2: Book)
    requires b2.mapInfo == b.mapInfo && |b2.counts| >= |Networks(f, b)| && forall n :: n in b2.counts ==> b2.counts[n] == Actual(f, b, n)
    ensures SaneNetworks(f, b2)
  {
    assert Networks(f, b2) == Networks(f, b);
    forall n ensures Actual(f, b2, n) == Actual(f, b, n) {}
  }

  lemma {:induction false} SameSane(f: Layout, b: Book, b2: Book)
    requires b2 == b.(counts := b2.counts) && SaneEntries(f, b)
    ensures SaneEntries(f, b2)
  {
    SameEntries(f, b, b2);
    SameTables(f, b, b2);
  }

  lemma {:induction false} SwapKey(counts: map<Network, NetCount>, net: Network, other: Network)
    requires net in counts && other !in counts
    ensures |(counts - {net})[other := NetCount(0, 0)]| == |counts|
  {
    var after := (counts - {net})[other := NetCount(0, 0)];
    assert after.Keys == counts.Keys - {net} + {other};
    assert |after| == |after.Keys| && |counts| == |counts.Keys|;
  }

  lemma {:induction false} SameEntries(f: Layout, b: Book, b2: Book)
    requires b2 == b.(counts := b2.counts) && forall id :: id in b.mapInfo ==> EntryOk(b, id)
    ensures forall id :: id in b2.mapInfo ==> EntryOk(b2, id)
  {
    forall id | id in b2.mapInfo ensures EntryOk(b2, id) {
      assert EntryOk(b, id);
    }
  }

  lemma {:induction false} SameTables(f: Layout, b: Book, b2: Book)
    requires b2 == b.(counts := b2.counts) && AllTriedAt(f, b) && AllPlaceAt(f, b)
    ensures AllTriedAt(f, b2) && AllPlaceAt(f, b2)
  {
    forall s | s in b2.vvTried ensures TriedAt(f, b2, s) {
      assert TriedAt(f, b, s);
    }
    forall s | s in b2.vvNew ensures PlaceAt(f, b2, s) {
      assert PlaceAt(f, b, s);
    }
  }
}
