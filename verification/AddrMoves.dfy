/** Moving entries between the new and the tried table. */
module AddrMoves {
  import opened AddrBooks
  import opened AddrSteps

  /** Equal but for the position in `vRandom`. */
  ghost predicate SameEntry(i: AddrInfo, j: AddrInfo) {
    j == i.(randomPos := j.randomPos)
  }

  /** The other entries are still there, as they were. */
  ghost predicate Keeps(b: Book, b2: Book, id: Id) {
    && b2.nIdCount == b.nIdCount && b2.mapInfo.Keys <= b.mapInfo.Keys
    && forall j {:trigger KeptAt(b, b2, j)} :: j in b.mapInfo && j != id ==> KeptAt(b, b2, j)
  }

  ghost predicate KeptAt(b: Book, b2: Book, j: Id) {
    j in b.mapInfo && j in b2.mapInfo && SameEntry(b.mapInfo[j], b2.mapInfo[j])
  }

  /** An entry without where it is in the tables and lists. */
  function Bare(i: AddrInfo): AddrInfo {
    i.(refCount := 0, inTried := false, randomPos := 0)
  }

  /** Ids are not used again, and what is known about an address stays. */
  ghost predicate SameFacts(b: Book, b2: Book) {
    b.nIdCount <= b2.nIdCount && forall id {:trigger FactsKept(b, b2, id)} :: id in b2.mapInfo ==> FactsKept(b, b2, id)
  }

  ghost predicate FactsKept(b: Book, b2: Book, id: Id)
    requires id in b2.mapInfo
  {
    id >= b.nIdCount || (id in b.mapInfo && Bare(b2.mapInfo[id]) == Bare(b.mapInfo[id]))
  }

  lemma {:induction false} SameFactsTrans(b: Book, c: Book, d: Book)
    requires SameFacts(b, c) && SameFacts(c, d)
    ensures SameFacts(b, d)
  {
    forall id | id in d.mapInfo ensures FactsKept(b, d, id) {
      assert FactsKept(c, d, id);
      assert id in c.mapInfo ==> FactsKept(b, c, id);
    }
  }

  lemma {:induction false} DeletedSameFacts(f: Layout, b: Book, id: Id)
    requires RandomOk(b) && id in b.mapInfo
    requires 0 <= b.mapInfo[id].randomPos < |b.vRandom| && b.vRandom[b.mapInfo[id].randomPos] == id
    requires b.vRandom[|b.vRandom| - 1] in b.mapInfo
    ensures SameFacts(b, Deleted(f, b, id))
  {
    var b2 := Deleted(f, b, id);
    forall j | j in b2.mapInfo ensures FactsKept(b, b2, j) {
      DeletedInfos(f, b, id, j);
    }
  }

  /** Empty a slot of the new table, and delete the entry that was there if it has no other place. */
  method ClearNew(f: Layout, b: Book, s: Slot, ghost loose: set<Id>, ghost skip: set<Id>) returns (b2: Book)
    requires Agree(f, b, loose, skip) && (s in b.vvNew ==> b.vvNew[s] !in loose && b.vvNew[s] !in skip)
    ensures Agree(f, b2, loose, skip) && b2.vvNew == b.vvNew - {s} && b2.vvTried == b.vvTried && SameFacts(b, b2)
    ensures if s in b.vvNew then Keeps(b, b2, b.vvNew[s]) else b2 == b
  {
    b2 := b;
    if s in b.vvNew {
      var id := b.vvNew[s];
      PlaceRemovedAgree(f, b, s, loose, skip);
      b2 := PlaceRemoved(b, s);
      forall j | j in b2.mapInfo ensures FactsKept(b, b2, j) {}
      if b2.mapInfo[id].refCount == 0 {
        DeletedSameFacts(f, b2, id) by { DeleteReady(f, b2, id, loose + {id}, skip); }
        DeletedAgree(f, b2, id, loose + {id}, skip);
        assert loose + {id} - {id} == loose;
        DeletedKeeps(f, b2, id);
        ghost var b1 := b2;
        b2 := Deleted(f, b2, id);
        SameFactsTrans(b, b1, b2);
        forall j | j in b.mapInfo && j != id ensures KeptAt(b, b2, j) {
          assert KeptAt(b1, b2, j);
        }
      }
    } else {
      assert b.vvNew - {s} == b.vvNew;
    }
  }

  lemma {:induction false} DeletedKeeps(f: Layout, b: Book, id: Id)
    requires RandomOk(b) && id in b.mapInfo
    requires 0 <= b.mapInfo[id].randomPos < |b.vRandom| && b.vRandom[b.mapInfo[id].randomPos] == id
    requires b.vRandom[|b.vRandom| - 1] in b.mapInfo
    ensures Keeps(b, Deleted(f, b, id), id) && Deleted(f, b, id).vvNew == b.vvNew && Deleted(f, b, id).vvTried == b.vvTried
    ensures id !in Deleted(f, b, id).mapInfo && Deleted(f, b, id).mapInfo.Keys == b.mapInfo.Keys - {id}
  {
    var b2 := Deleted(f, b, id);
    forall j | j in b.mapInfo && j != id ensures KeptAt(b, b2, j) {
      DeletedInfos(f, b, id, j);
    }
  }

  /** The bucket visited after `n` others, starting from `start`. */
  function BucketAt(start: nat, n: nat): nat {
    (start + n) % NEW_BUCKET_COUNT
  }

  lemma {:induction false} AllBuckets(start: nat, bucket: nat) returns (n: nat)
    requires start < NEW_BUCKET_COUNT && bucket < NEW_BUCKET_COUNT
    ensures n < NEW_BUCKET_COUNT && BucketAt(start, n) == bucket
  {
    n := if bucket >= start then bucket - start else bucket + NEW_BUCKET_COUNT - start;
  }

  /** `id` has no place in the buckets visited so far. */
  ghost predicate Swept(t: Table, id: Id, start: nat, n: nat) {
    forall s, m :: s in Places(t, id) && 0 <= m < n ==> s.bucket != BucketAt(start, m)
  }

  lemma {:induction false} SweptNext(f: Layout, b: Book, id: Id, start: nat, n: nat)
    requires NewOk(f, b, {id}) && id in b.mapInfo && Swept(b.vvNew, id, start, n)
    requires NewSlot(f, b.mapInfo[id].addr, BucketAt(start, n)) !in Places(b.vvNew, id)
    ensures Swept(b.vvNew, id, start, n + 1)
  {
    forall s | s in Places(b.vvNew, id) ensures s.bucket != BucketAt(start, n) {
      assert NewAt(f, b, s);
    }
  }

  /** What the sweep over the buckets keeps: only places of `id` were emptied. */
  ghost predicate Sweeping(f: Layout, b: Book, b2: Book, id: Id, start: nat, n: nat) {
    && Agree(f, b2, {id}, {}) && Swept(b2.vvNew, id, start, n) && id in b.mapInfo && id in b2.mapInfo
    && b2.mapInfo == b.mapInfo[id := b.mapInfo[id].(refCount := b2.mapInfo[id].refCount)]
    && b2.vvTried == b.vvTried && b2.nIdCount == b.nIdCount && Thinned(b.vvNew, b2.vvNew, id)
  }

  ghost predicate Thinned(t: Table, t2: Table, id: Id) {
    forall s :: if s in t2 then s in t && t[s] == t2[s] else s in t ==> t[s] == id
  }

  lemma {:induction false} SweepTake(f: Layout, b: Book, b2: Book, id: Id, start: nat, n: nat)
    requires Sweeping(f, b, b2, id, start, n)
    requires NewSlot(f, b2.mapInfo[id].addr, BucketAt(start, n)) in Places(b2.vvNew, id)
    ensures Sweeping(f, b, PlaceRemoved(b2, NewSlot(f, b2.mapInfo[id].addr, BucketAt(start, n))), id, start, n + 1)
  {
    var slot := NewSlot(f, b2.mapInfo[id].addr, BucketAt(start, n));
    PlaceRemovedAgree(f, b2, slot, {id}, {});
    assert {id} + {id} == {id};
    var b3 := PlaceRemoved(b2, slot);
    assert forall s :: s in Places(b3.vvNew, id) ==> s in Places(b2.vvNew, id);
    SweptNext(f, b3, id, start, n);
  }

  /** Take an entry out of all its places in the new table. */
  method RemoveFromNew(f: Layout, b: Book, id: Id) returns (b2: Book)
    requires Agree(f, b, {}, {}) && id in b.mapInfo && !b.mapInfo[id].inTried
    ensures Agree(f, b2, {id}, {}) && b2.mapInfo == b.mapInfo[id := b.mapInfo[id].(refCount := 0)]
    ensures b2.vvTried == b.vvTried && b2.nIdCount == b.nIdCount && b2.vvNew == b.vvNew - Places(b.vvNew, id)
  {
    var a := b.mapInfo[id].addr;
    var start := f.newBucket(a, b.mapInfo[id].source);
    var n := 0;
    b2 := b;
    LooserAgree(f, b, id);
    while n < NEW_BUCKET_COUNT && b2.mapInfo[id].refCount > 0
      invariant 0 <= n <= NEW_BUCKET_COUNT && Sweeping(f, b, b2, id, start, n)
    {
      var slot := NewSlot(f, a, BucketAt(start, n));
      if slot in b2.vvNew && b2.vvNew[slot] == id {
        SweepTake(f, b, b2, id, start, n);
        b2 := PlaceRemoved(b2, slot);
      } else {
        SweptNext(f, b2, id, start, n);
      }
      n := n + 1;
    }
    SweepDone(f, b, b2, id, start, n);
  }

  lemma {:induction false} SweepDone(f: Layout, b: Book, b2: Book, id: Id, start: nat, n: nat)
    requires Sweeping(f, b, b2, id, start, n) && start < NEW_BUCKET_COUNT
    requires n == NEW_BUCKET_COUNT || b2.mapInfo[id].refCount <= 0
    ensures b2.mapInfo[id].refCount == 0 && b2.vvNew == b.vvNew - Places(b.vvNew, id)
  {
    assert RefsAt(b2, {id}, id);
    if n == NEW_BUCKET_COUNT {
      SweptAll(f, b2, id, start);
    }
    assert Places(b2.vvNew, id) == {};
    forall s ensures s in b2.vvNew <==> s in b.vvNew - Places(b.vvNew, id) {
      assert s in b2.vvNew ==> s !in Places(b2.vvNew, id);
    }
  }

  lemma {:induction false} SweptAll(f: Layout, b: Book, id: Id, start: nat)
    requires NewOk(f, b, {id}) && start < NEW_BUCKET_COUNT && Swept(b.vvNew, id, start, NEW_BUCKET_COUNT)
    ensures Places(b.vvNew, id) == {}
  {
    forall s ensures s !in Places(b.vvNew, id) {
      if s in b.vvNew && s.bucket < NEW_BUCKET_COUNT {
        var m := AllBuckets(start, s.bucket);
      }
      assert s in b.vvNew ==> NewAt(f, b, s);
    }
  }

  lemma {:induction false} LooserAgree(f: Layout, b: Book, id: Id)
    requires Agree(f, b, {}, {})
    ensures Agree(f, b, {id}, {})
  {
    forall j | j in b.mapInfo ensures RefsAt(b, {id}, j) {
      assert RefsAt(b, {}, j);
    }
  }

  // ---------- Into and out of the tried table ----------

  /** No longer count an entry as new. */
  function Uncounted(f: Layout, b: Book, id: Id): Book
    requires id in b.mapInfo
  {
    b.(nNew := b.nNew - 1, counts := Bump(b.counts, f.network(b.mapInfo[id].addr), -1, 0))
  }

  lemma {:induction false} SameTables(f: Layout, b: Book, b2: Book, loose: set<Id>)
    requires LayoutOk(f) && AddrsOk(b) && RandomOk(b) && TriedOk(f, b) && NewOk(f, b, loose) && TimesOk(b)
    requires b2 == b.(nNew := b2.nNew, nTried := b2.nTried, counts := b2.counts)
    ensures AddrsOk(b2) && RandomOk(b2) && TriedOk(f, b2) && NewOk(f, b2, loose) && TimesOk(b2)
  {
    forall j | j in b2.mapInfo ensures AddrAt(b2, j) && PosAt(b2, j) && InTriedAt(f, b2, j) && RefsAt(b2, loose, j) {
      assert AddrAt(b, j) && PosAt(b, j) && InTriedAt(f, b, j) && RefsAt(b, loose, j);
    }
    forall a | a in b2.mapAddr ensures FoundAt(b2, a) {
      assert FoundAt(b, a);
    }
    forall k | 0 <= k < |b2.vRandom| ensures ListedAt(b2, k) {
      assert ListedAt(b, k);
    }
    forall s | s in b2.vvTried ensures TriedAt(f, b2, s) {
      assert TriedAt(f, b, s);
    }
    forall s | s in b2.vvNew ensures NewAt(f, b2, s) {
      assert NewAt(f, b, s);
    }
  }

  lemma {:induction false} UncountedAgree(f: Layout, b: Book, id: Id)
    requires Agree(f, b, {id}, {}) && id in b.mapInfo && !b.mapInfo[id].inTried
    ensures Agree(f, Uncounted(f, b, id), {id}, {id})
  {
    var b2 := Uncounted(f, b, id);
    SameTables(f, b, b2, {id});
    CountsChange(f, b, {}, b2, {id}, id, b.mapInfo[id].addr);
  }

  /** Take the entry in a slot out of the tried table. */
  function Evicted(f: Layout, b: Book, s: Slot): Book
    requires s in b.vvTried && b.vvTried[s] in b.mapInfo
  {
    var id := b.vvTried[s];
    b.(mapInfo := b.mapInfo[id := b.mapInfo[id].(inTried := false)], vvTried := b.vvTried - {s}, nTried := b.nTried - 1,
       counts := Bump(b.counts, f.network(b.mapInfo[id].addr), 0, -1))
  }

  lemma {:induction false} EvictedAgree(f: Layout, b: Book, s: Slot, id: Id)
    requires Agree(f, b, {id}, {id}) && s in b.vvTried && id in b.mapInfo && !b.mapInfo[id].inTried
    ensures b.vvTried[s] in b.mapInfo && b.vvTried[s] != id && b.mapInfo[b.vvTried[s]].inTried && b.mapInfo[b.vvTried[s]].refCount == 0
    ensures Agree(f, Evicted(f, b, s), {id, b.vvTried[s]}, {id, b.vvTried[s]})
  {
    var other := b.vvTried[s];
    assert TriedAt(f, b, s);
    TriedHasNoPlace(f, b, other, {id});
    var b2 := Evicted(f, b, s);
    TouchesIndex(b, b2, other);
    assert TimesAt(b.mapInfo[other]);
    TouchesTimes(b, b2, other);
    CountsChange(f, b, {id}, b2, {id, other}, other, b.mapInfo[other].addr);
    forall r | r in b2.vvTried ensures TriedAt(f, b2, r) {
      assert TriedAt(f, b, r);
    }
    forall j | j in b2.mapInfo ensures InTriedAt(f, b2, j) && RefsAt(b2, {id, other}, j) {
      assert InTriedAt(f, b, j) && RefsAt(b, {id}, j);
    }
    forall r | r in b2.vvNew ensures NewAt(f, b2, r) {
      assert NewAt(f, b, r);
    }
  }

  lemma {:induction false} TriedHasNoPlace(f: Layout, b: Book, id: Id, loose: set<Id>)
    requires NewOk(f, b, loose) && id in b.mapInfo && b.mapInfo[id].inTried
    ensures Places(b.vvNew, id) == {} && b.mapInfo[id].refCount == 0
  {
    forall s | s in b.vvNew ensures b.vvNew[s] != id {
      assert NewAt(f, b, s);
    }
    assert RefsAt(b, loose, id);
  }

  /** Put an evicted entry into an empty slot of the new table. */
  function Readded(f: Layout, b: Book, s: Slot, id: Id): Book
    requires id in b.mapInfo
  {
    b.(mapInfo := b.mapInfo[id := b.mapInfo[id].(refCount := 1)], vvNew := b.vvNew[s := id], nNew := b.nNew + 1,
       counts := Bump(b.counts, f.network(b.mapInfo[id].addr), 1, 0))
  }

  lemma {:induction false} ReaddedAgree(f: Layout, b: Book, s: Slot, other: Id, id: Id)
    requires Agree(f, b, {id, other}, {id, other}) && other in b.mapInfo && other != id && !b.mapInfo[other].inTried && b.mapInfo[other].refCount == 0
    requires s !in b.vvNew && s.bucket < NEW_BUCKET_COUNT && s == NewSlot(f, b.mapInfo[other].addr, s.bucket)
    ensures Agree(f, Readded(f, b, s, other), {id}, {id})
  {
    var b1 := PlaceAdded(b, s, other);
    PlaceAddedAgree(f, b, s, other, {id, other}, {id, other});
    assert {id, other} - {other} == {id};
    var b2 := Readded(f, b, s, other);
    SameTables(f, b1, b2, {id});
    CountsChange(f, b1, {id, other}, b2, {id}, other, b.mapInfo[other].addr);
  }

  /** Put an entry into its empty slot of the tried table. */
  function EnteredTried(f: Layout, b: Book, id: Id): Book
    requires id in b.mapInfo
  {
    var a := b.mapInfo[id].addr;
    b.(mapInfo := b.mapInfo[id := b.mapInfo[id].(inTried := true)], vvTried := b.vvTried[TriedSlot(f, a) := id], nTried := b.nTried + 1,
       counts := Bump(b.counts, f.network(a), 0, 1))
  }

  lemma {:induction false} EnteredTriedAgree(f: Layout, b: Book, id: Id)
    requires Agree(f, b, {id}, {id}) && id in b.mapInfo && !b.mapInfo[id].inTried && b.mapInfo[id].refCount == 0 && b.mapInfo[id].lastSuccess > 0
    requires TriedSlot(f, b.mapInfo[id].addr) !in b.vvTried
    ensures Agree(f, EnteredTried(f, b, id), {}, {})
  {
    var b2 := EnteredTried(f, b, id);
    TouchesIndex(b, b2, id);
    assert TimesAt(b.mapInfo[id]);
    TouchesTimes(b, b2, id);
    CountsChange(f, b, {id}, b2, {}, id, b.mapInfo[id].addr);
    EnteredTables(f, b, id);
  }

  lemma {:induction false} EnteredTables(f: Layout, b: Book, id: Id)
    requires TriedOk(f, b) && NewOk(f, b, {id}) && id in b.mapInfo && !b.mapInfo[id].inTried && b.mapInfo[id].refCount == 0
    requires TriedSlot(f, b.mapInfo[id].addr) !in b.vvTried
    ensures TriedOk(f, EnteredTried(f, b, id)) && NewOk(f, EnteredTried(f, b, id), {})
  {
    var b2 := EnteredTried(f, b, id);
    forall r | r in b2.vvTried ensures TriedAt(f, b2, r) {
      assert r in b.vvTried ==> TriedAt(f, b, r);
    }
    forall j | j in b2.mapInfo ensures InTriedAt(f, b2, j) && RefsAt(b2, {}, j) {
      assert InTriedAt(f, b, j) && RefsAt(b, {id}, j);
    }
    forall r | r in b2.vvNew ensures NewAt(f, b2, r) {
      assert NewAt(f, b, r);
      assert RefsAt(b, {id}, id);
      assert r !in Places(b.vvNew, id);
    }
  }

  /** Take an entry out of the new table, and out of the counts. */
  method LeaveNew(f: Layout, b: Book, id: Id) returns (b2: Book)
    requires Agree(f, b, {}, {}) && id in b.mapInfo && !b.mapInfo[id].inTried
    ensures Agree(f, b2, {id}, {id}) && b2.mapInfo == b.mapInfo[id := b.mapInfo[id].(refCount := 0)]
    ensures b2.vvTried == b.vvTried && SameFacts(b, b2) && b2.vvNew == b.vvNew - Places(b.vvNew, id)
  {
    b2 := RemoveFromNew(f, b, id);
    UncountedAgree(f, b2, id);
    b2 := Uncounted(f, b2, id);
    forall j | j in b2.mapInfo ensures FactsKept(b, b2, j) {}
  }

  /** Where an entry that leaves the tried table goes. */
  function Home(f: Layout, i: AddrInfo): Slot {
    NewSlot(f, i.addr, f.newBucket(i.addr, i.source))
  }

  /** The new table once the entry in a slot of the tried table, if any, took its home there. */
  ghost function Rehoused(f: Layout, infos: Infos, tried: Table, t: Table, slot: Slot): Table
    requires slot in tried ==> tried[slot] in infos
  {
    if slot in tried then t[Home(f, infos[tried[slot]]) := tried[slot]] else t
  }

  /** Move an entry from the new to the tried table. What was in its slot there goes back to the new
      table, where it may take the place of yet another entry. */
  method MakeTried(f: Layout, b: Book, id: Id) returns (b2: Book)
    requires Agree(f, b, {}, {}) && id in b.mapInfo && !b.mapInfo[id].inTried && b.mapInfo[id].lastSuccess > 0
    ensures Agree(f, b2, {}, {}) && SameFacts(b, b2)
    ensures var slot := TriedSlot(f, b.mapInfo[id].addr);
            && b2.vvTried == b.vvTried[slot := id] && (slot in b.vvTried ==> b.vvTried[slot] in b.mapInfo)
            && b2.vvNew == Rehoused(f, b.mapInfo, b.vvTried, b.vvNew - Places(b.vvNew, id), slot)
  {
    var b1 := LeaveNew(f, b, id);
    var slot := TriedSlot(f, b1.mapInfo[id].addr);
    SlotTaken(f, b, slot);
    RehousedSame(f, b.mapInfo, b1.mapInfo, b.vvTried, b1.vvNew, slot);
    b2 := FreeTried(f, b1, slot, id);
    SameFactsTrans(b, b1, b2);
    PutOver(b.vvTried, slot, id);
    b2 := EnterTried(f, b2, id, b);
  }

  lemma {:induction false} PutOver(t: Table, s: Slot, id: Id)
    ensures (t - {s})[s := id] == t[s := id]
  {
  }

  lemma {:induction false} RehousedSame(f: Layout, infos: Infos, infos2: Infos, tried: Table, t: Table, slot: Slot)
    requires slot in tried ==> tried[slot] in infos && tried[slot] in infos2 && infos2[tried[slot]] == infos[tried[slot]]
    ensures Rehoused(f, infos2, tried, t, slot) == Rehoused(f, infos, tried, t, slot)
  {
  }

  /** Put an entry without a place into its slot of the tried table, which is empty. */
  method EnterTried(f: Layout, b: Book, id: Id, ghost b0: Book) returns (b2: Book)
    requires Agree(f, b, {id}, {id}) && id in b.mapInfo && !b.mapInfo[id].inTried && b.mapInfo[id].refCount == 0 && b.mapInfo[id].lastSuccess > 0
    requires TriedSlot(f, b.mapInfo[id].addr) !in b.vvTried && SameFacts(b0, b)
    ensures Agree(f, b2, {}, {}) && SameFacts(b0, b2)
    ensures b2.vvTried == b.vvTried[TriedSlot(f, b.mapInfo[id].addr) := id] && b2.vvNew == b.vvNew
  {
    EnteredTriedAgree(f, b, id);
    EnteredFacts(f, b0, b, id);
    b2 := EnteredTried(f, b, id);
  }

  lemma {:induction false} SlotTaken(f: Layout, b: Book, slot: Slot)
    requires TriedOk(f, b)
    ensures slot in b.vvTried ==> b.vvTried[slot] in b.mapInfo && b.mapInfo[b.vvTried[slot]].inTried
  {
    assert slot in b.vvTried ==> TriedAt(f, b, slot);
  }

  /** Make sure that a slot of the tried table is empty. */
  method FreeTried(f: Layout, b: Book, slot: Slot, ghost id: Id) returns (b2: Book)
    requires Agree(f, b, {id}, {id}) && id in b.mapInfo && !b.mapInfo[id].inTried && Places(b.vvNew, id) == {}
    ensures Agree(f, b2, {id}, {id}) && b2.vvTried == b.vvTried - {slot} && SameFacts(b, b2)
    ensures id in b2.mapInfo && SameEntry(b.mapInfo[id], b2.mapInfo[id])
    ensures (slot in b.vvTried ==> b.vvTried[slot] in b.mapInfo) && b2.vvNew == Rehoused(f, b.mapInfo, b.vvTried, b.vvNew, slot)
  {
    SlotTaken(f, b, slot);
    if slot in b.vvTried {
      b2 := EvictToNew(f, b, slot, id);
    } else {
      b2 := b;
      assert b.vvTried == b.vvTried - {slot};
      forall j | j in b.mapInfo ensures FactsKept(b, b, j) {}
    }
  }

  lemma {:induction false} EnteredFacts(f: Layout, b: Book, b2: Book, id: Id)
    requires SameFacts(b, b2) && id in b2.mapInfo
    ensures SameFacts(b, EnteredTried(f, b2, id))
  {
    var b3 := EnteredTried(f, b2, id);
    forall j | j in b3.mapInfo ensures FactsKept(b, b3, j) {
      assert FactsKept(b, b2, j);
    }
  }

  lemma {:induction false} StillThere(b: Book, b2: Book, s: Slot, j: Id)
    requires j in b.mapInfo && (s in b.vvNew ==> b.vvNew[s] != j) && (if s in b.vvNew then Keeps(b, b2, b.vvNew[s]) else b2 == b)
    ensures j in b2.mapInfo && SameEntry(b.mapInfo[j], b2.mapInfo[j])
  {
    assert KeptAt(b, b2, j);
  }

  /** Make room in the tried table. */
  method EvictToNew(f: Layout, b: Book, slot: Slot, ghost id: Id) returns (b2: Book)
    requires Agree(f, b, {id}, {id}) && slot in b.vvTried && id in b.mapInfo && !b.mapInfo[id].inTried && Places(b.vvNew, id) == {}
    ensures Agree(f, b2, {id}, {id}) && b2.vvTried == b.vvTried - {slot} && SameFacts(b, b2)
    ensures id in b2.mapInfo && SameEntry(b.mapInfo[id], b2.mapInfo[id])
    ensures b.vvTried[slot] in b.mapInfo && b2.vvNew == b.vvNew[Home(f, b.mapInfo[b.vvTried[slot]]) := b.vvTried[slot]]
  {
    var other := b.vvTried[slot];
    EvictedAgree(f, b, slot, id);
    TriedHasNoPlace(f, b, other, {id});
    var b1 := Evicted(f, b, slot);
    var nu := Home(f, b1.mapInfo[other]);
    assert nu in b1.vvNew && b1.vvNew[nu] == id ==> nu in Places(b.vvNew, id);
    assert nu in b1.vvNew && b1.vvNew[nu] == other ==> nu in Places(b.vvNew, other);
    b2 := ClearNew(f, b1, nu, {id, other}, {id, other});
    StillThere(b1, b2, nu, other);
    StillThere(b1, b2, nu, id);
    ReaddedAgree(f, b2, nu, other, id);
    ReaddedFacts(f, b, slot, b2, nu, other);
    PutOver(b.vvNew, nu, other);
    b2 := Readded(f, b2, nu, other);
  }

  lemma {:induction false} ReaddedFacts(f: Layout, b: Book, slot: Slot, c: Book, nu: Slot, other: Id)
    requires slot in b.vvTried && b.vvTried[slot] in b.mapInfo && SameFacts(Evicted(f, b, slot), c) && other in c.mapInfo
    ensures SameFacts(b, Readded(f, c, nu, other))
  {
    var d := Readded(f, c, nu, other);
    forall j | j in d.mapInfo ensures FactsKept(b, d, j) {
      assert FactsKept(Evicted(f, b, slot), c, j);
    }
  }
}
