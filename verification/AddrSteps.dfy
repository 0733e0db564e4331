/** The small changes to the address tables, and why the tables go on agreeing. */
module AddrSteps {
  import opened AddrBooks

  // ---------- Changing one entry ----------

  /** The same entries, except that `id` may differ in more than its address and its position. */
  ghost predicate Touches(b: Book, b2: Book, id: Id) {
    && id in b.mapInfo && b2.mapInfo.Keys == b.mapInfo.Keys
    && (forall j :: j in b.mapInfo && j != id ==> b2.mapInfo[j] == b.mapInfo[j])
    && b2.mapInfo[id].addr == b.mapInfo[id].addr && b2.mapInfo[id].randomPos == b.mapInfo[id].randomPos
    && b2.mapAddr == b.mapAddr && b2.nIdCount == b.nIdCount && b2.vRandom == b.vRandom
  }

  lemma {:induction false} TouchesIndex(b: Book, b2: Book, id: Id)
    requires Touches(b, b2, id) && AddrsOk(b) && RandomOk(b)
    ensures AddrsOk(b2) && RandomOk(b2)
  {
    forall j | j in b2.mapInfo ensures AddrAt(b2, j) && PosAt(b2, j) {
      assert AddrAt(b, j) && PosAt(b, j);
    }
    forall a | a in b2.mapAddr ensures FoundAt(b2, a) {
      assert FoundAt(b, a);
    }
    forall k | 0 <= k < |b2.vRandom| ensures ListedAt(b2, k) {
      assert ListedAt(b, k);
    }
  }

  lemma {:induction false} TouchesTried(f: Layout, b: Book, b2: Book, id: Id)
    requires Touches(b, b2, id) && TriedOk(f, b) && b2.vvTried == b.vvTried && b2.mapInfo[id].inTried == b.mapInfo[id].inTried
    ensures TriedOk(f, b2)
  {
    forall s | s in b2.vvTried ensures TriedAt(f, b2, s) {
      assert TriedAt(f, b, s);
    }
    forall j | j in b2.mapInfo ensures InTriedAt(f, b2, j) {
      assert InTriedAt(f, b, j);
    }
  }

  lemma {:induction false} TouchesNew(f: Layout, b: Book, b2: Book, id: Id, loose: set<Id>)
    requires Touches(b, b2, id) && NewOk(f, b, loose) && b2.vvNew == b.vvNew
    requires b2.mapInfo[id].inTried == b.mapInfo[id].inTried && b2.mapInfo[id].refCount == b.mapInfo[id].refCount
    ensures NewOk(f, b2, loose)
  {
    forall s | s in b2.vvNew ensures NewAt(f, b2, s) {
      assert NewAt(f, b, s);
    }
    forall j | j in b2.mapInfo ensures RefsAt(b2, loose, j) {
      assert RefsAt(b, loose, j);
    }
  }

  lemma {:induction false} TouchesTimes(b: Book, b2: Book, id: Id)
    requires Touches(b, b2, id) && TimesOk(b) && TimesAt(b2.mapInfo[id])
    ensures TimesOk(b2)
  {
    forall j | j in b2.mapInfo ensures TimesAt(b2.mapInfo[j]) {
      assert TimesAt(b.mapInfo[j]);
    }
  }

  lemma {:induction false} TouchesCounts(f: Layout, b: Book, b2: Book, id: Id, skip: set<Id>)
    requires Touches(b, b2, id) && CountsOk(f, b, skip) && b2.mapInfo[id].inTried == b.mapInfo[id].inTried
    requires b2.nNew == b.nNew && b2.nTried == b.nTried && b2.counts == b.counts
    ensures CountsOk(f, b2, skip)
  {
    RecountAll(b.mapInfo, skip, b2.mapInfo, skip, id, false);
    RecountAll(b.mapInfo, skip, b2.mapInfo, skip, id, true);
    forall net ensures NetAt(f, b2, skip, net) {
      assert NetAt(f, b, skip, net);
      Recount(f, b.mapInfo, skip, b2.mapInfo, skip, id, false, net);
      Recount(f, b.mapInfo, skip, b2.mapInfo, skip, id, true, net);
    }
  }

  /** Changing times and attempts of an entry. */
  function WithInfo(b: Book, id: Id, info: AddrInfo): Book {
    b.(mapInfo := b.mapInfo[id := info])
  }

  ghost predicate SameBook(i: AddrInfo, j: AddrInfo) {
    j.addr == i.addr && j.inTried == i.inTried && j.refCount == i.refCount && j.randomPos == i.randomPos
  }

  lemma {:induction false} WithInfoAgree(f: Layout, b: Book, id: Id, info: AddrInfo)
    requires Agree(f, b, {}, {}) && id in b.mapInfo && SameBook(b.mapInfo[id], info) && TimesAt(info)
    ensures Agree(f, WithInfo(b, id, info), {}, {})
  {
    var b2 := WithInfo(b, id, info);
    TouchesIndex(b, b2, id);
    TouchesTried(f, b, b2, id);
    TouchesNew(f, b, b2, id, {});
    TouchesTimes(b, b2, id);
    TouchesCounts(f, b, b2, id, {});
  }

  // ---------- Places in the new table ----------

  /** Put `id` into an empty slot of the new table. */
  function PlaceAdded(b: Book, s: Slot, id: Id): Book
    requires id in b.mapInfo
  {
    b.(mapInfo := b.mapInfo[id := b.mapInfo[id].(refCount := b.mapInfo[id].refCount + 1)], vvNew := b.vvNew[s := id])
  }

  /** Empty a slot of the new table. */
  function PlaceRemoved(b: Book, s: Slot): Book
    requires s in b.vvNew && b.vvNew[s] in b.mapInfo
  {
    var id := b.vvNew[s];
    b.(mapInfo := b.mapInfo[id := b.mapInfo[id].(refCount := b.mapInfo[id].refCount - 1)], vvNew := b.vvNew - {s})
  }

  lemma {:induction false} PlacesAdd(t: Table, s: Slot, id: Id, j: Id)
    requires s !in t
    ensures |Places(t[s := id], j)| == |Places(t, j)| + One(j == id)
  {
    assert Places(t[s := id], j) == if j == id then Places(t, j) + {s} else Places(t, j);
  }

  lemma {:induction false} PlacesRemove(t: Table, s: Slot, j: Id)
    requires s in t
    ensures |Places(t - {s}, j)| == |Places(t, j)| - One(j == t[s])
  {
    assert Places(t - {s}, j) == if j == t[s] then Places(t, j) - {s} else Places(t, j);
  }

  lemma {:induction false} PlaceAddedAgree(f: Layout, b: Book, s: Slot, id: Id, loose: set<Id>, skip: set<Id>)
    requires Agree(f, b, loose, skip) && id in b.mapInfo && s !in b.vvNew && !b.mapInfo[id].inTried
    requires b.mapInfo[id].refCount < NEW_BUCKETS_PER_ADDRESS && s.bucket < NEW_BUCKET_COUNT && s == NewSlot(f, b.mapInfo[id].addr, s.bucket)
    ensures Agree(f, PlaceAdded(b, s, id), loose - {id}, skip)
  {
    var b2 := PlaceAdded(b, s, id);
    TouchesIndex(b, b2, id);
    TouchesTried(f, b, b2, id);
    assert TimesAt(b.mapInfo[id]);
    TouchesTimes(b, b2, id);
    TouchesCounts(f, b, b2, id, skip);
    forall r | r in b2.vvNew ensures NewAt(f, b2, r) {
      assert r != s ==> NewAt(f, b, r);
    }
    forall j | j in b2.mapInfo ensures RefsAt(b2, loose - {id}, j) {
      assert RefsAt(b, loose, j);
      PlacesAdd(b.vvNew, s, id, j);
    }
  }

  lemma {:induction false} PlaceRemovedAgree(f: Layout, b: Book, s: Slot, loose: set<Id>, skip: set<Id>)
    requires Agree(f, b, loose, skip) && s in b.vvNew
    ensures b.vvNew[s] in b.mapInfo && !b.mapInfo[b.vvNew[s]].inTried && b.mapInfo[b.vvNew[s]].refCount > 0
    ensures Agree(f, PlaceRemoved(b, s), if b.mapInfo[b.vvNew[s]].refCount == 1 then loose + {b.vvNew[s]} else loose, skip)
  {
    var id := b.vvNew[s];
    assert NewAt(f, b, s);
    assert RefsAt(b, loose, id);
    assert s in Places(b.vvNew, id);
    var b2 := PlaceRemoved(b, s);
    var loose2 := if b.mapInfo[id].refCount == 1 then loose + {id} else loose;
    TouchesIndex(b, b2, id);
    TouchesTried(f, b, b2, id);
    assert TimesAt(b.mapInfo[id]);
    TouchesTimes(b, b2, id);
    TouchesCounts(f, b, b2, id, skip);
    forall r | r in b2.vvNew ensures NewAt(f, b2, r) {
      assert NewAt(f, b, r);
    }
    forall j | j in b2.mapInfo ensures RefsAt(b2, loose2, j) {
      assert RefsAt(b, loose, j);
      PlacesRemove(b.vvNew, s, j);
    }
  }

  // ---------- Creating and deleting entries ----------

  /** A new entry, without a place yet. */
  function Created(f: Layout, b: Book, a: Service, source: Source, time: int): Book {
    var id := b.nIdCount;
    Book(id + 1, b.mapInfo[id := AddrInfo(a, source, time, 0, 0, 0, 0, 0, false, |b.vRandom|)], b.mapAddr[a := id], b.vRandom + [id],
         b.nTried, b.vvTried, b.nNew + 1, b.vvNew, Bump(b.counts, f.network(a), 1, 0))
  }

  lemma {:induction false} FreshId(f: Layout, b: Book, loose: set<Id>, skip: set<Id>)
    requires Agree(f, b, loose, skip)
    ensures b.nIdCount !in b.mapInfo && Places(b.vvNew, b.nIdCount) == {} && b.nIdCount !in b.vvTried.Values
  {
    assert b.nIdCount in b.mapInfo ==> AddrAt(b, b.nIdCount);
    forall s | s in b.vvNew ensures b.vvNew[s] != b.nIdCount {
      assert NewAt(f, b, s);
      assert AddrAt(b, b.vvNew[s]);
    }
    forall s | s in b.vvTried ensures b.vvTried[s] != b.nIdCount {
      assert TriedAt(f, b, s);
      assert AddrAt(b, b.vvTried[s]);
    }
  }

  lemma {:induction false} CreatedIndex(f: Layout, b: Book, a: Service, source: Source, time: int)
    requires AddrsOk(b) && RandomOk(b) && a !in b.mapAddr && b.nIdCount !in b.mapInfo
    ensures AddrsOk(Created(f, b, a, source, time)) && RandomOk(Created(f, b, a, source, time))
  {
    var id, b2 := b.nIdCount, Created(f, b, a, source, time);
    forall j | j in b2.mapInfo ensures AddrAt(b2, j) && PosAt(b2, j) {
      assert j != id ==> AddrAt(b, j) && PosAt(b, j);
    }
    forall c | c in b2.mapAddr ensures FoundAt(b2, c) {
      assert c != a ==> FoundAt(b, c);
    }
    forall k | 0 <= k < |b2.vRandom| ensures ListedAt(b2, k) {
      assert k < |b.vRandom| ==> ListedAt(b, k);
    }
  }

  lemma {:induction false} CreatedTables(f: Layout, b: Book, a: Service, source: Source, time: int)
    requires TriedOk(f, b) && NewOk(f, b, {}) && b.nIdCount !in b.mapInfo && Places(b.vvNew, b.nIdCount) == {}
    ensures TriedOk(f, Created(f, b, a, source, time)) && NewOk(f, Created(f, b, a, source, time), {b.nIdCount})
  {
    var id, b2 := b.nIdCount, Created(f, b, a, source, time);
    forall s | s in b2.vvTried ensures TriedAt(f, b2, s) {
      assert TriedAt(f, b, s);
    }
    forall s | s in b2.vvNew ensures NewAt(f, b2, s) {
      assert NewAt(f, b, s);
    }
    forall j | j in b2.mapInfo ensures InTriedAt(f, b2, j) && RefsAt(b2, {id}, j) {
      assert j != id ==> InTriedAt(f, b, j) && RefsAt(b, {}, j);
    }
  }

  lemma {:induction false} CreatedCounts(f: Layout, b: Book, a: Service, source: Source, time: int)
    requires TimesOk(b) && CountsOk(f, b, {}) && b.nIdCount !in b.mapInfo
    ensures TimesOk(Created(f, b, a, source, time)) && CountsOk(f, Created(f, b, a, source, time), {})
  {
    var id, b2 := b.nIdCount, Created(f, b, a, source, time);
    forall j | j in b2.mapInfo ensures TimesAt(b2.mapInfo[j]) {
      assert j != id ==> TimesAt(b.mapInfo[j]);
    }
    CountsChange(f, b, {}, b2, {}, id, a);
  }

  lemma {:induction false} CreatedAgree(f: Layout, b: Book, a: Service, source: Source, time: int)
    requires Agree(f, b, {}, {}) && a !in b.mapAddr
    ensures b.nIdCount !in b.mapInfo && Agree(f, Created(f, b, a, source, time), {b.nIdCount}, {})
  {
    FreshId(f, b, {}, {});
    CreatedIndex(f, b, a, source, time);
    CreatedTables(f, b, a, source, time);
    CreatedCounts(f, b, a, source, time);
  }

  /** Exchange two elements of `vRandom`. */
  function SwapRandom(b: Book, p: nat, q: nat): Book
    requires p < |b.vRandom| && q < |b.vRandom| && b.vRandom[p] in b.mapInfo && b.vRandom[q] in b.mapInfo
  {
    if p == q then b
    else
      var i, j := b.vRandom[p], b.vRandom[q];
      var m := b.mapInfo[i := b.mapInfo[i].(randomPos := q)];
      b.(mapInfo := m[j := m[j].(randomPos := p)], vRandom := b.vRandom[p := j][q := i])
  }

  /** Take an entry without a place out of everything. */
  function Deleted(f: Layout, b: Book, id: Id): Book
    requires id in b.mapInfo && 0 <= b.mapInfo[id].randomPos < |b.vRandom| && b.vRandom[b.mapInfo[id].randomPos] == id
    requires b.vRandom[|b.vRandom| - 1] in b.mapInfo
  {
    var info := b.mapInfo[id];
    var b1 := SwapRandom(b, info.randomPos, |b.vRandom| - 1);
    b1.(counts := Bump(b1.counts, f.network(info.addr), -1, 0), vRandom := b1.vRandom[..|b1.vRandom| - 1],
        mapAddr := b1.mapAddr - {info.addr}, mapInfo := b1.mapInfo - {id}, nNew := b1.nNew - 1)
  }

  lemma {:induction false} DeleteReady(f: Layout, b: Book, id: Id, loose: set<Id>, skip: set<Id>)
    requires Agree(f, b, loose, skip) && id in b.mapInfo
    ensures 0 <= b.mapInfo[id].randomPos < |b.vRandom| && b.vRandom[b.mapInfo[id].randomPos] == id
    ensures b.vRandom[|b.vRandom| - 1] in b.mapInfo
  {
    assert PosAt(b, id);
    assert ListedAt(b, |b.vRandom| - 1);
  }

  lemma {:induction false} SwapInfos(b: Book, p: nat, q: nat, j: Id)
    requires p < |b.vRandom| && q < |b.vRandom| && b.vRandom[p] in b.mapInfo && b.vRandom[q] in b.mapInfo && j in b.mapInfo
    requires b.vRandom[p] == b.vRandom[q] ==> p == q
    requires b.mapInfo[b.vRandom[p]].randomPos == p && b.mapInfo[b.vRandom[q]].randomPos == q
    ensures var b2 := SwapRandom(b, p, q);
            && b2.mapInfo.Keys == b.mapInfo.Keys && b2.mapAddr == b.mapAddr && |b2.vRandom| == |b.vRandom|
            && b2.mapInfo[j] == b.mapInfo[j].(randomPos := if j == b.vRandom[p] then q else if j == b.vRandom[q] then p else b.mapInfo[j].randomPos)
  {
  }

  /** Entries are as before, except for the position of the one that took the place in `vRandom`. */
  lemma {:induction false} DeletedInfos(f: Layout, b: Book, id: Id, j: Id)
    requires RandomOk(b) && id in b.mapInfo && j in b.mapInfo && j != id
    requires 0 <= b.mapInfo[id].randomPos < |b.vRandom| && b.vRandom[b.mapInfo[id].randomPos] == id
    requires b.vRandom[|b.vRandom| - 1] in b.mapInfo
    ensures var b2 := Deleted(f, b, id);
            && b2.mapInfo.Keys == b.mapInfo.Keys - {id} && b2.mapAddr == b.mapAddr - {b.mapInfo[id].addr} && |b2.vRandom| == |b.vRandom| - 1
            && b2.mapInfo[j] == b.mapInfo[j].(randomPos := if j == b.vRandom[|b.vRandom| - 1] then b.mapInfo[id].randomPos else b.mapInfo[j].randomPos)
  {
    assert ListedAt(b, b.mapInfo[id].randomPos) && ListedAt(b, |b.vRandom| - 1);
    SwapInfos(b, b.mapInfo[id].randomPos, |b.vRandom| - 1, j);
  }

  lemma {:induction false} DeletedAddrs(f: Layout, b: Book, id: Id)
    requires AddrsOk(b) && RandomOk(b) && id in b.mapInfo
    requires 0 <= b.mapInfo[id].randomPos < |b.vRandom| && b.vRandom[b.mapInfo[id].randomPos] == id
    requires b.vRandom[|b.vRandom| - 1] in b.mapInfo
    ensures AddrsOk(Deleted(f, b, id))
  {
    var b2 := Deleted(f, b, id);
    assert AddrAt(b, id);
    forall j | j in b2.mapInfo ensures AddrAt(b2, j) {
      DeletedInfos(f, b, id, j);
      assert AddrAt(b, j);
    }
    forall a | a in b2.mapAddr ensures FoundAt(b2, a) {
      assert FoundAt(b, a);
      DeletedInfos(f, b, id, b.mapAddr[a]);
    }
  }

  lemma {:induction false} DeletedRandom(f: Layout, b: Book, id: Id)
    requires RandomOk(b) && id in b.mapInfo
    requires 0 <= b.mapInfo[id].randomPos < |b.vRandom| && b.vRandom[b.mapInfo[id].randomPos] == id
    requires b.vRandom[|b.vRandom| - 1] in b.mapInfo
    ensures RandomOk(Deleted(f, b, id))
  {
    var b2 := Deleted(f, b, id);
    forall j | j in b2.mapInfo ensures PosAt(b2, j) {
      DeletedInfos(f, b, id, j);
      assert PosAt(b, j);
    }
    forall k | 0 <= k < |b2.vRandom| ensures ListedAt(b2, k) {
      DeletedListed(f, b, id, k);
    }
  }

  lemma {:induction false} DeletedListed(f: Layout, b: Book, id: Id, k: nat)
    requires RandomOk(b) && id in b.mapInfo
    requires 0 <= b.mapInfo[id].randomPos < |b.vRandom| && b.vRandom[b.mapInfo[id].randomPos] == id
    requires b.vRandom[|b.vRandom| - 1] in b.mapInfo && k < |b.vRandom| - 1
    ensures |Deleted(f, b, id).vRandom| == |b.vRandom| - 1 && ListedAt(Deleted(f, b, id), k)
  {
    var b2, n, p := Deleted(f, b, id), |b.vRandom| - 1, b.mapInfo[id].randomPos;
    assert ListedAt(b, k) && ListedAt(b, n) && ListedAt(b, p);
    assert b2.vRandom[k] == if k == p then b.vRandom[n] else b.vRandom[k];
    DeletedInfos(f, b, id, b2.vRandom[k]);
  }

  lemma {:induction false} DeletedAgree(f: Layout, b: Book, id: Id, loose: set<Id>, skip: set<Id>)
    requires Agree(f, b, loose, skip) && id in b.mapInfo && !b.mapInfo[id].inTried && b.mapInfo[id].refCount == 0 && id !in skip
    ensures 0 <= b.mapInfo[id].randomPos < |b.vRandom| && b.vRandom[b.mapInfo[id].randomPos] == id
    ensures b.vRandom[|b.vRandom| - 1] in b.mapInfo
    ensures Agree(f, Deleted(f, b, id), loose - {id}, skip)
  {
    DeleteReady(f, b, id, loose, skip);
    var b2 := Deleted(f, b, id);
    DeletedAddrs(f, b, id);
    DeletedRandom(f, b, id);
    forall j | j in b2.mapInfo ensures InTriedAt(f, b2, j) && RefsAt(b2, loose - {id}, j) && TimesAt(b2.mapInfo[j]) {
      DeletedInfos(f, b, id, j);
      assert InTriedAt(f, b, j) && RefsAt(b, loose, j) && TimesAt(b.mapInfo[j]);
    }
    DeletedTables(f, b, id, loose);
    DeletedCounts(f, b, id, skip);
  }

  lemma {:induction false} DeletedTables(f: Layout, b: Book, id: Id, loose: set<Id>)
    requires RandomOk(b) && TriedOk(f, b) && NewOk(f, b, loose) && id in b.mapInfo && !b.mapInfo[id].inTried && b.mapInfo[id].refCount == 0
    requires 0 <= b.mapInfo[id].randomPos < |b.vRandom| && b.vRandom[b.mapInfo[id].randomPos] == id
    requires b.vRandom[|b.vRandom| - 1] in b.mapInfo
    ensures var b2 := Deleted(f, b, id);
            && (forall s {:trigger TriedAt(f, b2, s)} :: s in b2.vvTried ==> TriedAt(f, b2, s))
            && (forall s {:trigger NewAt(f, b2, s)} :: s in b2.vvNew ==> NewAt(f, b2, s))
  {
    var b2 := Deleted(f, b, id);
    forall s | s in b2.vvTried ensures TriedAt(f, b2, s) {
      assert TriedAt(f, b, s);
      DeletedInfos(f, b, id, b.vvTried[s]);
    }
    forall s | s in b2.vvNew ensures NewAt(f, b2, s) {
      assert NewAt(f, b, s);
      assert RefsAt(b, loose, id);
      assert s !in Places(b.vvNew, id);
      DeletedInfos(f, b, id, b.vvNew[s]);
    }
  }

  lemma {:induction false} DeletedSameBut(f: Layout, b: Book, id: Id, skip: set<Id>)
    requires RandomOk(b) && id in b.mapInfo
    requires 0 <= b.mapInfo[id].randomPos < |b.vRandom| && b.vRandom[b.mapInfo[id].randomPos] == id
    requires b.vRandom[|b.vRandom| - 1] in b.mapInfo
    ensures SameBut(b.mapInfo, skip, Deleted(f, b, id).mapInfo, skip, id)
  {
    var b2 := Deleted(f, b, id);
    forall j | j != id ensures j in b.mapInfo <==> j in b2.mapInfo {}
    forall j | j in b.mapInfo && j != id ensures b.mapInfo[j].inTried == b2.mapInfo[j].inTried && b.mapInfo[j].addr == b2.mapInfo[j].addr {
      DeletedInfos(f, b, id, j);
    }
  }

  lemma {:induction false} DeletedTally(f: Layout, b: Book, id: Id)
    requires id in b.mapInfo && 0 <= b.mapInfo[id].randomPos < |b.vRandom| && b.vRandom[b.mapInfo[id].randomPos] == id
    requires b.vRandom[|b.vRandom| - 1] in b.mapInfo
    ensures var b2 := Deleted(f, b, id);
            && b2.mapAddr == b.mapAddr - {b.mapInfo[id].addr} && b2.nNew == b.nNew - 1 && b2.nTried == b.nTried && b2.counts == Bump(b.counts, f.network(b.mapInfo[id].addr), -1, 0)
            && id !in b2.mapInfo
  {
  }

  lemma {:induction false} DeletedCounts(f: Layout, b: Book, id: Id, skip: set<Id>)
    requires RandomOk(b) && CountsOk(f, b, skip) && id in b.mapInfo && !b.mapInfo[id].inTried && id !in skip
    requires 0 <= b.mapInfo[id].randomPos < |b.vRandom| && b.vRandom[b.mapInfo[id].randomPos] == id
    requires b.vRandom[|b.vRandom| - 1] in b.mapInfo
    ensures CountsOk(f, Deleted(f, b, id), skip)
  {
    DeletedSameBut(f, b, id, skip);
    DeletedTally(f, b, id);
    CountsChange(f, b, skip, Deleted(f, b, id), skip, id, b.mapInfo[id].addr);
  }
}
