/** The tables of the address manager (`AddrManImpl`), what it means for them to agree, and the small
    changes they are updated by. */
module AddrBooks {

  const TRIED_BUCKET_COUNT: nat := 256
  const NEW_BUCKET_COUNT: nat := 1024
  const BUCKET_SIZE: nat := 64
  const NEW_BUCKETS_PER_ADDRESS: int := 8

  /** An address with its port. */
  type Service = nat
  type Source = nat
  type Network = nat
  type Id = nat

  datatype Slot = Slot(bucket: nat, pos: nat)

  /** Everything that is computed from an address: its place in the tables, by keyed hashes, its network,
      its host without the port, and whether it is routable or valid. */
  datatype Layout = Layout(triedBucket: Service -> nat, newBucket: (Service, Source) -> nat, position: (Service, bool, nat) -> nat,
                           network: Service -> Network, host: Service -> Source, routable: Service -> bool, valid: Service -> bool)

  ghost predicate LayoutOk(f: Layout) {
    && (forall a :: f.triedBucket(a) < TRIED_BUCKET_COUNT)
    && (forall a, s :: f.newBucket(a, s) < NEW_BUCKET_COUNT)
    && (forall a, n, b :: f.position(a, n, b) < BUCKET_SIZE)
  }

  function TriedSlot(f: Layout, a: Service): Slot {
    Slot(f.triedBucket(a), f.position(a, false, f.triedBucket(a)))
  }

  /** Where an address goes in a given bucket of the new table. */
  function NewSlot(f: Layout, a: Service, bucket: nat): Slot {
    Slot(bucket, f.position(a, true, bucket))
  }

  /** What is known about an address. Times are in seconds. */
  datatype AddrInfo = AddrInfo(addr: Service, source: Source, time: int, lastTry: int, lastCountAttempt: int, lastSuccess: int,
                               attempts: int, refCount: int, inTried: bool, randomPos: int)

  datatype NetCount = NetCount(nNew: int, nTried: int)

  type Infos = map<Id, AddrInfo>
  type Table = map<Slot, Id>

  /** The tables hold ids; a slot that is not in the map is empty. */
  datatype Book = Book(nIdCount: nat, mapInfo: Infos, mapAddr: map<Service, Id>, vRandom: seq<Id>,
                       nTried: int, vvTried: Table, nNew: int, vvNew: Table, counts: map<Network, NetCount>)

  // ---------- Agreement ----------

  /** `mapAddr` finds every entry by its address, and nothing else. */
  ghost predicate AddrAt(b: Book, id: Id)
    requires id in b.mapInfo
  {
    id < b.nIdCount && b.mapInfo[id].addr in b.mapAddr && b.mapAddr[b.mapInfo[id].addr] == id
  }

  ghost predicate FoundAt(b: Book, a: Service)
    requires a in b.mapAddr
  {
    b.mapAddr[a] in b.mapInfo && b.mapInfo[b.mapAddr[a]].addr == a
  }

  ghost predicate AddrsOk(b: Book) {
    && (forall id {:trigger AddrAt(b, id)} :: id in b.mapInfo ==> AddrAt(b, id))
    && (forall a {:trigger FoundAt(b, a)} :: a in b.mapAddr ==> FoundAt(b, a))
  }

  /** `vRandom` lists all ids, each at the position its entry says. */
  ghost predicate PosAt(b: Book, id: Id)
    requires id in b.mapInfo
  {
    0 <= b.mapInfo[id].randomPos < |b.vRandom| && b.vRandom[b.mapInfo[id].randomPos] == id
  }

  ghost predicate ListedAt(b: Book, k: nat)
    requires k < |b.vRandom|
  {
    b.vRandom[k] in b.mapInfo && b.mapInfo[b.vRandom[k]].randomPos == k
  }

  ghost predicate RandomOk(b: Book) {
    && (forall id {:trigger PosAt(b, id)} :: id in b.mapInfo ==> PosAt(b, id))
    && (forall k {:trigger ListedAt(b, k)} :: 0 <= k < |b.vRandom| ==> ListedAt(b, k))
  }

  /** The tried table holds exactly the entries marked as tried, each in its slot. */
  ghost predicate TriedAt(f: Layout, b: Book, s: Slot)
    requires s in b.vvTried
  {
    b.vvTried[s] in b.mapInfo && b.mapInfo[b.vvTried[s]].inTried && TriedSlot(f, b.mapInfo[b.vvTried[s]].addr) == s
  }

  ghost predicate InTriedAt(f: Layout, b: Book, id: Id)
    requires id in b.mapInfo
  {
    b.mapInfo[id].inTried ==> TriedSlot(f, b.mapInfo[id].addr) in b.vvTried && b.vvTried[TriedSlot(f, b.mapInfo[id].addr)] == id
  }

  ghost predicate TriedOk(f: Layout, b: Book) {
    && (forall s {:trigger TriedAt(f, b, s)} :: s in b.vvTried ==> TriedAt(f, b, s))
    && (forall id {:trigger InTriedAt(f, b, id)} :: id in b.mapInfo ==> InTriedAt(f, b, id))
  }

  /** The slots of the new table that hold `id`. */
  ghost function Places(t: Table, id: Id): set<Slot> {
    set s | s in t && t[s] == id
  }

  /** The new table holds entries not marked as tried, each in the right position of its bucket. */
  ghost predicate NewAt(f: Layout, b: Book, s: Slot)
    requires s in b.vvNew
  {
    && s.bucket < NEW_BUCKET_COUNT && b.vvNew[s] in b.mapInfo && !b.mapInfo[b.vvNew[s]].inTried
    && NewSlot(f, b.mapInfo[b.vvNew[s]].addr, s.bucket) == s
  }

  /** Reference counts are numbers of places; only the entries in `loose` may have none. */
  ghost predicate RefsAt(b: Book, loose: set<Id>, id: Id)
    requires id in b.mapInfo
  {
    && b.mapInfo[id].refCount == |Places(b.vvNew, id)| <= NEW_BUCKETS_PER_ADDRESS
    && (!b.mapInfo[id].inTried && id !in loose ==> b.mapInfo[id].refCount > 0)
  }

  ghost predicate NewOk(f: Layout, b: Book, loose: set<Id>) {
    && (forall s {:trigger NewAt(f, b, s)} :: s in b.vvNew ==> NewAt(f, b, s))
    && (forall id {:trigger RefsAt(b, loose, id)} :: id in b.mapInfo ==> RefsAt(b, loose, id))
  }

  ghost predicate TimesAt(i: AddrInfo) {
    i.lastTry >= 0 && i.lastSuccess >= 0 && (i.inTried ==> i.lastSuccess > 0)
  }

  ghost predicate TimesOk(b: Book) {
    forall id {:trigger TimesAt(b.mapInfo[id])} :: id in b.mapInfo ==> TimesAt(b.mapInfo[id])
  }

  /** An entry of one of the tables, in a network, and not left out of the counts. */
  ghost predicate Member(f: Layout, infos: Infos, skip: set<Id>, tried: bool, net: Network, id: Id) {
    id in infos && id !in skip && infos[id].inTried == tried && f.network(infos[id].addr) == net
  }

  ghost function Members(f: Layout, infos: Infos, skip: set<Id>, tried: bool, net: Network): set<Id> {
    set id | id in infos && Member(f, infos, skip, tried, net, id)
  }

  ghost function AllMembers(infos: Infos, skip: set<Id>, tried: bool): set<Id> {
    set id | id in infos && id !in skip && infos[id].inTried == tried
  }

  function CountOf(counts: map<Network, NetCount>, net: Network): NetCount {
    if net in counts then counts[net] else NetCount(0, 0)
  }

  ghost predicate NetAt(f: Layout, b: Book, skip: set<Id>, net: Network) {
    && CountOf(b.counts, net).nNew == |Members(f, b.mapInfo, skip, false, net)|
    && CountOf(b.counts, net).nTried == |Members(f, b.mapInfo, skip, true, net)|
  }

  ghost predicate CountsOk(f: Layout, b: Book, skip: set<Id>) {
    && b.nNew == |AllMembers(b.mapInfo, skip, false)| && b.nTried == |AllMembers(b.mapInfo, skip, true)|
    && (forall net {:trigger NetAt(f, b, skip, net)} :: NetAt(f, b, skip, net))
  }

  /** All tables, lists and counters agree. While an entry is being moved it may be without a place
      (`loose`), and left out of the counts (`skip`). */
  ghost predicate Agree(f: Layout, b: Book, loose: set<Id>, skip: set<Id>) {
    LayoutOk(f) && AddrsOk(b) && RandomOk(b) && TriedOk(f, b) && NewOk(f, b, loose) && TimesOk(b) && CountsOk(f, b, skip)
  }

  // ---------- Counting ----------

  function Bump(counts: map<Network, NetCount>, net: Network, dNew: int, dTried: int): map<Network, NetCount> {
    counts[net := NetCount(CountOf(counts, net).nNew + dNew, CountOf(counts, net).nTried + dTried)]
  }

  ghost function One(p: bool): int {
    if p then 1 else 0
  }

  /** Only the entry `id` may differ in what matters for counting. */
  ghost predicate SameBut(infos: Infos, skip: set<Id>, infos2: Infos, skip2: set<Id>, id: Id) {
    forall j :: j != id ==> (j in infos <==> j in infos2) && (j in skip <==> j in skip2)
                            && (j in infos ==> infos[j].inTried == infos2[j].inTried && infos[j].addr == infos2[j].addr)
  }

  lemma {:induction false} SetBut(s: set<Id>, s2: set<Id>, id: Id)
    requires forall j :: j != id ==> (j in s <==> j in s2)
    ensures |s2| == |s| + One(id in s2) - One(id in s)
  {
    assert s - {id} == s2 - {id};
    WithAndWithout(s, id);
    WithAndWithout(s2, id);
  }

  lemma {:induction false} WithAndWithout(s: set<Id>, id: Id)
    ensures |s| == |s - {id}| + One(id in s)
  {
    if id in s {
      assert s == (s - {id}) + {id};
    } else {
      assert s == s - {id};
    }
  }

  lemma {:induction false} Recount(f: Layout, infos: Infos, skip: set<Id>, infos2: Infos, skip2: set<Id>, id: Id, tried: bool, net: Network)
    requires SameBut(infos, skip, infos2, skip2, id)
    ensures |Members(f, infos2, skip2, tried, net)| == |Members(f, infos, skip, tried, net)|
              + One(Member(f, infos2, skip2, tried, net, id)) - One(Member(f, infos, skip, tried, net, id))
  {
    var s, s2 := Members(f, infos, skip, tried, net), Members(f, infos2, skip2, tried, net);
    forall j | j != id ensures j in s <==> j in s2 {
      assert Member(f, infos, skip, tried, net, j) <==> Member(f, infos2, skip2, tried, net, j);
    }
    SetBut(s, s2, id);
  }

  lemma {:induction false} RecountAll(infos: Infos, skip: set<Id>, infos2: Infos, skip2: set<Id>, id: Id, tried: bool)
    requires SameBut(infos, skip, infos2, skip2, id)
    ensures |AllMembers(infos2, skip2, tried)| == |AllMembers(infos, skip, tried)|
              + One(id in infos2 && id !in skip2 && infos2[id].inTried == tried) - One(id in infos && id !in skip && infos[id].inTried == tried)
  {
    SetBut(AllMembers(infos, skip, tried), AllMembers(infos2, skip2, tried), id);
  }

  /** How an entry counts: as new (1, 0), as tried (0, 1), or not at all. */
  ghost function CountsNew(infos: Infos, skip: set<Id>, id: Id): int {
    One(id in infos && id !in skip && !infos[id].inTried)
  }

  ghost function CountsTried(infos: Infos, skip: set<Id>, id: Id): int {
    One(id in infos && id !in skip && infos[id].inTried)
  }

  /** The counters follow when the counting of one entry changes. */
  lemma {:induction false} CountsChange(f: Layout, b: Book, skip: set<Id>, b2: Book, skip2: set<Id>, id: Id, a: Service)
    requires CountsOk(f, b, skip) && SameBut(b.mapInfo, skip, b2.mapInfo, skip2, id)
    requires (id in b.mapInfo ==> b.mapInfo[id].addr == a) && (id in b2.mapInfo ==> b2.mapInfo[id].addr == a)
    requires var dNew, dTried := CountsNew(b2.mapInfo, skip2, id) - CountsNew(b.mapInfo, skip, id), CountsTried(b2.mapInfo, skip2, id) - CountsTried(b.mapInfo, skip, id);
             b2.nNew == b.nNew + dNew && b2.nTried == b.nTried + dTried && b2.counts == Bump(b.counts, f.network(a), dNew, dTried)
    ensures CountsOk(f, b2, skip2)
  {
    RecountAll(b.mapInfo, skip, b2.mapInfo, skip2, id, false);
    RecountAll(b.mapInfo, skip, b2.mapInfo, skip2, id, true);
    forall net ensures NetAt(f, b2, skip2, net) {
      assert NetAt(f, b, skip, net);
      Recount(f, b.mapInfo, skip, b2.mapInfo, skip2, id, false, net);
      Recount(f, b.mapInfo, skip, b2.mapInfo, skip2, id, true, net);
    }
  }
}
