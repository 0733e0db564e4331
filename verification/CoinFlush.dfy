/** Writing a layer of the coins cache to what is below it: `BatchWrite` with its cursor, for `Flush` and
    for `Sync`, and `SanityCheck`. */
module CoinFlush {
  import opened CoinLinks
  import opened CoinCaches
  import opened CoinLayers

  // ---------- The cursor ----------

  /** The entries after the flagged ones in `done` were passed by a cursor that does not erase: spent
      ones are gone, the others are clean. */
  ghost function Cleaned(items: Items, done: seq<Outpoint>): Items {
    map o | o in items && !(o in done && items[o].coin.IsSpent()) ::
      if o in done then Item(items[o].coin, false, false) else items[o]
  }

  /** The cache being written, after its cursor passed `k` entries. */
  ghost predicate Passed(c0: Cache, cl: seq<Outpoint>, willErase: bool, k: nat, c: Cache)
    requires k <= |cl|
  {
    if willErase then c == c0 && CacheOk(c, cl)
    else CacheOk(c, cl[k..]) && Content(c.coins) == Cleaned(Content(c0.coins), cl[..k]) && c.hashBlock == c0.hashBlock
  }

  lemma {:induction false} PassedNone(c0: Cache, cl: seq<Outpoint>, willErase: bool)
    requires CacheOk(c0, cl)
    ensures Passed(c0, cl, willErase, 0, c0)
  {
    assert cl[0..] == cl;
    assert Cleaned(Content(c0.coins), cl[..0]) == Content(c0.coins);
  }

  lemma {:induction false} OnceAt(c: Cache, cl: seq<Outpoint>, k: nat)
    requires ListOk(c, cl) && k < |cl|
    ensures cl[k] !in cl[..k]
  {
    assert Once(cl, k);
  }

  /** The entry the cursor is at. */
  lemma {:induction false} CursorEntry(c0: Cache, cl: seq<Outpoint>, willErase: bool, k: nat, c: Cache)
    requires CacheOk(c0, cl) && k < |cl| && Passed(c0, cl, willErase, k, c)
    ensures cl[k] in c.coins && cl[k] in c0.coins && c.coins[cl[k]].next == LinkAt(cl, k + 1)
    ensures var e, d := c.coins[cl[k]], c0.coins[cl[k]]; e.coin == d.coin && e.isDirty == d.isDirty && e.isFresh == d.isFresh && d.Flagged()
  {
    var o := cl[k];
    assert Linked(c0.coins, cl, k);
    if !willErase {
      assert Linked(c.coins, cl[k..], 0);
      OnceAt(c0, cl, k);
      EntryItem(c, o);
      EntryItem(c0, o);
      assert Cleaned(Content(c0.coins), cl[..k])[o] == Content(c0.coins)[o];
    }
  }

  lemma {:induction false} CleanedStep(items: Items, cl: seq<Outpoint>, k: nat)
    requires k < |cl| && cl[k] !in cl[..k] && cl[k] in items
    ensures var o := cl[k];
            Cleaned(items, cl[..k + 1]) == if items[o].coin.IsSpent() then Cleaned(items, cl[..k]) - {o}
                                           else Cleaned(items, cl[..k])[o := Item(items[o].coin, false, false)]
  {
    assert cl[..k + 1] == cl[..k] + [cl[k]];
  }

  lemma {:induction false} LinksOnly(c: Cache, o: Outpoint)
    requires o in c.coins
    requires c.coins[o].prev.At? ==> c.coins[o].prev.outpoint in c.coins
    requires c.coins[o].next.At? ==> c.coins[o].next.outpoint in c.coins
    ensures SetClean(c, o).usage == c.usage && SetClean(c, o).hashBlock == c.hashBlock
  {
  }

  /** Clean the first entry of the list. */
  lemma {:induction false} CleanHead(c: Cache, l: seq<Outpoint>)
    requires CacheOk(c, l) && l != [] && l[0] in c.coins
    ensures c.coins[l[0]].prev.At? ==> c.coins[l[0]].prev.outpoint in c.coins
    ensures c.coins[l[0]].next.At? ==> c.coins[l[0]].next.outpoint in c.coins
    ensures var d := SetClean(c, l[0]);
            CacheOk(d, l[1..]) && d.hashBlock == c.hashBlock && Content(d.coins) == Content(c.coins)[l[0] := Item(c.coins[l[0]].coin, false, false)]
  {
    assert Without(l, 0) == l[1..];
    LinksInside(c, l, l[0]);
    SetCleanList(c, l, 0);
    CleanContent(c, l[0]);
    LinksOnly(c, l[0]);
    EntryItem(c, l[0]);
    UsageSet(Content(c.coins), l[0], Item(c.coins[l[0]].coin, false, false));
  }

  /** Erase the first entry of the list, which is spent. */
  lemma {:induction false} EraseHead(c: Cache, l: seq<Outpoint>)
    requires CacheOk(c, l) && l != [] && l[0] in c.coins && c.coins[l[0]].coin.IsSpent()
    ensures c.coins[l[0]].prev.At? ==> c.coins[l[0]].prev.outpoint in c.coins
    ensures c.coins[l[0]].next.At? ==> c.coins[l[0]].next.outpoint in c.coins
    ensures var d := Erased(c, l[0]); CacheOk(d, l[1..]) && d.hashBlock == c.hashBlock && Content(d.coins) == Content(c.coins) - {l[0]}
  {
    var o := l[0];
    CleanHead(c, l);
    LinksOnly(c, o);
    ErasedContent(c, o);
    EntryItem(c, o);
    UsagePick(Content(c.coins), o);
    var d := SetClean(c, o);
    EntryItem(d, o);
    EraseUnlisted(d, l[1..], o);
    ListOkSame(d.(coins := d.coins - {o}), Erased(c, o), l[1..]);
  }

  /** Go to the next entry; without erasing, clean the current one, or erase it if it is spent. */
  method NextAndMaybeErase(c: Cache, o: Outpoint, willErase: bool, ghost c0: Cache, ghost cl: seq<Outpoint>, ghost k: nat)
    returns (next: Link, r: Cache)
    requires CacheOk(c0, cl) && k < |cl| && o == cl[k] && Passed(c0, cl, willErase, k, c)
    ensures next == LinkAt(cl, k + 1) && Passed(c0, cl, willErase, k + 1, r)
  {
    CursorEntry(c0, cl, willErase, k, c);
    next, r := c.coins[o].next, c;
    if !willErase {
      CleanedStep(Content(c0.coins), cl, k) by { OnceAt(c0, cl, k); EntryItem(c0, o); }
      EntryItem(c0, o);
      assert cl[k..][0] == o && cl[k..][1..] == cl[k + 1..];
      if c.coins[o].coin.IsSpent() {
        EraseHead(c, cl[k..]);
        r := Erased(c, o);
      } else {
        CleanHead(c, cl[k..]);
        r := SetClean(c, o);
      }
    }
  }

  // ---------- What was written ----------

  ghost predicate WrittenAt(items: Items, done: seq<Outpoint>, v0: Utxos, v: Utxos, o: Outpoint) {
    Get(v, o) == if o in done && o in items then items[o].coin else Get(v0, o)
  }

  ghost predicate Written(items: Items, done: seq<Outpoint>, v0: Utxos, v: Utxos) {
    forall o {:trigger WrittenAt(items, done, v0, v, o)} :: WrittenAt(items, done, v0, v, o)
  }

  lemma {:induction false} WrittenStep(items: Items, cl: seq<Outpoint>, k: nat, v0: Utxos, v: Utxos)
    requires k < |cl| && cl[k] in items && Written(items, cl[..k], v0, v)
    ensures Written(items, cl[..k + 1], v0, Put(v, cl[k], items[cl[k]].coin))
  {
    var done, w := cl[..k + 1], Put(v, cl[k], items[cl[k]].coin);
    assert done == cl[..k] + [cl[k]];
    forall o ensures WrittenAt(items, done, v0, w, o) {
      assert WrittenAt(items, cl[..k], v0, v, o);
    }
  }

  /** Once all flagged entries are written, the view below is that of the layer. */
  lemma {:induction false} WrittenAll(c: Cache, cl: seq<Outpoint>, v0: Utxos, v: Utxos)
    requires LayerOk(c, cl, v0) && Written(Content(c.coins), cl, v0, v)
    ensures v == Visible(c, v0)
  {
    var items := Content(c.coins);
    forall o ensures Get(v, o) == Seen(items, v0, o) {
      assert WrittenAt(items, cl, v0, v, o);
      if o in items && o !in cl {
        assert InListIfFlagged(c.coins, cl, o);
        assert FlagsOk(items[o], o, v0);
      }
    }
    ViewIs(items, v0, v);
  }

  /** A FRESH entry that is not written yet is not visible below. */
  lemma {:induction false} FreshNotVisible(c: Cache, cl: seq<Outpoint>, k: nat, v0: Utxos, v: Utxos)
    requires LayerOk(c, cl, v0) && k < |cl| && cl[k] in c.coins && Written(Content(c.coins), cl[..k], v0, v)
    ensures c.coins[cl[k]].isFresh ==> cl[k] !in v
    ensures c.coins[cl[k]].Flagged() ==> c.coins[cl[k]].isDirty
  {
    var o := cl[k];
    OnceAt(c, cl, k);
    assert WrittenAt(Content(c.coins), cl[..k], v0, v, o);
    EntryFlags(c, v0, o);
  }

  // ---------- BatchWrite ----------

  ghost predicate SameItemAt(a: Items, b: Items, o: Outpoint) {
    (o in a <==> o in b) && (o in a ==> a[o] == b[o])
  }

  /** What the layer below has at `o`, once the DIRTY entries in `done` are written. */
  ghost predicate TakenAt(below: Items, items: Items, done: seq<Outpoint>, after: Items, o: Outpoint) {
    SameItemAt(after, if o in done && o in items && items[o].isDirty then TakenOver(below, o, items[o]) else below, o)
  }

  ghost predicate Taken(below: Items, items: Items, done: seq<Outpoint>, after: Items) {
    forall o {:trigger TakenAt(below, items, done, after, o)} :: TakenAt(below, items, done, after, o)
  }

  lemma {:induction false} TakenStep(below: Items, items: Items, cl: seq<Outpoint>, k: nat, after: Items)
    requires k < |cl| && cl[k] !in cl[..k] && cl[k] in items && items[cl[k]].isDirty && Taken(below, items, cl[..k], after)
    ensures Taken(below, items, cl[..k + 1], TakenOver(after, cl[k], items[cl[k]]))
  {
    var done, next := cl[..k + 1], TakenOver(after, cl[k], items[cl[k]]);
    assert done == cl[..k] + [cl[k]];
    forall o ensures TakenAt(below, items, done, next, o) {
      assert TakenAt(below, items, cl[..k], after, o);
    }
  }

  /** The entries of a layer once the layer above is written to it. */
  ghost function WrittenTo(below: Items, items: Items): Items {
    map o | o in below.Keys + items.Keys && o in (if o in items && items[o].isDirty then TakenOver(below, o, items[o]) else below) ::
      (if o in items && items[o].isDirty then TakenOver(below, o, items[o]) else below)[o]
  }

  lemma {:induction false} SameItems(a: Items, b: Items)
    requires forall o :: SameItemAt(a, b, o)
    ensures a == b
  {
    assert forall o :: SameItemAt(a, b, o) ==> (o in a <==> o in b) && (o in a ==> a[o] == b[o]);
  }

  lemma {:induction false} TakenAll(below: Items, c: Cache, cl: seq<Outpoint>, after: Items)
    requires ListOk(c, cl) && Taken(below, Content(c.coins), cl, after)
    ensures after == WrittenTo(below, Content(c.coins))
  {
    var items := Content(c.coins);
    forall o ensures SameItemAt(after, WrittenTo(below, items), o) {
      assert TakenAt(below, items, cl, after, o);
      if o in c.coins {
        EntryItem(c, o);
        assert InListIfFlagged(c.coins, cl, o);
      }
    }
    SameItems(after, WrittenTo(below, items));
  }

  /** The layer below, after `k` entries were written to it. */
  ghost predicate Writing(p0: Cache, c0: Cache, cl: seq<Outpoint>, base: Utxos, k: nat, p: Cache, pl: seq<Outpoint>)
    requires k <= |cl|
  {
    && LayerOk(p, pl, base) && Written(Content(c0.coins), cl[..k], Visible(p0, base), Visible(p, base))
    && Taken(Content(p0.coins), Content(c0.coins), cl[..k], Content(p.coins))
  }

  lemma {:induction false} WritingDone(p0: Cache, c0: Cache, cl: seq<Outpoint>, base: Utxos, p: Cache, pl: seq<Outpoint>)
    requires LayerOk(c0, cl, Visible(p0, base)) && Writing(p0, c0, cl, base, |cl|, p, pl)
    ensures LayerOk(p.(hashBlock := c0.hashBlock), pl, base)
    ensures Visible(p, base) == Visible(c0, Visible(p0, base)) && Content(p.coins) == WrittenTo(Content(p0.coins), Content(c0.coins))
  {
    assert cl[..|cl|] == cl;
    WrittenAll(c0, cl, Visible(p0, base), Visible(p, base));
    TakenAll(Content(p0.coins), c0, cl, Content(p.coins));
    ListOkSame(p, p.(hashBlock := c0.hashBlock), pl);
  }

  /** Write one flagged entry of `c0` to the layer below. */
  method WriteFlagged(p: Cache, o: Outpoint, e: Entry, ghost p0: Cache, ghost c0: Cache, ghost pl: seq<Outpoint>, ghost cl: seq<Outpoint>,
                      ghost base: Utxos, ghost k: nat)
    returns (ok: bool, r: Cache, ghost rl: seq<Outpoint>)
    requires LayerOk(c0, cl, Visible(p0, base)) && k < |cl| && o == cl[k] && Writing(p0, c0, cl, base, k, p, pl)
    requires o in c0.coins && e.coin == c0.coins[o].coin && e.isDirty == c0.coins[o].isDirty && e.isFresh == c0.coins[o].isFresh
    requires c0.coins[o].Flagged()
    ensures ok && Writing(p0, c0, cl, base, k + 1, r, rl)
  {
    ok, r, rl := true, p, pl;
    ghost var items, v0 := Content(c0.coins), Visible(p0, base);
    EntryItem(c0, o);
    FreshNotVisible(c0, cl, k, v0, Visible(p, base));
    WrittenStep(items, cl, k, v0, Visible(p, base));
    TakenStep(Content(p0.coins), items, cl, k, Content(p.coins)) by { OnceAt(c0, cl, k); }
    if e.isDirty {
      ok, r, rl := WriteEntry(p, o, e, pl, base);
    }
  }

  /** Write the flagged entries of `c0` to the layer `p0` below it. */
  method BatchWrite(p0: Cache, c0: Cache, willErase: bool, ghost pl0: seq<Outpoint>, ghost cl: seq<Outpoint>, ghost base: Utxos)
    returns (ok: bool, p: Cache, c: Cache, ghost pl: seq<Outpoint>)
    requires LayerOk(p0, pl0, base) && LayerOk(c0, cl, Visible(p0, base))
    ensures ok && LayerOk(p, pl, base) && Visible(p, base) == Visible(c0, Visible(p0, base)) && p.hashBlock == c0.hashBlock
    ensures Passed(c0, cl, willErase, |cl|, c) && Content(p.coins) == WrittenTo(Content(p0.coins), Content(c0.coins))
  {
    p, c, pl, ok := p0, c0, pl0, true;
    var it := c0.first;
    ghost var k: nat := 0;
    PassedNone(c0, cl, willErase);
    WritingNone(p0, c0, cl, base, pl0);
    while it != Sentinel
      invariant k <= |cl| && it == LinkAt(cl, k) && Passed(c0, cl, willErase, k, c) && ok
      invariant Writing(p0, c0, cl, base, k, p, pl)
      decreases |cl| - k
    {
      var o := it.outpoint;
      CursorEntry(c0, cl, willErase, k, c);
      ok, p, pl := WriteFlagged(p, o, c.coins[o], p0, c0, pl, cl, base, k);
      if !ok {
        return;
      }
      it, c := NextAndMaybeErase(c, o, willErase, c0, cl, k);
      k := k + 1;
    }
    WritingDone(p0, c0, cl, base, p, pl);
    p := p.(hashBlock := c0.hashBlock);
  }

  lemma {:induction false} WritingNone(p0: Cache, c0: Cache, cl: seq<Outpoint>, base: Utxos, pl: seq<Outpoint>)
    requires LayerOk(p0, pl, base)
    ensures Writing(p0, c0, cl, base, 0, p0, pl)
  {
  }

  /** Write the flagged entries of the lowest layer to the database. */
  method WriteDatabase(db0: map<Outpoint, Coin>, c0: Cache, willErase: bool, ghost cl: seq<Outpoint>) returns (db: map<Outpoint, Coin>, c: Cache)
    requires forall o :: o in db0 ==> !db0[o].IsSpent()
    requires LayerOk(c0, cl, db0)
    ensures (forall o :: o in db ==> !db[o].IsSpent()) && db == Visible(c0, db0)
    ensures Passed(c0, cl, willErase, |cl|, c)
  {
    ghost var items := Content(c0.coins);
    db, c := db0, c0;
    var it := c0.first;
    ghost var k: nat := 0;
    PassedNone(c0, cl, willErase);
    while it != Sentinel
      invariant k <= |cl| && it == LinkAt(cl, k) && Passed(c0, cl, willErase, k, c)
      invariant (forall o :: o in db ==> !db[o].IsSpent()) && Written(items, cl[..k], db0, db)
      decreases |cl| - k
    {
      var o := it.outpoint;
      CursorEntry(c0, cl, willErase, k, c);
      FreshNotVisible(c0, cl, k, db0, db);
      WrittenStep(items, cl, k, db0, db);
      if c.coins[o].isDirty {
        if c.coins[o].coin.IsSpent() {
          db := db - {o};
        } else {
          db := db[o := c.coins[o].coin];
        }
      }
      it, c := NextAndMaybeErase(c, o, willErase, c0, cl, k);
      k := k + 1;
    }
    assert cl[..|cl|] == cl;
    WrittenAll(c0, cl, db0, db);
  }

  /** The unspent entries, without flags. */
  ghost function Unflagged(items: Items): Items {
    map o | o in items && !items[o].coin.IsSpent() :: Item(items[o].coin, false, false)
  }

  /** A cursor that passed all flagged entries leaves the unspent entries, without flags. */
  lemma {:induction false} SyncedEntries(c0: Cache, cl: seq<Outpoint>, v0: Utxos)
    requires LayerOk(c0, cl, v0)
    ensures Cleaned(Content(c0.coins), cl) == Unflagged(Content(c0.coins))
  {
    var items := Content(c0.coins);
    forall o | o in items ensures if o in cl then items[o].isDirty || items[o].isFresh else items[o] == Item(items[o].coin, false, false) && !items[o].coin.IsSpent() {
      EntryItem(c0, o);
      assert InListIfFlagged(c0.coins, cl, o);
      assert FlagsOk(items[o], o, v0);
      if o in cl {
        var k :| 0 <= k < |cl| && cl[k] == o;
        assert Linked(c0.coins, cl, k);
      }
    }
  }

  /** After a sync, every entry is clean and as the view below has it. */
  lemma {:induction false} SyncedOk(c0: Cache, cl: seq<Outpoint>, v0: Utxos, c: Cache)
    requires LayerOk(c0, cl, v0) && Passed(c0, cl, false, |cl|, c)
    ensures LayerOk(c, [], Visible(c0, v0)) && Visible(c, Visible(c0, v0)) == Visible(c0, v0)
  {
    var items, v := Content(c0.coins), Visible(c0, v0);
    assert cl[..|cl|] == cl && cl[|cl|..] == [];
    var after := Content(c.coins);
    forall o | o in after ensures FlagsOk(after[o], o, v) && Get(v, o) == after[o].coin {
      assert after[o] == Cleaned(items, cl)[o];
      EntryItem(c0, o);
      assert InListIfFlagged(c0.coins, cl, o);
      ViewAt(items, v0, o);
      assert FlagsOk(items[o], o, v0);
    }
    ViewIs(after, v, v);
  }

  /** An emptied cache, as after a flush. */
  function Emptied(c: Cache): Cache {
    Cache(map[], Sentinel, Sentinel, 0, c.hashBlock)
  }

  lemma {:induction false} EmptiedOk(c: Cache, v: Utxos)
    ensures LayerOk(Emptied(c), [], v) && Visible(Emptied(c), v) == v
  {
    var items := Content(Emptied(c).coins);
    assert items == map[];
    ViewIs(items, v, v);
  }

  // ---------- SanityCheck ----------

  ghost function FlaggedIn(coins: Entries, s: set<Outpoint>): set<Outpoint> {
    set o | o in s && o in coins && coins[o].Flagged()
  }

  lemma {:induction false} ListCount(l: seq<Outpoint>, s: set<Outpoint>)
    requires forall k {:trigger Once(l, k)} :: 0 <= k < |l| ==> Once(l, k)
    requires forall o :: o in s <==> o in l
    ensures |s| == |l|
    decreases |l|
  {
    if l != [] {
      var n := |l| - 1;
      var m, o := l[..n], l[n];
      assert l == m + [o];
      assert Once(l, n);
      forall k | 0 <= k < n ensures Once(m, k) {
        assert Once(l, k);
        assert m[..k] == l[..k];
      }
      ListCount(m, s - {o});
    } else {
      assert s == {};
    }
  }

  lemma {:induction false} FlaggedCount(c: Cache, l: seq<Outpoint>)
    requires ListOk(c, l)
    ensures |FlaggedIn(c.coins, c.coins.Keys)| == |l|
  {
    forall o ensures o in FlaggedIn(c.coins, c.coins.Keys) <==> o in l {
      if o in l {
        var k :| 0 <= k < |l| && l[k] == o;
        assert Linked(c.coins, l, k);
      }
      if o in c.coins {
        assert InListIfFlagged(c.coins, l, o);
      }
    }
    ListCount(l, FlaggedIn(c.coins, c.coins.Keys));
  }

  lemma {:induction false} CountStep(c: Cache, done: set<Outpoint>, o: Outpoint)
    requires o in c.coins && o !in done
    ensures |FlaggedIn(c.coins, done + {o})| == |FlaggedIn(c.coins, done)| + if c.coins[o].Flagged() then 1 else 0
    ensures Usage(Content(c.coins) - done) == c.coins[o].coin.DynamicUsage() + Usage(Content(c.coins) - (done + {o}))
  {
    var items := Content(c.coins);
    assert FlaggedIn(c.coins, done + {o}) == FlaggedIn(c.coins, done) + if c.coins[o].Flagged() then {o} else {};
    UsagePick(items - done, o);
    assert items - done - {o} == items - (done + {o});
  }

  lemma {:induction false} MoveOne(a: set<Outpoint>, b: set<Outpoint>, o: Outpoint)
    requires o in a && a !! b
    ensures (a - {o}) + (b + {o}) == a + b && (a - {o}) !! (b + {o})
  {
  }

  /** Flags that an entry may have: it is not FRESH alone, nor spent without a flag, nor spent with both. */
  ghost predicate PossibleFlags(e: Entry) {
    if e.coin.IsSpent() then e.isDirty != e.isFresh else e.isFresh ==> e.isDirty
  }

  /** Whether the flags of all entries are possible, the number of flagged entries, and the summed memory usage. */
  method CountEntries(c: Cache) returns (ok: bool, countFlagged: nat, usage: nat)
    ensures ok <==> forall o :: o in c.coins ==> PossibleFlags(c.coins[o])
    ensures countFlagged == |FlaggedIn(c.coins, c.coins.Keys)| && usage == Usage(Content(c.coins))
  {
    ok, countFlagged, usage := true, 0, 0;
    var todo := c.coins.Keys;
    ghost var done: set<Outpoint> := {};
    assert Content(c.coins) - done == Content(c.coins);
    while todo != {}
      invariant todo + done == c.coins.Keys && todo !! done
      invariant ok <==> forall o :: o in done ==> PossibleFlags(c.coins[o])
      invariant countFlagged == |FlaggedIn(c.coins, done)| && usage + Usage(Content(c.coins) - done) == Usage(Content(c.coins))
      decreases todo
    {
      var o :| o in todo;
      var e := c.coins[o];
      var attr := (if e.isDirty then 1 else 0) + (if e.isFresh then 2 else 0) + (if e.coin.IsSpent() then 4 else 0);
      ok := ok && attr != 2 && attr != 4 && attr != 7;
      CountStep(c, done, o);
      usage := usage + e.coin.DynamicUsage();
      if e.isDirty || e.isFresh {
        countFlagged := countFlagged + 1;
      }
      MoveOne(todo, done, o);
      done, todo := done + {o}, todo - {o};
    }
    assert done == c.coins.Keys && Content(c.coins) - done == map[];
  }

  /** `Next` and `Prev` of a list position. */
  function NextOf(c: Cache, at: Link): Link
    requires at.At? ==> at.outpoint in c.coins
  {
    if at.At? then c.coins[at.outpoint].next else c.first
  }

  function PrevOf(c: Cache, at: Link): Link
    requires at.At? ==> at.outpoint in c.coins
  {
    if at.At? then c.coins[at.outpoint].prev else c.last
  }

  lemma {:induction false} AtPosition(c: Cache, l: seq<Outpoint>, k: nat)
    requires ListOk(c, l) && k < |l|
    ensures Linked(c.coins, l, k)
    ensures var next, prev := LinkAt(l, k + 1), LinkAt(l, k - 1);
            && (next.At? ==> next.outpoint in c.coins) && (prev.At? ==> prev.outpoint in c.coins)
            && PrevOf(c, next) == At(l[k]) && NextOf(c, prev) == At(l[k])
  {
    assert Linked(c.coins, l, k);
    if k > 0 { assert Linked(c.coins, l, k - 1); }
    if k + 1 < |l| { assert Linked(c.coins, l, k + 1); }
  }

  /** Following `Next` from the sentinel visits `l` and comes back. */
  ghost predicate Walks(c: Cache, l: seq<Outpoint>) {
    c.first == LinkAt(l, 0) && forall k {:trigger StepsTo(c.coins, l, k)} :: 0 <= k < |l| ==> StepsTo(c.coins, l, k)
  }

  ghost predicate StepsTo(coins: Entries, l: seq<Outpoint>, k: nat)
    requires k < |l|
  {
    && l[k] in coins && coins[l[k]].next == LinkAt(l, k + 1)
    && (coins[l[k]].next.At? ==> coins[l[k]].next.outpoint in coins) && (coins[l[k]].prev.At? ==> coins[l[k]].prev.outpoint in coins)
  }

  /** The entry visited in step `k` is flagged, and its neighbours point back at it. */
  ghost predicate LinkedBack(c: Cache, l: seq<Outpoint>, k: nat)
    requires k < |l| && StepsTo(c.coins, l, k)
  {
    var e := c.coins[l[k]];
    e.Flagged() && PrevOf(c, e.next) == At(l[k]) && NextOf(c, e.prev) == At(l[k])
  }

  /** What `SanityCheck` asks for. */
  ghost predicate SaneCache(c: Cache, l: seq<Outpoint>)
    requires Walks(c, l)
  {
    && (forall o :: o in c.coins ==> PossibleFlags(c.coins[o]))
    && (forall k {:trigger LinkedBack(c, l, k)} :: 0 <= k < |l| ==> StepsTo(c.coins, l, k) && LinkedBack(c, l, k))
    && |l| == |FlaggedIn(c.coins, c.coins.Keys)| && c.usage == Usage(Content(c.coins))
  }

  /** `SanityCheck` on any cache whose list comes to an end: passed exactly if no entry has impossible flags, the list is
      linked both ways and has as many entries as are flagged, all of them flagged, and the memory usage is right. */
  method SanityCheck(c: Cache, ghost l: seq<Outpoint>) returns (ok: bool)
    requires Walks(c, l)
    ensures ok <==> SaneCache(c, l)
  {
    var countFlagged, usage;
    ok, countFlagged, usage := CountEntries(c);
    if !ok {
      return;
    }
    var countLinked := 0;
    var it := c.first;
    while it != Sentinel
      invariant 0 <= countLinked <= |l| && it == LinkAt(l, countLinked) && ok
      invariant forall k {:trigger LinkedBack(c, l, k)} :: 0 <= k < countLinked ==> StepsTo(c.coins, l, k) && LinkedBack(c, l, k)
      decreases |l| - countLinked
    {
      assert StepsTo(c.coins, l, countLinked);
      var e := c.coins[it.outpoint];
      ok := PrevOf(c, e.next) == it && NextOf(c, e.prev) == it && (e.isDirty || e.isFresh);
      assert ok <==> LinkedBack(c, l, countLinked);
      if !ok {
        return;
      }
      countLinked := countLinked + 1;
      it := e.next;
    }
    ok := countLinked == countFlagged && usage == c.usage;
  }

  /** A layer in order passes. */
  lemma {:induction false} LayerIsSane(c: Cache, l: seq<Outpoint>, base: Utxos)
    requires LayerOk(c, l, base)
    ensures Walks(c, l) && SaneCache(c, l)
  {
    forall k | 0 <= k < |l| ensures StepsTo(c.coins, l, k) && LinkedBack(c, l, k) {
      AtPosition(c, l, k);
    }
    FlaggedCount(c, l);
    forall o | o in c.coins ensures PossibleFlags(c.coins[o]) {
      EntryFlags(c, base, o);
    }
  }
}
