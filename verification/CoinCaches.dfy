/** One layer of the coins cache (`CCoinsViewCache`): what its entries mean over a base view, and how
    each operation changes that meaning. */
module CoinCaches {
  import opened CoinLinks

  // ---------- What the entries mean ----------

  /** An entry without its links. */
  datatype Item = Item(coin: Coin, isDirty: bool, isFresh: bool)

  type Items = map<Outpoint, Item>

  /** A plain map from outpoints to unspent coins. */
  type Utxos = m: map<Outpoint, Coin> | forall o :: o in m ==> !m[o].IsSpent()

  ghost function Content(coins: Entries): Items {
    map o | o in coins :: Item(coins[o].coin, coins[o].isDirty, coins[o].isFresh)
  }

  ghost function Get(m: Utxos, o: Outpoint): Coin {
    if o in m then m[o] else Null
  }

  /** What a lookup of `o` finds: the entry's coin, or else that of the base. */
  ghost function Seen(items: Items, base: Utxos, o: Outpoint): Coin {
    if o in items then items[o].coin else Get(base, o)
  }

  /** The coins visible through the layer. */
  ghost function View(items: Items, base: Utxos): Utxos {
    map o | o in base.Keys + items.Keys && !Seen(items, base, o).IsSpent() :: Seen(items, base, o)
  }

  lemma {:induction false} ViewAt(items: Items, base: Utxos, o: Outpoint)
    ensures Get(View(items, base), o) == Seen(items, base, o)
  {
  }

  lemma {:induction false} ViewIs(items: Items, base: Utxos, v: Utxos)
    requires forall o :: Get(v, o) == Seen(items, base, o)
    ensures View(items, base) == v
  {
    var w := View(items, base);
    forall o ensures o in v <==> o in w {
      assert Get(v, o) == Seen(items, base, o);
      ViewAt(items, base, o);
    }
    forall o | o in v ensures v[o] == w[o] {
      assert Get(v, o) == Seen(items, base, o);
    }
  }

  /** A clean entry is what the base has; a FRESH one is what the base does not have; and a spent one
      is DIRTY and not FRESH. */
  ghost predicate FlagsOk(i: Item, o: Outpoint, base: Utxos) {
    && (i.coin.IsSpent() ==> i.isDirty && !i.isFresh)
    && (!i.isDirty ==> !i.isFresh && o in base && base[o] == i.coin)
    && (i.isFresh ==> o !in base)
  }

  ghost predicate Coherent(items: Items, base: Utxos) {
    forall o {:trigger FlagsOk(items[o], o, base)} :: o in items ==> FlagsOk(items[o], o, base)
  }

  // ---------- Memory usage ----------

  ghost function Usage(items: Items): nat {
    if items == map[] then 0 else
      var o :| o in items;
      items[o].coin.DynamicUsage() + Usage(items - {o})
  }

  lemma {:induction false} UsagePick(items: Items, o: Outpoint)
    requires o in items
    ensures Usage(items) == items[o].coin.DynamicUsage() + Usage(items - {o})
    decreases |items|
  {
    var q :| q in items && Usage(items) == items[q].coin.DynamicUsage() + Usage(items - {q});
    if q != o {
      UsagePick(items - {q}, o);
      UsagePick(items - {o}, q);
      assert items - {q} - {o} == items - {o} - {q};
    }
  }

  lemma {:induction false} UsageSet(items: Items, o: Outpoint, i: Item)
    ensures Usage(items[o := i]) == Usage(items) + i.coin.DynamicUsage() - (if o in items then items[o].coin.DynamicUsage() else 0)
  {
    UsagePick(items[o := i], o);
    if o in items {
      UsagePick(items, o);
      assert items[o := i] - {o} == items - {o};
    } else {
      assert items[o := i] - {o} == items;
    }
  }

  // ---------- A cache in order ----------

  ghost predicate CacheOk(c: Cache, l: seq<Outpoint>) {
    ListOk(c, l) && c.usage == Usage(Content(c.coins))
  }

  lemma {:induction false} NextContent(c: Cache, at: Link, to: Link)
    requires at.At? ==> at.outpoint in c.coins
    ensures Content(WithNext(c, at, to).coins) == Content(c.coins)
  {
  }

  lemma {:induction false} PrevContent(c: Cache, at: Link, to: Link)
    requires at.At? ==> at.outpoint in c.coins
    ensures Content(WithPrev(c, at, to).coins) == Content(c.coins)
  {
  }

  lemma {:induction false} EntryContent(coins: Entries, o: Outpoint, e: Entry)
    ensures Content(coins[o := e]) == Content(coins)[o := Item(e.coin, e.isDirty, e.isFresh)]
    ensures Content(coins - {o}) == Content(coins) - {o}
  {
  }

  lemma {:induction false} FlagsContent(c: Cache, o: Outpoint, isDirty: bool, isFresh: bool)
    requires o in c.coins && (c.last.At? ==> c.last.outpoint in c.coins)
    ensures var e := c.coins[o];
            Content(AddFlags(c, o, isDirty, isFresh).coins) == Content(c.coins)[o := Item(e.coin, e.isDirty || isDirty, e.isFresh || isFresh)]
  {
    var e := c.coins[o];
    var c1 := c;
    if !e.Flagged() {
      var c2 := c.(coins := c.coins[o := e.(prev := c.last, next := Sentinel)], last := At(o));
      EntryContent(c.coins, o, c2.coins[o]);
      NextContent(c2, c.last, At(o));
      c1 := WithNext(c2, c.last, At(o));
    }
    assert Content(c1.coins) == Content(c.coins) && c1.coins[o].coin == e.coin;
    EntryContent(c1.coins, o, c1.coins[o].(isDirty := e.isDirty || isDirty, isFresh := e.isFresh || isFresh));
  }

  lemma {:induction false} CleanContent(c: Cache, o: Outpoint)
    requires o in c.coins
    requires c.coins[o].prev.At? ==> c.coins[o].prev.outpoint in c.coins
    requires c.coins[o].next.At? ==> c.coins[o].next.outpoint in c.coins
    ensures Content(SetClean(c, o).coins) == Content(c.coins)[o := Item(c.coins[o].coin, false, false)]
  {
    var e := c.coins[o];
    if e.Flagged() {
      PrevContent(c, e.next, e.prev);
      var c0 := WithPrev(c, e.next, e.prev);
      NextContent(c0, e.prev, e.next);
      var c1 := WithNext(c0, e.prev, e.next);
      SameItem(c.coins, c1.coins, o);
      EntryContent(c1.coins, o, c1.coins[o].(isDirty := false, isFresh := false, prev := Nowhere, next := Nowhere));
    } else {
      EntryContent(c.coins, o, e);
    }
  }

  lemma {:induction false} SameItem(a: Entries, b: Entries, o: Outpoint)
    requires Content(a) == Content(b) && o in a
    ensures o in b && b[o].coin == a[o].coin
  {
    assert o in Content(a) && Content(a)[o] == Content(b)[o];
  }

  lemma {:induction false} ErasedContent(c: Cache, o: Outpoint)
    requires o in c.coins
    requires c.coins[o].prev.At? ==> c.coins[o].prev.outpoint in c.coins
    requires c.coins[o].next.At? ==> c.coins[o].next.outpoint in c.coins
    ensures Content(Erased(c, o).coins) == Content(c.coins) - {o}
  {
    CleanContent(c, o);
    EntryContent(SetClean(c, o).coins, o, c.coins[o]);
  }

  /** Replace the coin of an entry, keeping count of the memory usage. */
  function WithCoin(c: Cache, o: Outpoint, coin: Coin): Cache
    requires o in c.coins && c.usage >= c.coins[o].coin.DynamicUsage()
  {
    c.(coins := c.coins[o := c.coins[o].(coin := coin)], usage := c.usage - c.coins[o].coin.DynamicUsage() + coin.DynamicUsage())
  }

  /** A new entry that is not flagged. */
  function Emplaced(c: Cache, o: Outpoint, coin: Coin): Cache
    requires o !in c.coins
  {
    c.(coins := c.coins[o := Entry(coin, false, false, Nowhere, Nowhere)], usage := c.usage + coin.DynamicUsage())
  }

  lemma {:induction false} EmplacedOk(c: Cache, l: seq<Outpoint>, o: Outpoint, coin: Coin)
    requires CacheOk(c, l) && o !in c.coins
    ensures CacheOk(Emplaced(c, o, coin), l)
    ensures Content(Emplaced(c, o, coin).coins) == Content(c.coins)[o := Item(coin, false, false)]
  {
    var d := Emplaced(c, o, coin);
    forall k | 0 <= k < |l| ensures Linked(d.coins, l, k) {
      assert Linked(c.coins, l, k);
    }
    forall q | q in d.coins ensures InListIfFlagged(d.coins, l, q) {
      assert q in c.coins ==> InListIfFlagged(c.coins, l, q);
    }
    UsageSet(Content(c.coins), o, Item(coin, false, false));
    EntryContent(c.coins, o, d.coins[o]);
  }

  lemma {:induction false} WithCoinOk(c: Cache, l: seq<Outpoint>, o: Outpoint, coin: Coin)
    requires CacheOk(c, l) && o in c.coins
    ensures c.usage >= c.coins[o].coin.DynamicUsage() && CacheOk(WithCoin(c, o, coin), l)
    ensures Content(WithCoin(c, o, coin).coins) == Content(c.coins)[o := Content(c.coins)[o].(coin := coin)]
  {
    UsagePick(Content(c.coins), o);
    var d := WithCoin(c, o, coin);
    EntryContent(c.coins, o, d.coins[o]);
    UsageSet(Content(c.coins), o, Content(c.coins)[o].(coin := coin));
    WithCoinList(c, l, o, coin);
  }

  lemma {:induction false} WithCoinList(c: Cache, l: seq<Outpoint>, o: Outpoint, coin: Coin)
    requires ListOk(c, l) && o in c.coins && c.usage >= c.coins[o].coin.DynamicUsage()
    ensures ListOk(WithCoin(c, o, coin), l)
  {
    var d := WithCoin(c, o, coin);
    forall k | 0 <= k < |l| ensures Linked(d.coins, l, k) {
      assert Linked(c.coins, l, k);
    }
    forall q | q in d.coins ensures InListIfFlagged(d.coins, l, q) {
      assert InListIfFlagged(c.coins, l, q);
    }
  }

  lemma {:induction false} FlagsOkAfter(c: Cache, l: seq<Outpoint>, o: Outpoint, isDirty: bool, isFresh: bool) returns (m: seq<Outpoint>)
    requires CacheOk(c, l) && o in c.coins && (isDirty || isFresh)
    ensures c.last.At? ==> c.last.outpoint in c.coins
    ensures CacheOk(AddFlags(c, o, isDirty, isFresh), m)
    ensures var e := c.coins[o];
            Content(AddFlags(c, o, isDirty, isFresh).coins) == Content(c.coins)[o := Item(e.coin, e.isDirty || isDirty, e.isFresh || isFresh)]
  {
    m := if c.coins[o].Flagged() then l else l + [o];
    AddFlagsList(c, l, o, isDirty, isFresh);
    FlagsContent(c, o, isDirty, isFresh);
    var e := c.coins[o];
    UsageSet(Content(c.coins), o, Item(e.coin, e.isDirty || isDirty, e.isFresh || isFresh));
  }

  /** Erase an entry, keeping count of the memory usage. */
  function Dropped(c: Cache, o: Outpoint): Cache
    requires o in c.coins && c.usage >= c.coins[o].coin.DynamicUsage()
    requires c.coins[o].prev.At? ==> c.coins[o].prev.outpoint in c.coins
    requires c.coins[o].next.At? ==> c.coins[o].next.outpoint in c.coins
  {
    Erased(c, o).(usage := c.usage - c.coins[o].coin.DynamicUsage())
  }

  lemma {:induction false} DroppedOk(c: Cache, l: seq<Outpoint>, o: Outpoint) returns (m: seq<Outpoint>)
    requires CacheOk(c, l) && o in c.coins
    ensures c.usage >= c.coins[o].coin.DynamicUsage()
    ensures c.coins[o].prev.At? ==> c.coins[o].prev.outpoint in c.coins
    ensures c.coins[o].next.At? ==> c.coins[o].next.outpoint in c.coins
    ensures CacheOk(Dropped(c, o), m) && Content(Dropped(c, o).coins) == Content(c.coins) - {o}
    ensures Dropped(c, o).hashBlock == c.hashBlock
  {
    m := ErasedList(c, l, o);
    ErasedContent(c, o);
    UsagePick(Content(c.coins), o);
    var e, d := Erased(c, o), Dropped(c, o);
    assert d.coins == e.coins && d.first == e.first && d.last == e.last;
    ListOkSame(e, d, m);
  }

  lemma {:induction false} ListOkSame(c: Cache, d: Cache, l: seq<Outpoint>)
    requires ListOk(c, l) && d.coins == c.coins && d.first == c.first && d.last == c.last
    ensures ListOk(d, l)
  {
  }
}
