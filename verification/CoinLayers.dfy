/** The operations of one layer of the coins cache: `AddCoin`, `SpendCoin`, `Uncache`, `BatchWrite` and
    `SanityCheck`. */
module CoinLayers {
  import opened CoinLinks
  import opened CoinCaches

  /** A layer in order over a base view. */
  ghost predicate LayerOk(c: Cache, l: seq<Outpoint>, base: Utxos) {
    CacheOk(c, l) && Coherent(Content(c.coins), base)
  }

  /** The coins visible through a layer. */
  ghost function Visible(c: Cache, base: Utxos): Utxos {
    View(Content(c.coins), base)
  }

  /** The plain map with the coin at `o` set, or removed if it is spent. */
  ghost function Put(v: Utxos, o: Outpoint, coin: Coin): Utxos {
    if coin.IsSpent() then v - {o} else v[o := coin]
  }

  lemma {:induction false} SetView(items: Items, base: Utxos, o: Outpoint, i: Item)
    requires Coherent(items, base) && FlagsOk(i, o, base)
    ensures View(items[o := i], base) == Put(View(items, base), o, i.coin) && Coherent(items[o := i], base)
  {
    forall q ensures Get(Put(View(items, base), o, i.coin), q) == Seen(items[o := i], base, q) {
      ViewAt(items, base, q);
    }
    ViewIs(items[o := i], base, Put(View(items, base), o, i.coin));
    var after := items[o := i];
    forall q | q in after ensures FlagsOk(after[q], q, base) {
      assert q != o ==> FlagsOk(items[q], q, base);
    }
  }

  lemma {:induction false} DropView(items: Items, base: Utxos, o: Outpoint)
    requires Coherent(items, base)
    ensures View(items - {o}, base) == Put(View(items, base), o, Get(base, o)) && Coherent(items - {o}, base)
  {
    forall q ensures Get(Put(View(items, base), o, Get(base, o)), q) == Seen(items - {o}, base, q) {
      ViewAt(items, base, q);
    }
    ViewIs(items - {o}, base, Put(View(items, base), o, Get(base, o)));
    var after := items - {o};
    forall q | q in after ensures FlagsOk(after[q], q, base) {
      assert FlagsOk(items[q], q, base);
    }
  }

  lemma {:induction false} EntryFlags(c: Cache, base: Utxos, o: Outpoint)
    requires Coherent(Content(c.coins), base) && o in c.coins
    ensures FlagsOk(Item(c.coins[o].coin, c.coins[o].isDirty, c.coins[o].isFresh), o, base)
    ensures Get(Visible(c, base), o) == c.coins[o].coin
  {
    assert FlagsOk(Content(c.coins)[o], o, base);
    ViewAt(Content(c.coins), base, o);
  }

  /** Flag an entry as DIRTY, and as FRESH if asked to. */
  method MarkDirty(c: Cache, o: Outpoint, isFresh: bool, ghost l: seq<Outpoint>) returns (r: Cache, ghost m: seq<Outpoint>)
    requires CacheOk(c, l) && o in c.coins
    ensures CacheOk(r, m) && Content(r.coins) == Content(c.coins)[o := Item(c.coins[o].coin, true, c.coins[o].isFresh || isFresh)]
    ensures r.hashBlock == c.hashBlock
  {
    ghost var n := FlagsOkAfter(c, l, o, true, false);
    r := AddFlags(c, o, true, false);
    m := n;
    if isFresh {
      ghost var d := r;
      EntryItem(d, o);
      m := FlagsOkAfter(d, n, o, false, true);
      r := AddFlags(r, o, false, true);
      ghost var e := c.coins[o];
      SetTwice(Content(c.coins), o, Item(e.coin, true, e.isFresh), Item(e.coin, true, true));
    }
  }

  lemma {:induction false} EntryItem(c: Cache, o: Outpoint)
    ensures o in c.coins <==> o in Content(c.coins)
    ensures o in c.coins ==> Content(c.coins)[o] == Item(c.coins[o].coin, c.coins[o].isDirty, c.coins[o].isFresh)
  {
  }

  lemma {:induction false} SetTwice(items: Items, o: Outpoint, i: Item, j: Item)
    ensures items[o := i][o := j] == items[o := j]
  {
  }

  lemma {:induction false} StoredView(c: Cache, r: Cache, o: Outpoint, i: Item, j: Item, m: seq<Outpoint>, base: Utxos)
    requires CacheOk(r, m) && Content(r.coins) == Content(c.coins)[o := i][o := j]
    requires Coherent(Content(c.coins), base) && FlagsOk(j, o, base)
    ensures LayerOk(r, m, base) && Visible(r, base) == Put(Visible(c, base), o, j.coin) && Content(r.coins) == Content(c.coins)[o := j]
  {
    SetTwice(Content(c.coins), o, i, j);
    SetView(Content(c.coins), base, o, j);
  }

  /** Store a coin and flag its entry as DIRTY, and as FRESH if the base does not have it. */
  method StoreDirty(c: Cache, o: Outpoint, coin: Coin, isFresh: bool, ghost l: seq<Outpoint>, ghost base: Utxos)
    returns (r: Cache, ghost m: seq<Outpoint>)
    requires LayerOk(c, l, base) && o in c.coins && (c.coins[o].isFresh || isFresh ==> o !in base && !coin.IsSpent())
    ensures LayerOk(r, m, base) && Visible(r, base) == Put(Visible(c, base), o, coin) && r.hashBlock == c.hashBlock
    ensures Content(r.coins) == Content(c.coins)[o := Item(coin, true, c.coins[o].isFresh || isFresh)]
  {
    WithCoinOk(c, l, o, coin);
    var d := WithCoin(c, o, coin);
    r, m := MarkDirty(d, o, isFresh, l);
    StoredView(c, r, o, Content(c.coins)[o].(coin := coin), Item(coin, true, c.coins[o].isFresh || isFresh), m, base);
  }

  /** The same for an outpoint that has no entry yet. */
  method EmplaceDirty(c: Cache, o: Outpoint, coin: Coin, isFresh: bool, ghost l: seq<Outpoint>, ghost base: Utxos)
    returns (r: Cache, ghost m: seq<Outpoint>)
    requires LayerOk(c, l, base) && o !in c.coins && (isFresh ==> o !in base && !coin.IsSpent())
    ensures LayerOk(r, m, base) && Visible(r, base) == Put(Visible(c, base), o, coin) && r.hashBlock == c.hashBlock
    ensures Content(r.coins) == Content(c.coins)[o := Item(coin, true, isFresh)]
  {
    EmplacedOk(c, l, o, coin);
    var d := Emplaced(c, o, coin);
    r, m := MarkDirty(d, o, isFresh, l);
    StoredView(c, r, o, Item(coin, false, false), Item(coin, true, isFresh), m, base);
  }

  /** The entries after adding a coin: it is DIRTY, and FRESH unless it may be one that the base has. */
  ghost function Added(items: Items, o: Outpoint, coin: Coin, possibleOverwrite: bool): Items {
    if o !in items then items[o := Item(coin, true, !possibleOverwrite)]
    else items[o := Item(coin, true, items[o].isFresh || (!possibleOverwrite && !items[o].isDirty))]
  }

  /** The entries after spending the coin of one: nothing has to be remembered of a FRESH one. */
  ghost function Spent(items: Items, o: Outpoint): Items
    requires o in items
  {
    if items[o].isFresh then items - {o} else items[o := Item(Null, true, false)]
  }

  /** The entries after dropping an unflagged one. */
  ghost function Uncached(items: Items, o: Outpoint): Items {
    if o in items && !items[o].isDirty && !items[o].isFresh then items - {o} else items
  }

  /** The entries after taking over a DIRTY one from the layer above: what the base does not have stays FRESH, and is
      forgotten when it is spent. */
  ghost function TakenOver(items: Items, o: Outpoint, i: Item): Items {
    if (if o in items then items[o].isFresh else i.isFresh) then
      if i.coin.IsSpent() then items - {o} else items[o := Item(i.coin, true, true)]
    else items[o := Item(i.coin, true, false)]
  }

  /** Add a coin. Fails if an overwrite is not expected and the cache has an unspent coin. */
  method AddCoin(c: Cache, o: Outpoint, coin: Coin, possibleOverwrite: bool, ghost l: seq<Outpoint>, ghost base: Utxos)
    returns (ok: bool, r: Cache, ghost m: seq<Outpoint>)
    requires LayerOk(c, l, base) && !coin.IsSpent()
    requires possibleOverwrite || o !in Visible(c, base) || o in c.coins
    ensures LayerOk(r, m, base) && r.hashBlock == c.hashBlock
    ensures ok <==> coin.script.unspendable || possibleOverwrite || o !in Visible(c, base)
    ensures Visible(r, base) == if ok && !coin.script.unspendable then Visible(c, base)[o := coin] else Visible(c, base)
    ensures Content(r.coins) == if ok && !coin.script.unspendable then Added(Content(c.coins), o, coin, possibleOverwrite) else Content(c.coins)
  {
    r, m, ok := c, l, true;
    if coin.script.unspendable {
      return;
    }
    ViewAt(Content(c.coins), base, o);
    if o !in c.coins {
      r, m := EmplaceDirty(c, o, coin, !possibleOverwrite, l, base);
      return;
    }
    EntryFlags(c, base, o);
    var isFresh := false;
    if !possibleOverwrite {
      if !c.coins[o].coin.IsSpent() {
        ok := false;
        return;
      }
      isFresh := !c.coins[o].isDirty;
    }
    r, m := StoreDirty(c, o, coin, isFresh, l, base);
  }

  /** Spend the coin of an entry: a FRESH entry goes, any other becomes a DIRTY spent one. */
  method SpendCoin(c: Cache, o: Outpoint, ghost l: seq<Outpoint>, ghost base: Utxos) returns (r: Cache, moved: Coin, ghost m: seq<Outpoint>)
    requires LayerOk(c, l, base) && o in c.coins
    ensures LayerOk(r, m, base) && Visible(r, base) == Visible(c, base) - {o} && moved == Get(Visible(c, base), o)
    ensures Content(r.coins) == Spent(Content(c.coins), o) && r.hashBlock == c.hashBlock
  {
    EntryFlags(c, base, o);
    moved := c.coins[o].coin;
    if c.coins[o].isFresh {
      m := DroppedOk(c, l, o);
      r := Dropped(c, o);
      DropView(Content(c.coins), base, o);
    } else {
      r, m := StoreDirty(c, o, Null, false, l, base);
    }
  }

  /** Drop an entry that is not flagged. */
  method Uncache(c: Cache, o: Outpoint, ghost l: seq<Outpoint>, ghost base: Utxos) returns (r: Cache, ghost m: seq<Outpoint>)
    requires LayerOk(c, l, base)
    ensures LayerOk(r, m, base) && Visible(r, base) == Visible(c, base)
    ensures Content(r.coins) == Uncached(Content(c.coins), o) && r.hashBlock == c.hashBlock
  {
    r, m := c, l;
    if o in c.coins && !c.coins[o].isDirty && !c.coins[o].isFresh {
      EntryFlags(c, base, o);
      m := DroppedOk(c, l, o);
      r := Dropped(c, o);
      DropView(Content(c.coins), base, o);
    }
  }

  /** Remember a coin found in the base. */
  method Remember(c: Cache, o: Outpoint, coin: Coin, ghost l: seq<Outpoint>, ghost base: Utxos) returns (r: Cache)
    requires LayerOk(c, l, base) && o !in c.coins && o in base && base[o] == coin
    ensures LayerOk(r, l, base) && Visible(r, base) == Visible(c, base) && r.hashBlock == c.hashBlock
    ensures Content(r.coins) == Content(c.coins)[o := Item(coin, false, false)]
  {
    ghost var i := Item(coin, false, false);
    EmplacedOk(c, l, o, coin);
    r := Emplaced(c, o, coin);
    SetView(Content(c.coins), base, o, i);
    ViewAt(Content(c.coins), base, o);
    assert Put(Visible(c, base), o, coin) == Visible(c, base);
  }

  // ---------- Writing to the layer below ----------

  /** Take over one DIRTY entry of the layer above. Fails if the entry is FRESH but its coin exists here. */
  method WriteEntry(p: Cache, o: Outpoint, e: Entry, ghost l: seq<Outpoint>, ghost base: Utxos)
    returns (ok: bool, r: Cache, ghost m: seq<Outpoint>)
    requires LayerOk(p, l, base) && (e.isFresh && o !in p.coins ==> o !in base)
    ensures ok <==> !(e.isFresh && o in Visible(p, base))
    ensures if ok then LayerOk(r, m, base) && Visible(r, base) == Put(Visible(p, base), o, e.coin) else r == p
    ensures ok ==> Content(r.coins) == TakenOver(Content(p.coins), o, Item(e.coin, e.isDirty, e.isFresh))
  {
    r, m, ok := p, l, true;
    ViewAt(Content(p.coins), base, o);
    if o !in p.coins {
      if e.isFresh && e.coin.IsSpent() {
        assert Put(Visible(p, base), o, e.coin) == Visible(p, base);
      } else {
        r, m := EmplaceDirty(p, o, e.coin, e.isFresh, l, base);
      }
    } else {
      EntryFlags(p, base, o);
      if e.isFresh && !p.coins[o].coin.IsSpent() {
        ok := false;
        return;
      }
      if p.coins[o].isFresh && e.coin.IsSpent() {
        m := DroppedOk(p, l, o);
        r := Dropped(p, o);
        DropView(Content(p.coins), base, o);
      } else {
        r, m := StoreDirty(p, o, e.coin, false, l, base);
      }
    }
  }
}
