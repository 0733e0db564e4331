/** Any number of coins caches, each on top of the one before, over a database. Whatever is done, every
    layer shows just what a plain map would. */
module CoinStacks {
  import opened CoinLinks
  import opened CoinCaches
  import opened CoinLayers
  import opened CoinFlush

  type Lists = seq<seq<Outpoint>>

  /** Layer `i` is in order, and turns the view below it into the view above it. */
  ghost predicate LayerAt(layers: seq<Cache>, lists: Lists, views: seq<Utxos>, i: nat)
    requires i < |layers| == |lists| && |views| == |layers| + 1
  {
    LayerOk(layers[i], lists[i], views[i]) && Visible(layers[i], views[i]) == views[i + 1]
  }

  /** The caches `layers` over the database show the plain maps `views`: first the database, then what
      each layer shows, up to the topmost. */
  ghost predicate StackOk(db: map<Outpoint, Coin>, layers: seq<Cache>, lists: Lists, views: seq<Utxos>) {
    && |lists| == |layers| && |views| == |layers| + 1 && views[0] == db
    && forall i {:trigger LayerAt(layers, lists, views, i)} :: 0 <= i < |layers| ==> LayerAt(layers, lists, views, i)
  }

  lemma {:induction false} ReplaceLayer(db: map<Outpoint, Coin>, layers: seq<Cache>, lists: Lists, views: seq<Utxos>, i: nat, c: Cache, l: seq<Outpoint>)
    requires StackOk(db, layers, lists, views) && i < |layers| && LayerOk(c, l, views[i]) && Visible(c, views[i]) == views[i + 1]
    ensures StackOk(db, layers[i := c], lists[i := l], views)
  {
    var cs, ls := layers[i := c], lists[i := l];
    forall k | 0 <= k < |cs| ensures LayerAt(cs, ls, views, k) {
      assert LayerAt(layers, lists, views, k);
    }
  }

  /** The topmost layer may change what it shows. */
  lemma {:induction false} ReplaceTop(db: map<Outpoint, Coin>, layers: seq<Cache>, lists: Lists, views: seq<Utxos>, c: Cache, l: seq<Outpoint>, v: Utxos)
    requires StackOk(db, layers, lists, views) && layers != []
    requires LayerOk(c, l, views[|layers| - 1]) && Visible(c, views[|layers| - 1]) == v
    ensures StackOk(db, layers[|layers| - 1 := c], lists[|layers| - 1 := l], views[|layers| := v])
  {
    var cs, ls, vs := layers[|layers| - 1 := c], lists[|layers| - 1 := l], views[|layers| := v];
    forall k | 0 <= k < |cs| ensures LayerAt(cs, ls, vs, k) {
      assert LayerAt(layers, lists, views, k);
    }
  }

  /** After a flush or sync of layer `i`, the layer below shows what layer `i` shows. */
  lemma {:induction false} ReplaceTwo(db: map<Outpoint, Coin>, layers: seq<Cache>, lists: Lists, views: seq<Utxos>, i: nat,
                                      p: Cache, pl: seq<Outpoint>, c: Cache, l: seq<Outpoint>)
    requires StackOk(db, layers, lists, views) && 0 < i < |layers|
    requires LayerOk(p, pl, views[i - 1]) && Visible(p, views[i - 1]) == views[i + 1]
    requires LayerOk(c, l, views[i + 1]) && Visible(c, views[i + 1]) == views[i + 1]
    ensures StackOk(db, layers[i - 1 := p][i := c], lists[i - 1 := pl][i := l], views[i := views[i + 1]])
  {
    var cs, ls, vs := layers[i - 1 := p][i := c], lists[i - 1 := pl][i := l], views[i := views[i + 1]];
    forall k | 0 <= k < |cs| ensures LayerAt(cs, ls, vs, k) {
      assert LayerAt(layers, lists, views, k);
    }
  }

  /** The same for the lowest layer and the database. */
  lemma {:induction false} ReplaceLowest(db: map<Outpoint, Coin>, layers: seq<Cache>, lists: Lists, views: seq<Utxos>, db2: map<Outpoint, Coin>, c: Cache, l: seq<Outpoint>)
    requires StackOk(db, layers, lists, views) && layers != [] && db2 == views[1]
    requires LayerOk(c, l, views[1]) && Visible(c, views[1]) == views[1]
    ensures StackOk(db2, layers[0 := c], lists[0 := l], views[0 := views[1]])
  {
    var cs, ls, vs := layers[0 := c], lists[0 := l], views[0 := views[1]];
    forall k | 0 <= k < |cs| ensures LayerAt(cs, ls, vs, k) {
      assert LayerAt(layers, lists, views, k);
    }
  }

  lemma {:induction false} AddLayer(db: map<Outpoint, Coin>, layers: seq<Cache>, lists: Lists, views: seq<Utxos>, c: Cache)
    requires StackOk(db, layers, lists, views) && LayerOk(c, [], views[|layers|]) && Visible(c, views[|layers|]) == views[|layers|]
    ensures StackOk(db, layers + [c], lists + [[]], views + [views[|layers|]])
  {
    var cs, ls, vs := layers + [c], lists + [[]], views + [views[|layers|]];
    forall k | 0 <= k < |cs| ensures LayerAt(cs, ls, vs, k) {
      if k < |layers| {
        assert LayerAt(layers, lists, views, k);
      }
    }
  }

  lemma {:induction false} DropLayer(db: map<Outpoint, Coin>, layers: seq<Cache>, lists: Lists, views: seq<Utxos>)
    requires StackOk(db, layers, lists, views) && layers != []
    ensures var n := |layers| - 1; StackOk(db, layers[..n], lists[..n], views[..n + 1])
  {
    var n := |layers| - 1;
    var cs, ls, vs := layers[..n], lists[..n], views[..n + 1];
    forall k | 0 <= k < |cs| ensures LayerAt(cs, ls, vs, k) {
      assert LayerAt(layers, lists, views, k);
    }
  }

  // ---------- What the layers hold ----------

  /** The entries of each layer. */
  ghost function Contents(layers: seq<Cache>): (r: seq<Items>)
    ensures |r| == |layers|
  {
    seq(|layers|, i requires 0 <= i < |layers| => Content(layers[i].coins))
  }

  lemma {:induction false} ContentsSet(layers: seq<Cache>, i: nat, c: Cache)
    requires i < |layers|
    ensures Contents(layers[i := c]) == Contents(layers)[i := Content(c.coins)]
  {
  }

  /** The entries with an unflagged one for a coin found below. */
  ghost function Remembered(items: Items, o: Outpoint, coin: Coin): Items {
    items[o := Item(coin, false, false)]
  }

  /** The entries after a lookup through layer `i`: what is found below is remembered on the way, unflagged. */
  ghost function Fetched(cs: seq<Items>, vs: seq<Utxos>, i: nat, o: Outpoint): (r: seq<Items>)
    requires i < |cs| == |vs| - 1
    ensures |r| == |cs|
  {
    if o in cs[i] then cs else
      var ds := if i == 0 then cs else Fetched(cs, vs, i - 1, o);
      if o in vs[i] then ds[i := Remembered(cs[i], o, vs[i][o])] else ds
  }

  lemma {:induction false} FetchedAbove(cs: seq<Items>, vs: seq<Utxos>, i: nat, o: Outpoint, k: nat)
    requires i < k < |cs| == |vs| - 1
    ensures Fetched(cs, vs, i, o)[k] == cs[k]
    decreases i
  {
    if o !in cs[i] && i > 0 {
      FetchedAbove(cs, vs, i - 1, o, k);
    }
  }

  lemma {:induction false} FetchedHas(cs: seq<Items>, vs: seq<Utxos>, i: nat, o: Outpoint)
    requires i < |cs| == |vs| - 1 && vs[i + 1] == View(cs[i], vs[i])
    ensures o in Fetched(cs, vs, i, o)[i] <==> o in cs[i] || o in vs[i + 1]
  {
    ViewAt(cs[i], vs[i], o);
    if o !in cs[i] && i > 0 {
      FetchedAbove(cs, vs, i - 1, o, i);
    }
  }

  /** The entries after spending in the topmost layer. */
  ghost function SpentOnTop(cs: seq<Items>, vs: seq<Utxos>, o: Outpoint): seq<Items>
    requires 0 < |cs| == |vs| - 1
  {
    var ds, top := Fetched(cs, vs, |cs| - 1, o), |cs| - 1;
    if o in ds[top] then ds[top := Spent(ds[top], o)] else ds
  }

  /** The entries after writing layer `i` down, when `left` remains of it. */
  ghost function Lowered(cs: seq<Items>, i: nat, left: Items): seq<Items>
    requires i < |cs|
  {
    if i == 0 then cs[0 := left] else cs[i - 1 := WrittenTo(cs[i - 1], cs[i])][i := left]
  }

  lemma {:induction false} ContentsLowered(layers: seq<Cache>, i: nat, p: Cache, c: Cache)
    requires 0 < i < |layers| && Content(p.coins) == WrittenTo(Content(layers[i - 1].coins), Content(layers[i].coins))
    ensures Contents(layers[i - 1 := p][i := c]) == Lowered(Contents(layers), i, Content(c.coins))
  {
    ContentsSet(layers, i - 1, p);
    ContentsSet(layers[i - 1 := p], i, c);
  }

  lemma {:induction false} NothingToSpend(vs: seq<Utxos>, n: nat, o: Outpoint)
    requires n < |vs| && o !in vs[n]
    ensures vs[n := vs[n] - {o}] == vs
  {
    assert vs[n] - {o} == vs[n];
  }

  // ---------- Best blocks ----------

  /** The best block that each layer knows. */
  ghost function Blocks(layers: seq<Cache>): (r: seq<nat>)
    ensures |r| == |layers|
  {
    seq(|layers|, i requires 0 <= i < |layers| => layers[i].hashBlock)
  }

  /** The best block through the lowest `n` layers: that of the topmost of them that knows one. */
  ghost function BestBlock(dbBlock: nat, layers: seq<Cache>, n: nat): nat
    requires n <= |layers|
  {
    if n == 0 then dbBlock
    else if layers[n - 1].hashBlock != 0 then layers[n - 1].hashBlock
    else BestBlock(dbBlock, layers, n - 1)
  }

  /** Spend a coin that has an entry in the topmost layer. */
  method SpendEntry(ghost db: map<Outpoint, Coin>, layers: seq<Cache>, o: Outpoint, ghost lists: Lists, ghost views: seq<Utxos>)
    returns (r: seq<Cache>, moved: Coin, ghost rl: Lists, ghost rv: seq<Utxos>)
    requires StackOk(db, layers, lists, views) && layers != [] && o in layers[|layers| - 1].coins
    ensures StackOk(db, r, rl, rv) && |r| == |layers| && rv == views[|layers| := views[|layers|] - {o}]
    ensures moved == Get(views[|layers|], o)
    ensures Contents(r) == Contents(layers)[|layers| - 1 := Spent(Contents(layers)[|layers| - 1], o)] && Blocks(r) == Blocks(layers)
  {
    var top := |layers| - 1;
    assert LayerAt(layers, lists, views, top);
    var c;
    ghost var l;
    c, moved, l := CoinLayers.SpendCoin(layers[top], o, lists[top], views[top]);
    ghost var v := Visible(c, views[top]);
    ReplaceTop(db, layers, lists, views, c, l, v);
    r, rl, rv := layers[top := c], lists[top := l], views[|layers| := v];
    ContentsSet(layers, top, c);
  }

  /** Add a coin to the topmost layer. */
  method AddEntry(ghost db: map<Outpoint, Coin>, layers: seq<Cache>, o: Outpoint, coin: Coin, possibleOverwrite: bool, ghost lists: Lists, ghost views: seq<Utxos>)
    returns (ok: bool, r: seq<Cache>, ghost rl: Lists, ghost rv: seq<Utxos>)
    requires StackOk(db, layers, lists, views) && layers != [] && !coin.IsSpent()
    requires possibleOverwrite || o !in views[|layers|] || o in layers[|layers| - 1].coins
    ensures StackOk(db, r, rl, rv) && |r| == |layers| && Blocks(r) == Blocks(layers)
    ensures ok <==> coin.script.unspendable || possibleOverwrite || o !in views[|layers|]
    ensures rv == if ok && !coin.script.unspendable then views[|layers| := views[|layers|][o := coin]] else views
    ensures var cs, top := Contents(layers), |layers| - 1;
            Contents(r) == if ok && !coin.script.unspendable then cs[top := Added(cs[top], o, coin, possibleOverwrite)] else cs
  {
    var top := |layers| - 1;
    assert LayerAt(layers, lists, views, top);
    var c;
    ghost var l;
    ok, c, l := CoinLayers.AddCoin(layers[top], o, coin, possibleOverwrite, lists[top], views[top]);
    ghost var v := if ok && !coin.script.unspendable then views[|layers|][o := coin] else views[|layers|];
    ReplaceTop(db, layers, lists, views, c, l, v);
    ContentsSet(layers, top, c);
    r, rl, rv := layers[top := c], lists[top := l], views[|layers| := v];
  }

  /** Remember in layer `i` a coin found below. */
  method RememberAt(ghost db: map<Outpoint, Coin>, layers: seq<Cache>, i: nat, o: Outpoint, coin: Coin, ghost lists: Lists, ghost views: seq<Utxos>)
    returns (r: seq<Cache>)
    requires StackOk(db, layers, lists, views) && i < |layers| && o !in layers[i].coins && o in views[i] && views[i][o] == coin
    ensures StackOk(db, r, lists, views) && |r| == |layers|
    ensures Contents(r) == Contents(layers)[i := Remembered(Contents(layers)[i], o, coin)] && Blocks(r) == Blocks(layers)
    ensures forall k :: i < k < |r| ==> r[k] == layers[k]
  {
    assert LayerAt(layers, lists, views, i);
    var c := Remember(layers[i], o, coin, lists[i], views[i]);
    ReplaceLayer(db, layers, lists, views, i, c, lists[i]);
    ContentsSet(layers, i, c);
    assert lists[i := lists[i]] == lists;
    r := layers[i := c];
  }

  /** Write layer `i` to the layer below it. */
  method LowerTo(ghost db: map<Outpoint, Coin>, layers: seq<Cache>, i: nat, willErase: bool, ghost lists: Lists, ghost views: seq<Utxos>)
    returns (ok: bool, r: seq<Cache>, ghost rl: Lists)
    requires StackOk(db, layers, lists, views) && 0 < i < |layers|
    ensures ok && StackOk(db, r, rl, views[i := views[i + 1]]) && |r| == |layers| && r[i - 1].hashBlock == layers[i].hashBlock
    ensures if willErase then r[i] == Emptied(layers[i]) else r[i].first == Sentinel && r[i].hashBlock == layers[i].hashBlock
    ensures Contents(r) == Lowered(Contents(layers), i, if willErase then map[] else Unflagged(Contents(layers)[i]))
    ensures forall k :: 0 <= k < |layers| && k != i && k != i - 1 ==> r[k] == layers[k]
  {
    assert LayerAt(layers, lists, views, i) && LayerAt(layers, lists, views, i - 1);
    var p, c;
    ghost var pl;
    ok, p, c, pl := BatchWrite(layers[i - 1], layers[i], willErase, lists[i - 1], lists[i], views[i - 1]);
    c := Leave(layers[i], c, willErase, lists[i], views[i]);
    ReplaceTwo(db, layers, lists, views, i, p, pl, c, []);
    ContentsLowered(layers, i, p, c);
    r, rl := layers[i - 1 := p][i := c], lists[i - 1 := pl][i := []];
  }

  class CoinsViews {
    var db: map<Outpoint, Coin>
    var dbBlock: nat
    var layers: seq<Cache>
    ghost var lists: Lists
    /** The plain maps: the database, and what each layer shows. */
    ghost var views: seq<Utxos>

    ghost predicate Valid()
      reads this
    {
      StackOk(db, layers, lists, views)
    }

    constructor (db: map<Outpoint, Coin>)
      requires forall o :: o in db ==> !db[o].IsSpent()
      ensures Valid() && this.db == db && dbBlock == 0 && layers == [] && views == [db]
    {
      this.db, dbBlock, layers, lists, views := db, 0, [], [], [db];
    }

    /** A new, empty cache on top. */
    method AddCache()
      requires Valid()
      modifies this
      ensures db == old(db) && dbBlock == old(dbBlock) && Contents(layers) == Contents(old(layers)) + [map[]] && Blocks(layers) == Blocks(old(layers)) + [0]
      ensures Valid() && |layers| == |old(layers)| + 1 && views == old(views) + [old(views)[|old(layers)|]]
    {
      var c := Cache(map[], Sentinel, Sentinel, 0, 0);
      EmptiedOk(c, views[|layers|]);
      AddLayer(db, layers, lists, views, c);
      layers, lists, views := layers + [c], lists + [[]], views + [views[|layers|]];
    }

    /** Discard the topmost cache with everything in it. */
    method DropCache()
      requires Valid() && layers != []
      modifies this
      ensures db == old(db) && dbBlock == old(dbBlock)
      ensures Valid() && layers == old(layers)[..|old(layers)| - 1] && views == old(views)[..|layers| + 1]
    {
      DropLayer(db, layers, lists, views);
      var n := |layers| - 1;
      layers, lists, views := layers[..n], lists[..n], views[..n + 1];
    }

    /** Look up a coin through layer `i`, remembering what is found below. */
    method GetCoin(i: nat, o: Outpoint) returns (coin: Coin)
      requires Valid() && i < |layers|
      modifies this
      ensures db == old(db) && dbBlock == old(dbBlock) && Blocks(layers) == Blocks(old(layers))
      ensures Valid() && views == old(views) && |layers| == |old(layers)|
      ensures coin == Get(views[i + 1], o)
      ensures Contents(layers) == Fetched(Contents(old(layers)), views, i, o)
      ensures forall k :: i < k < |layers| ==> layers[k] == old(layers)[k]
      decreases i
    {
      assert LayerAt(layers, lists, views, i);
      if o in layers[i].coins {
        EntryFlags(layers[i], views[i], o);
        coin := layers[i].coins[o].coin;
        return;
      }
      if i == 0 {
        coin := if o in db then db[o] else Null;
      } else {
        coin := GetCoin(i - 1, o);
      }
      ViewAt(Content(layers[i].coins), views[i], o);
      if !coin.IsSpent() {
        layers := RememberAt(db, layers, i, o, coin, lists, views);
      }
    }

    /** Add a coin to the topmost cache. The caller says whether there may be one already. */
    method AddCoin(o: Outpoint, coin: Coin, possibleOverwrite: bool) returns (ok: bool)
      requires Valid() && layers != [] && !coin.IsSpent()
      requires possibleOverwrite || o !in views[|layers|] || o in layers[|layers| - 1].coins
      modifies this
      ensures db == old(db) && dbBlock == old(dbBlock) && Blocks(layers) == Blocks(old(layers))
      ensures Valid() && |layers| == |old(layers)|
      ensures ok <==> coin.script.unspendable || possibleOverwrite || o !in old(views)[|layers|]
      ensures views == if ok && !coin.script.unspendable then old(views)[|layers| := old(views)[|layers|][o := coin]] else old(views)
      ensures var cs, top := Contents(old(layers)), |layers| - 1;
              Contents(layers) == if ok && !coin.script.unspendable then cs[top := Added(cs[top], o, coin, possibleOverwrite)] else cs
    {
      ok, layers, lists, views := AddEntry(db, layers, o, coin, possibleOverwrite, lists, views);
    }

    /** Spend a coin in the topmost cache, and return it. */
    method SpendCoin(o: Outpoint) returns (spent: bool, moved: Coin)
      requires Valid() && layers != []
      modifies this
      ensures db == old(db) && dbBlock == old(dbBlock) && Blocks(layers) == Blocks(old(layers))
      ensures Valid() && |layers| == |old(layers)| && views == old(views)[|layers| := old(views)[|layers|] - {o}]
      ensures moved == Get(old(views)[|layers|], o)
      ensures spent <==> o in old(views)[|layers|] || o in Contents(old(layers))[|layers| - 1]
      ensures Contents(layers) == SpentOnTop(Contents(old(layers)), old(views), o)
    {
      var top := |layers| - 1;
      assert LayerAt(layers, lists, views, top);
      FetchedHas(Contents(layers), views, top, o);
      moved := GetCoin(top, o);
      spent := o in layers[top].coins;
      assert spent <==> o in Contents(layers)[top];
      if spent {
        layers, moved, lists, views := SpendEntry(db, layers, o, lists, views);
      } else {
        NothingToSpend(views, |layers|, o);
      }
    }

    /** Drop an unmodified entry of layer `i`. */
    method Uncache(i: nat, o: Outpoint)
      requires Valid() && i < |layers|
      modifies this
      ensures db == old(db) && dbBlock == old(dbBlock) && Blocks(layers) == Blocks(old(layers))
      ensures Valid() && views == old(views) && |layers| == |old(layers)|
      ensures Contents(layers) == Contents(old(layers))[i := Uncached(Contents(old(layers))[i], o)]
    {
      assert LayerAt(layers, lists, views, i);
      var c, l := CoinLayers.Uncache(layers[i], o, lists[i], views[i]);
      ReplaceLayer(db, layers, lists, views, i, c, l);
      ContentsSet(layers, i, c);
      layers, lists := layers[i := c], lists[i := l];
    }

    /** Push the changes of layer `i` to what is below it, and empty the layer. */
    method Flush(i: nat) returns (ok: bool)
      requires Valid() && i < |layers|
      modifies this
      ensures Valid() && ok && |layers| == |old(layers)| && views == old(views)[i := old(views)[i + 1]]
      ensures layers[i] == Emptied(old(layers)[i]) && Contents(layers) == Lowered(Contents(old(layers)), i, map[])
      ensures dbBlock == (if i == 0 then old(layers)[0].hashBlock else old(dbBlock))
      ensures i > 0 ==> layers[i - 1].hashBlock == old(layers)[i].hashBlock
      ensures forall k :: 0 <= k < |layers| && k != i && k != i - 1 ==> layers[k] == old(layers)[k]
    {
      var c;
      ok, c := WriteDown(i, true);
    }

    /** Push the changes of layer `i` to what is below it, and keep its unspent coins, now unflagged. */
    method Sync(i: nat) returns (ok: bool)
      requires Valid() && i < |layers|
      modifies this
      ensures Valid() && ok && |layers| == |old(layers)| && views == old(views)[i := old(views)[i + 1]]
      ensures layers[i].first == Sentinel && layers[i].hashBlock == old(layers)[i].hashBlock
      ensures Contents(layers) == Lowered(Contents(old(layers)), i, Unflagged(Contents(old(layers))[i]))
      ensures dbBlock == (if i == 0 then old(layers)[0].hashBlock else old(dbBlock))
      ensures i > 0 ==> layers[i - 1].hashBlock == old(layers)[i].hashBlock
      ensures forall k :: 0 <= k < |layers| && k != i && k != i - 1 ==> layers[k] == old(layers)[k]
    {
      var c;
      ok, c := WriteDown(i, false);
      if ok {
        // Entries left in the list would mean that not all flags were cleared.
        ok := c.first == Sentinel;
      }
    }

    /** `BatchWrite` of layer `i` to the layer or database below. */
    method WriteDown(i: nat, willErase: bool) returns (ok: bool, c: Cache)
      requires Valid() && i < |layers|
      modifies this
      ensures Valid() && ok && |layers| == |old(layers)| && views == old(views)[i := old(views)[i + 1]]
      ensures layers[i] == c && if willErase then c == Emptied(old(layers)[i]) else c.first == Sentinel && c.hashBlock == old(layers)[i].hashBlock
      ensures Contents(layers) == Lowered(Contents(old(layers)), i, if willErase then map[] else Unflagged(Contents(old(layers))[i]))
      ensures dbBlock == (if i == 0 then old(layers)[0].hashBlock else old(dbBlock))
      ensures i > 0 ==> layers[i - 1].hashBlock == old(layers)[i].hashBlock
      ensures forall k :: 0 <= k < |layers| && k != i && k != i - 1 ==> layers[k] == old(layers)[k]
    {
      assert LayerAt(layers, lists, views, i);
      var hash := layers[i].hashBlock;
      if i == 0 {
        var db2;
        ok := true;
        db2, c := WriteDatabase(db, layers[0], willErase, lists[0]);
        c := Leave(layers[0], c, willErase, lists[0], views[0]);
        ReplaceLowest(db, layers, lists, views, db2, c, []);
        ContentsSet(layers, 0, c);
        db, dbBlock, layers, lists, views := db2, hash, layers[0 := c], lists[0 := []], views[0 := views[1]];
      } else {
        ok, layers, lists := LowerTo(db, layers, i, willErase, lists, views);
        views := views[i := views[i + 1]];
        c := layers[i];
      }
    }

    /** The best block through layer `i`, asking below if the layer does not know one yet. */
    method GetBestBlock(i: nat) returns (hash: nat)
      requires Valid() && i < |layers|
      modifies this
      ensures Valid() && views == old(views) && |layers| == |old(layers)| && dbBlock == old(dbBlock)
      ensures hash == BestBlock(old(dbBlock), old(layers), i + 1)
      ensures layers[i].hashBlock == hash
      ensures forall k :: i < k < |layers| ==> layers[k] == old(layers)[k]
      decreases i
    {
      if layers[i].hashBlock == 0 {
        if i == 0 {
          hash := dbBlock;
        } else {
          hash := GetBestBlock(i - 1);
        }
        SetBestBlock(i, hash);
      } else {
        hash := layers[i].hashBlock;
      }
    }

    method SetBestBlock(i: nat, hash: nat)
      requires Valid() && i < |layers|
      modifies this
      ensures Valid() && views == old(views) && dbBlock == old(dbBlock)
      ensures layers == old(layers)[i := old(layers)[i].(hashBlock := hash)]
    {
      assert LayerAt(layers, lists, views, i);
      var c := layers[i].(hashBlock := hash);
      ListOkSame(layers[i], c, lists[i]);
      ReplaceLayer(db, layers, lists, views, i, c, lists[i]);
      layers, lists := layers[i := c], lists[i := lists[i]];
    }

    /** No check of `SanityCheck` ever fails. */
    method SanityCheck(i: nat) returns (ok: bool)
      requires Valid() && i < |layers|
      ensures ok
    {
      assert LayerAt(layers, lists, views, i);
      LayerIsSane(layers[i], lists[i], views[i]);
      ok := CoinFlush.SanityCheck(layers[i], lists[i]);
    }
  }

  /** What remains of a layer after its changes were written. */
  method Leave(c0: Cache, passed: Cache, willErase: bool, ghost cl: seq<Outpoint>, ghost v0: Utxos) returns (c: Cache)
    requires LayerOk(c0, cl, v0) && Passed(c0, cl, willErase, |cl|, passed)
    ensures LayerOk(c, [], Visible(c0, v0)) && Visible(c, Visible(c0, v0)) == Visible(c0, v0)
    ensures if willErase then c == Emptied(c0) else c.first == Sentinel && c.hashBlock == c0.hashBlock
    ensures Content(c.coins) == if willErase then map[] else Unflagged(Content(c0.coins))
  {
    if willErase {
      EmptiedOk(passed, Visible(c0, v0));
      c := Emptied(passed);
    } else {
      SyncedOk(c0, cl, v0, passed);
      SyncedEntries(c0, cl, v0);
      assert cl[..|cl|] == cl;
      c := passed;
    }
  }

  /** Writing a layer down hands its best block on if it knows one; otherwise the layer below forgets
      its own, so that the best block is kept just if the two below agree. */
  lemma {:induction false} BestBlockWritten(dbBlock: nat, layers: seq<Cache>, i: nat, after: seq<Cache>)
    requires 0 < i < |layers| == |after| && after[i - 1].hashBlock == layers[i].hashBlock
    requires forall k :: 0 <= k < i - 1 ==> after[k] == layers[k]
    ensures BestBlock(dbBlock, after, i) == BestBlock(dbBlock, layers, i + 1) <==>
            layers[i].hashBlock != 0 || BestBlock(dbBlock, layers, i - 1) == BestBlock(dbBlock, layers, i)
  {
    BestBlockBelow(dbBlock, layers, after, i - 1);
  }

  /** A best block that is lost: the layer written down knows none, and the two below it disagree. */
  lemma {:induction false} BestBlockLost(hash: nat, other: nat)
    requires hash != 0 && other != hash
    ensures var quiet, knowing := Cache(map[], Sentinel, Sentinel, 0, 0), Cache(map[], Sentinel, Sentinel, 0, hash);
            BestBlock(other, [knowing, quiet], 2) == hash && BestBlock(other, [quiet, quiet], 1) == other
  {
    var quiet, knowing := Cache(map[], Sentinel, Sentinel, 0, 0), Cache(map[], Sentinel, Sentinel, 0, hash);
    BestBlockWritten(other, [knowing, quiet], 1, [quiet, quiet]);
  }

  lemma {:induction false} BestBlockBelow(dbBlock: nat, layers: seq<Cache>, after: seq<Cache>, n: nat)
    requires n <= |layers| && n <= |after| && forall k :: 0 <= k < n ==> after[k] == layers[k]
    ensures BestBlock(dbBlock, after, n) == BestBlock(dbBlock, layers, n)
  {
    if n > 0 {
      BestBlockBelow(dbBlock, layers, after, n - 1);
    }
  }
}
