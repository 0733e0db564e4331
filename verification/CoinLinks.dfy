/** Entries of the coins cache and the intrusive list of its flagged entries (`CCoinsCacheEntry`). The
    address of an entry is the outpoint it is stored under, as entries of the map do not move. */
module CoinLinks {

  type Outpoint = nat

  /** The script matters here only by its memory usage and by whether it can be spent at all. */
  datatype Script = Script(id: nat, usage: nat, unspendable: bool)

  datatype Coin = Null | Coin(value: int, script: Script, height: nat, coinbase: bool) {
    predicate IsSpent() {
      Null?
    }

    function DynamicUsage(): nat {
      if Null? then 0 else script.usage
    }
  }

  datatype Link = Nowhere | Sentinel | At(outpoint: Outpoint)

  datatype Entry = Entry(coin: Coin, isDirty: bool, isFresh: bool, prev: Link, next: Link) {
    predicate Flagged() {
      isDirty || isFresh
    }
  }

  type Entries = map<Outpoint, Entry>

  /** The map of entries, the two links of the list's sentinel, the summed memory usage of the coins,
      and the best block, 0 if not known. */
  datatype Cache = Cache(coins: Entries, first: Link, last: Link, usage: nat, hashBlock: nat)

  // ---------- Changing links ----------

  function WithNext(c: Cache, at: Link, to: Link): Cache
    requires at.At? ==> at.outpoint in c.coins
  {
    match at
    case Nowhere => c
    case Sentinel => c.(first := to)
    case At(o) => c.(coins := c.coins[o := c.coins[o].(next := to)])
  }

  function WithPrev(c: Cache, at: Link, to: Link): Cache
    requires at.At? ==> at.outpoint in c.coins
  {
    match at
    case Nowhere => c
    case Sentinel => c.(last := to)
    case At(o) => c.(coins := c.coins[o := c.coins[o].(prev := to)])
  }

  /** Set flags; the first flag of an entry puts it at the end of the list. */
  function AddFlags(c: Cache, o: Outpoint, isDirty: bool, isFresh: bool): Cache
    requires o in c.coins && (c.last.At? ==> c.last.outpoint in c.coins)
  {
    var e := c.coins[o];
    var c1 :=
      if e.Flagged() then c
      else
        var c2 := c.(coins := c.coins[o := e.(prev := c.last, next := Sentinel)], last := At(o));
        WithNext(c2, c.last, At(o));
    c1.(coins := c1.coins[o := c1.coins[o].(isDirty := e.isDirty || isDirty, isFresh := e.isFresh || isFresh)])
  }

  /** Clear the flags of an entry and take it out of the list. */
  function SetClean(c: Cache, o: Outpoint): Cache
    requires o in c.coins
    requires c.coins[o].prev.At? ==> c.coins[o].prev.outpoint in c.coins
    requires c.coins[o].next.At? ==> c.coins[o].next.outpoint in c.coins
  {
    var e := c.coins[o];
    if !e.Flagged() then c
    else
      var c1 := WithNext(WithPrev(c, e.next, e.prev), e.prev, e.next);
      c1.(coins := c1.coins[o := c1.coins[o].(isDirty := false, isFresh := false, prev := Nowhere, next := Nowhere)])
  }

  /** Erasing an entry cleans it first. */
  function Erased(c: Cache, o: Outpoint): Cache
    requires o in c.coins
    requires c.coins[o].prev.At? ==> c.coins[o].prev.outpoint in c.coins
    requires c.coins[o].next.At? ==> c.coins[o].next.outpoint in c.coins
  {
    var c1 := SetClean(c, o);
    c1.(coins := c1.coins - {o})
  }

  // ---------- The list ----------

  ghost function LinkAt(l: seq<Outpoint>, k: int): Link {
    if 0 <= k < |l| then At(l[k]) else Sentinel
  }

  ghost predicate Linked(coins: Entries, l: seq<Outpoint>, k: nat)
    requires k < |l|
  {
    && l[k] in coins && coins[l[k]].Flagged()
    && coins[l[k]].prev == LinkAt(l, k - 1) && coins[l[k]].next == LinkAt(l, k + 1)
  }

  ghost predicate Once(l: seq<Outpoint>, k: nat)
    requires k < |l|
  {
    l[k] !in l[..k]
  }

  ghost predicate InListIfFlagged(coins: Entries, l: seq<Outpoint>, o: Outpoint)
    requires o in coins
  {
    if coins[o].Flagged() then o in l else coins[o].prev == Nowhere && coins[o].next == Nowhere
  }

  /** The list, from the sentinel and back, holds exactly the flagged entries, in the order `l`. */
  ghost predicate ListOk(c: Cache, l: seq<Outpoint>) {
    && c.first == LinkAt(l, 0) && c.last == LinkAt(l, |l| - 1)
    && (forall k {:trigger Linked(c.coins, l, k)} :: 0 <= k < |l| ==> Linked(c.coins, l, k))
    && (forall k {:trigger Once(l, k)} :: 0 <= k < |l| ==> Once(l, k))
    && forall o {:trigger InListIfFlagged(c.coins, l, o)} :: o in c.coins ==> InListIfFlagged(c.coins, l, o)
  }

  lemma {:induction false} OnceApart(l: seq<Outpoint>, j: nat, k: nat)
    requires forall i {:trigger Once(l, i)} :: 0 <= i < |l| ==> Once(l, i)
    requires j < |l| && k < |l| && l[j] == l[k]
    ensures j == k
  {
    assert Once(l, j) && Once(l, k);
  }

  lemma {:induction false} OnceDiffer(l: seq<Outpoint>, j: nat, k: nat)
    requires forall i {:trigger Once(l, i)} :: 0 <= i < |l| ==> Once(l, i)
    requires j < k < |l|
    ensures l[j] != l[k]
  {
    assert Once(l, k);
  }

  /** Flagging an unflagged entry appends it to the list. */
  lemma {:induction false} AddFlagsList(c: Cache, l: seq<Outpoint>, o: Outpoint, isDirty: bool, isFresh: bool)
    requires ListOk(c, l) && o in c.coins && (isDirty || isFresh)
    ensures c.last.At? ==> c.last.outpoint in c.coins
    ensures ListOk(AddFlags(c, o, isDirty, isFresh), if c.coins[o].Flagged() then l else l + [o])
  {
    var n := |l|;
    if n > 0 {
      assert Linked(c.coins, l, n - 1);
    }
    assert InListIfFlagged(c.coins, l, o);
    var d := AddFlags(c, o, isDirty, isFresh);
    var m := if c.coins[o].Flagged() then l else l + [o];
    assert !c.coins[o].Flagged() ==> o !in l by {
      if o in l {
        var k :| 0 <= k < n && l[k] == o;
        assert Linked(c.coins, l, k);
      }
    }
    forall k | 0 <= k < |m| ensures Linked(d.coins, m, k) && Once(m, k) {
      if k < n {
        assert Linked(c.coins, l, k) && Once(l, k);
        assert m[..k] == l[..k];
        if k < n - 1 {
          OnceDiffer(l, k, n - 1);
        }
      } else {
        assert m[..k] == l;
      }
    }
    forall q | q in d.coins ensures InListIfFlagged(d.coins, m, q) {
      assert InListIfFlagged(c.coins, l, q);
    }
  }

  function Without(l: seq<Outpoint>, k: nat): seq<Outpoint>
    requires k < |l|
  {
    l[..k] + l[k + 1..]
  }

  lemma {:induction false} WithoutOnce(l: seq<Outpoint>, k: nat)
    requires k < |l| && forall i {:trigger Once(l, i)} :: 0 <= i < |l| ==> Once(l, i)
    ensures forall i {:trigger Once(Without(l, k), i)} :: 0 <= i < |Without(l, k)| ==> Once(Without(l, k), i)
    ensures forall o :: o in Without(l, k) <==> o in l && o != l[k]
  {
    var m := Without(l, k);
    forall i | 0 <= i < |m| ensures m[i] == l[if i < k then i else i + 1] {}
    forall i | 0 <= i < |m| ensures Once(m, i) {
      if m[i] in m[..i] {
        var j :| 0 <= j < i && m[j] == m[i];
        OnceApart(l, if j < k then j else j + 1, if i < k then i else i + 1);
      }
    }
    forall o ensures o in m <==> o in l && o != l[k] {
      if o in m {
        var i :| 0 <= i < |m| && m[i] == o;
        if o == l[k] {
          OnceApart(l, if i < k then i else i + 1, k);
        }
      }
      if o in l && o != l[k] {
        var i :| 0 <= i < |l| && l[i] == o;
        assert m[if i < k then i else i - 1] == o;
      }
    }
  }

  /** Where a flagged entry is in the list. */
  lemma {:induction false} FlaggedAt(c: Cache, l: seq<Outpoint>, o: Outpoint) returns (k: nat)
    requires ListOk(c, l) && o in c.coins && c.coins[o].Flagged()
    ensures k < |l| && l[k] == o && Linked(c.coins, l, k)
    ensures c.coins[o].prev.At? ==> c.coins[o].prev.outpoint in c.coins
    ensures c.coins[o].next.At? ==> c.coins[o].next.outpoint in c.coins
  {
    assert InListIfFlagged(c.coins, l, o);
    k :| 0 <= k < |l| && l[k] == o;
    assert Linked(c.coins, l, k);
    if k > 0 { assert Linked(c.coins, l, k - 1); }
    if k + 1 < |l| { assert Linked(c.coins, l, k + 1); }
  }

  /** The links of a flagged entry may be followed; an unflagged entry has none. */
  lemma {:induction false} LinksInside(c: Cache, l: seq<Outpoint>, o: Outpoint)
    requires ListOk(c, l) && o in c.coins
    ensures c.coins[o].prev.At? ==> c.coins[o].prev.outpoint in c.coins
    ensures c.coins[o].next.At? ==> c.coins[o].next.outpoint in c.coins
  {
    if c.coins[o].Flagged() {
      var k := FlaggedAt(c, l, o);
    } else {
      assert InListIfFlagged(c.coins, l, o);
    }
  }

  /** What unlinking the entry at position `k` does to each entry. */
  lemma {:induction false} CleanEffect(c: Cache, l: seq<Outpoint>, k: nat, q: Outpoint)
    requires ListOk(c, l) && k < |l| && l[k] in c.coins && q in c.coins
    requires c.coins[l[k]].prev.At? ==> c.coins[l[k]].prev.outpoint in c.coins
    requires c.coins[l[k]].next.At? ==> c.coins[l[k]].next.outpoint in c.coins
    ensures var d := SetClean(c, l[k]);
            && d.coins.Keys == c.coins.Keys
            && (q == l[k] ==> d.coins[q] == Entry(c.coins[q].coin, false, false, Nowhere, Nowhere))
            && (q != l[k] ==> d.coins[q] == c.coins[q].(next := if k > 0 && q == l[k - 1] then LinkAt(l, k + 1) else c.coins[q].next,
                                                        prev := if k + 1 < |l| && q == l[k + 1] then LinkAt(l, k - 1) else c.coins[q].prev))
  {
    assert Linked(c.coins, l, k);
    if k > 0 && k + 1 < |l| && l[k - 1] == l[k + 1] {
      OnceApart(l, k - 1, k + 1);
    }
    if k > 0 && l[k - 1] == l[k] {
      OnceApart(l, k - 1, k);
    }
    if k + 1 < |l| && l[k + 1] == l[k] {
      OnceApart(l, k + 1, k);
    }
  }

  /** Cleaning the entry at position `k` takes it out of the list. */
  lemma {:induction false} SetCleanList(c: Cache, l: seq<Outpoint>, k: nat)
    requires ListOk(c, l) && k < |l| && l[k] in c.coins
    requires c.coins[l[k]].prev.At? ==> c.coins[l[k]].prev.outpoint in c.coins
    requires c.coins[l[k]].next.At? ==> c.coins[l[k]].next.outpoint in c.coins
    ensures ListOk(SetClean(c, l[k]), Without(l, k))
  {
    var d, m := SetClean(c, l[k]), Without(l, k);
    WithoutOnce(l, k);
    assert Linked(c.coins, l, k);
    forall i | 0 <= i < |m| ensures Linked(d.coins, m, i) {
      UnlinkedAt(c, l, k, i);
    }
    forall q | q in d.coins ensures InListIfFlagged(d.coins, m, q) {
      assert InListIfFlagged(c.coins, l, q);
      CleanEffect(c, l, k, q);
      LinkedNeighbours(c, l, k);
    }
    LinkedNeighbours(c, l, k);
  }

  lemma {:induction false} LinkedNeighbours(c: Cache, l: seq<Outpoint>, k: nat)
    requires ListOk(c, l) && k < |l|
    ensures k > 0 ==> l[k - 1] in c.coins && c.coins[l[k - 1]].Flagged()
    ensures k + 1 < |l| ==> l[k + 1] in c.coins && c.coins[l[k + 1]].Flagged()
  {
    if k > 0 { assert Linked(c.coins, l, k - 1); }
    if k + 1 < |l| { assert Linked(c.coins, l, k + 1); }
  }

  lemma {:induction false} UnlinkedAt(c: Cache, l: seq<Outpoint>, k: nat, i: nat)
    requires ListOk(c, l) && k < |l| && i < |l| - 1 && l[k] in c.coins
    requires c.coins[l[k]].prev.At? ==> c.coins[l[k]].prev.outpoint in c.coins
    requires c.coins[l[k]].next.At? ==> c.coins[l[k]].next.outpoint in c.coins
    ensures Linked(SetClean(c, l[k]).coins, Without(l, k), i)
  {
    var m := Without(l, k);
    var j := if i < k then i else i + 1;
    assert m[i] == l[j];
    assert Linked(c.coins, l, j);
    if l[j] == l[k] { OnceApart(l, j, k); }
    CleanEffect(c, l, k, l[j]);
    if k > 0 && l[j] == l[k - 1] { OnceApart(l, j, k - 1); }
    if k + 1 < |l| && l[j] == l[k + 1] { OnceApart(l, j, k + 1); }
    assert i > 0 ==> m[i - 1] == l[if i - 1 < k then i - 1 else i];
    assert i + 1 < |m| ==> m[i + 1] == l[if i + 1 < k then i + 1 else i + 2];
  }

  /** Erasing an entry takes it out of the map and out of the list. */
  lemma {:induction false} ErasedList(c: Cache, l: seq<Outpoint>, o: Outpoint) returns (m: seq<Outpoint>)
    requires ListOk(c, l) && o in c.coins
    ensures c.coins[o].prev.At? ==> c.coins[o].prev.outpoint in c.coins
    ensures c.coins[o].next.At? ==> c.coins[o].next.outpoint in c.coins
    ensures ListOk(Erased(c, o), m)
  {
    LinksInside(c, l, o);
    if c.coins[o].Flagged() {
      var k := FlaggedAt(c, l, o);
      SetCleanList(c, l, k);
      m := Without(l, k);
      WithoutOnce(l, k);
    } else {
      m := l;
    }
    EraseUnlisted(SetClean(c, o), m, o);
  }

  lemma {:induction false} EraseUnlisted(c: Cache, m: seq<Outpoint>, o: Outpoint)
    requires ListOk(c, m) && o in c.coins && !c.coins[o].Flagged()
    ensures ListOk(c.(coins := c.coins - {o}), m)
  {
    var d := c.(coins := c.coins - {o});
    forall k | 0 <= k < |m| ensures Linked(d.coins, m, k) {
      assert Linked(c.coins, m, k);
    }
    forall q | q in d.coins ensures InListIfFlagged(d.coins, m, q) {
      assert InListIfFlagged(c.coins, m, q);
    }
  }
}
