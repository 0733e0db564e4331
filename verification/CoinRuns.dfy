/** Whole runs over a stack of coins caches, against runs over plain maps. */
module CoinRuns {
  import opened CoinLinks
  import opened CoinCaches
  import opened CoinLayers
  import opened CoinFlush
  import opened CoinStacks

  datatype Op =
    | Lookup(layer: nat, outpoint: Outpoint)
    | Add(outpoint: Outpoint, coin: Coin, possibleOverwrite: bool)
    | Spend(outpoint: Outpoint)
    | Forget(layer: nat, outpoint: Outpoint)
    | WriteAndEmpty(layer: nat)
    | WriteAndKeep(layer: nat)
    | PushCache
    | PopCache

  /** What callers must respect, in terms of the plain maps only: the layer exists, and a coin is not
      added over an unspent one unless an overwrite is announced. */
  ghost predicate Allowed(vs: seq<Utxos>, op: Op)
    requires vs != []
  {
    var n := |vs| - 1;
    match op
    case Lookup(i, _) => i < n
    case Add(o, coin, possibleOverwrite) => n > 0 && !coin.IsSpent() && (possibleOverwrite || o !in vs[n])
    case Spend(_) => n > 0
    case Forget(i, _) => i < n
    case WriteAndEmpty(i) => i < n
    case WriteAndKeep(i) => i < n
    case PushCache => true
    case PopCache => n > 0
  }

  /** What an operation does to the plain maps. */
  ghost function Applied(vs: seq<Utxos>, op: Op): (r: seq<Utxos>)
    requires vs != [] && Allowed(vs, op)
    ensures r != []
  {
    var n := |vs| - 1;
    match op
    case Lookup(_, _) => vs
    case Add(o, coin, _) => if coin.script.unspendable then vs else vs[n := vs[n][o := coin]]
    case Spend(o) => vs[n := vs[n] - {o}]
    case Forget(_, _) => vs
    case WriteAndEmpty(i) => vs[i := vs[i + 1]]
    case WriteAndKeep(i) => vs[i := vs[i + 1]]
    case PushCache => vs + [vs[n]]
    case PopCache => vs[..n]
  }

  ghost predicate AllAllowed(vs: seq<Utxos>, ops: seq<Op>)
    requires vs != []
    decreases |ops|
  {
    ops == [] || (Allowed(vs, ops[0]) && AllAllowed(Applied(vs, ops[0]), ops[1..]))
  }

  ghost function AppliedAll(vs: seq<Utxos>, ops: seq<Op>): seq<Utxos>
    requires vs != [] && AllAllowed(vs, ops)
    decreases |ops|
  {
    if ops == [] then vs else AppliedAll(Applied(vs, ops[0]), ops[1..])
  }

  /** What an operation does to the entries of the layers. */
  ghost function Kept(vs: seq<Utxos>, cs: seq<Items>, op: Op): (r: seq<Items>)
    requires |vs| == |cs| + 1 && Allowed(vs, op)
    ensures |Applied(vs, op)| == |r| + 1
  {
    var n := |cs|;
    match op
    case Lookup(i, o) => Fetched(cs, vs, i, o)
    case Add(o, coin, possibleOverwrite) =>
      if coin.script.unspendable then cs else cs[n - 1 := Added(cs[n - 1], o, coin, possibleOverwrite)]
    case Spend(o) => SpentOnTop(cs, vs, o)
    case Forget(i, o) => cs[i := Uncached(cs[i], o)]
    case WriteAndEmpty(i) => Lowered(cs, i, map[])
    case WriteAndKeep(i) => Lowered(cs, i, Unflagged(cs[i]))
    case PushCache => cs + [map[]]
    case PopCache => cs[..n - 1]
  }

  /** What an operation hands back: a coin, and whether there was an entry to spend. */
  datatype Reply = Reply(coin: Coin, spent: bool)

  /** The coin is the one in the plain map, or the spent coin. There is nothing to spend if the plain map has no coin,
      except where the topmost layer remembers that it was spent. */
  ghost function Answer(vs: seq<Utxos>, cs: seq<Items>, op: Op): Reply
    requires |vs| == |cs| + 1 && Allowed(vs, op)
  {
    match op
    case Lookup(i, o) => Reply(Get(vs[i + 1], o), false)
    case Spend(o) => Reply(Get(vs[|cs|], o), o in vs[|cs|] || o in cs[|cs| - 1])
    case _ => Reply(Null, false)
  }

  ghost function Answers(vs: seq<Utxos>, cs: seq<Items>, ops: seq<Op>): seq<Reply>
    requires |vs| == |cs| + 1 && AllAllowed(vs, ops)
    decreases |ops|
  {
    if ops == [] then [] else [Answer(vs, cs, ops[0])] + Answers(Applied(vs, ops[0]), Kept(vs, cs, ops[0]), ops[1..])
  }

  ghost function KeptAll(vs: seq<Utxos>, cs: seq<Items>, ops: seq<Op>): seq<Items>
    requires |vs| == |cs| + 1 && AllAllowed(vs, ops)
    decreases |ops|
  {
    if ops == [] then cs else KeptAll(Applied(vs, ops[0]), Kept(vs, cs, ops[0]), ops[1..])
  }

  /** One operation on the caches is one operation on the plain maps and the layers' entries, with the same answer, and
      no check in it fails. */
  method Perform(cv: CoinsViews, op: Op) returns (ok: bool, reply: Reply)
    requires cv.Valid() && Allowed(cv.views, op)
    modifies cv
    ensures cv.Valid() && ok && cv.views == Applied(old(cv.views), op)
    ensures Contents(cv.layers) == Kept(old(cv.views), Contents(old(cv.layers)), op)
    ensures reply == Answer(old(cv.views), Contents(old(cv.layers)), op)
  {
    ok, reply := true, Reply(Null, false);
    match op {
      case Lookup(i, o) =>
        var coin := cv.GetCoin(i, o);
        reply := Reply(coin, false);
      case Add(o, added, possibleOverwrite) =>
        ok := cv.AddCoin(o, added, possibleOverwrite);
      case Spend(o) =>
        var spent, coin := cv.SpendCoin(o);
        reply := Reply(coin, spent);
      case Forget(i, o) =>
        cv.Uncache(i, o);
      case WriteAndEmpty(i) =>
        ok := cv.Flush(i);
      case WriteAndKeep(i) =>
        ok := cv.Sync(i);
      case PushCache =>
        cv.AddCache();
      case PopCache =>
        cv.DropCache();
    }
  }

  /** A run over the caches is the run over the plain maps, whatever the operations, with the same answers. Then all
      layers pass `SanityCheck`. */
  method Run(cv: CoinsViews, ops: seq<Op>) returns (ok: bool, replies: seq<Reply>)
    requires cv.Valid() && AllAllowed(cv.views, ops)
    modifies cv
    ensures cv.Valid() && ok && cv.views == AppliedAll(old(cv.views), ops)
    ensures Contents(cv.layers) == KeptAll(old(cv.views), Contents(old(cv.layers)), ops)
    ensures replies == Answers(old(cv.views), Contents(old(cv.layers)), ops)
  {
    ok, replies := true, [];
    var k := 0;
    assert ops[0..] == ops;
    while k < |ops|
      invariant 0 <= k <= |ops| && cv.Valid() && ok
      invariant AllAllowed(cv.views, ops[k..]) && AppliedAll(cv.views, ops[k..]) == AppliedAll(old(cv.views), ops)
      invariant KeptAll(cv.views, Contents(cv.layers), ops[k..]) == KeptAll(old(cv.views), Contents(old(cv.layers)), ops)
      invariant replies + Answers(cv.views, Contents(cv.layers), ops[k..]) == Answers(old(cv.views), Contents(old(cv.layers)), ops)
    {
      assert ops[k..][1..] == ops[k + 1..];
      var reply;
      ok, reply := Perform(cv, ops[k]);
      replies := replies + [reply];
      k := k + 1;
    }
  }
}
