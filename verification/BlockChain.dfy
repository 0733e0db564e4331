/** The block index with its skip pointers (`CBlockIndex`), and the active chain (`CChain`). */
module BlockChains {

  import opened Basics

  type Id = nat

  /** A block header in the index; `prev` and `skip` are the pointers, none for the genesis block. */
  datatype Block = Block(prev: Option<Id>, skip: Option<Id>, height: nat)

  type Index = map<Id, Block>

  // ---------- Skip heights ----------

  /** Bitwise and of two natural numbers. */
  function BitAnd(a: nat, b: nat): (r: nat)
    ensures r <= a && r <= b
  {
    if a == 0 || b == 0 then 0 else 2 * BitAnd(a / 2, b / 2) + (a % 2) * (b % 2)
  }

  /** Turn the lowest 1 bit into 0. */
  function InvertLowestOne(n: nat): (r: nat)
    ensures n > 0 ==> r < n
    ensures n == 0 ==> r == 0
  {
    if n == 0 then 0 else BitAnd(n, n - 1)
  }

  /** The value of the lowest 1 bit. */
  function LowestOne(n: nat): (p: nat)
    requires n > 0
    ensures 0 < p <= n
  {
    if n % 2 == 1 then 1 else 2 * LowestOne(n / 2)
  }

  lemma {:induction false} BitAndSelf(n: nat)
    ensures BitAnd(n, n) == n
    decreases n
  {
    if n > 0 {
      BitAndSelf(n / 2);
    }
  }

  /** `n & (n - 1)` takes exactly the lowest 1 bit away. */
  lemma {:induction false} LowestOneCleared(n: nat)
    requires n > 0
    ensures InvertLowestOne(n) == n - LowestOne(n)
    decreases n
  {
    if n % 2 == 1 {
      BitAndSelf(n / 2);
      assert (n - 1) / 2 == n / 2;
    } else {
      LowestOneCleared(n / 2);
      assert (n - 1) / 2 == n / 2 - 1;
    }
  }

  /** The height that the skip pointer of a block at `height` leads to: below that of its parent, or equal. */
  function GetSkipHeight(height: nat): (r: nat)
    ensures height > 0 ==> r < height
    ensures height == 0 ==> r == 0
  {
    if height < 2 then 0
    else if height % 2 == 1 then InvertLowestOne(InvertLowestOne(height - 1)) + 1
    else InvertLowestOne(height)
  }

  /** The powers of two that a number is the sum of, the lowest first. */
  ghost function Powers(n: nat): seq<nat> {
    if n == 0 then [] else [LowestOne(n)] + Powers(n - LowestOne(n))
  }

  lemma {:induction false} PowersOfOdd(n: nat)
    requires n % 2 == 0
    ensures Powers(n + 1) == [1] + Powers(n)
  {
    assert LowestOne(n + 1) == 1;
  }

  lemma {:induction false} PowersInverted(n: nat)
    requires n > 0
    ensures Powers(n) != [] && Powers(InvertLowestOne(n)) == Powers(n)[1..]
  {
    LowestOneCleared(n);
  }

  lemma {:induction false} EvenInverted(n: nat)
    requires n > 0 && n % 2 == 0
    ensures InvertLowestOne(n) % 2 == 0
  {
    LowestOneCleared(n);
  }

  /** The bits of a skip height: those of an even height but for the lowest, and those of an odd one but for the two
      that follow the lowest. */
  lemma {:induction false} SkipHeightBits(height: nat)
    requires height >= 2
    ensures height % 2 == 0 ==> |Powers(height)| >= 1 && Powers(GetSkipHeight(height)) == Powers(height)[1..]
    ensures height % 2 == 1 ==> |Powers(height)| >= 2 && Powers(GetSkipHeight(height)) == [1] + if |Powers(height)| == 2 then [] else Powers(height)[3..]
  {
    if height % 2 == 0 {
      PowersInverted(height);
    } else {
      OddSkip(height, height - 1, InvertLowestOne(height - 1));
    }
  }

  lemma {:induction false} OddSkip(height: nat, m: nat, i: nat)
    requires height >= 2 && height % 2 == 1 && m == height - 1 && i == InvertLowestOne(m)
    ensures |Powers(height)| >= 2 && Powers(InvertLowestOne(i) + 1) == [1] + if |Powers(height)| == 2 then [] else Powers(height)[3..]
  {
    var j := InvertLowestOne(i);
    OddStart(m, i);
    OddEnd(i, j);
    WithoutTwo(Powers(height), Powers(m), Powers(i), Powers(j), Powers(j + 1));
  }

  lemma {:induction false} OddStart(m: nat, i: nat)
    requires m > 0 && m % 2 == 0 && i == InvertLowestOne(m)
    ensures Powers(m + 1) == [1] + Powers(m) && Powers(m) != [] && Powers(i) == Powers(m)[1..] && i % 2 == 0
  {
    PowersOfOdd(m);
    PowersInverted(m);
    EvenInverted(m);
  }

  lemma {:induction false} OddEnd(i: nat, j: nat)
    requires i % 2 == 0 && j == InvertLowestOne(i)
    ensures Powers(j + 1) == [1] + Powers(j) && if Powers(i) == [] then Powers(j) == [] else Powers(j) == Powers(i)[1..]
  {
    if i > 0 {
      PowersInverted(i);
      EvenInverted(i);
    }
    PowersOfOdd(j);
  }

  lemma {:induction false} WithoutTwo(h: seq<nat>, m: seq<nat>, i: seq<nat>, j: seq<nat>, k: seq<nat>)
    requires m != [] && h == [1] + m && i == m[1..] && (if i == [] then j == [] else j == i[1..]) && k == [1] + j
    ensures |h| >= 2 && k == [1] + if |h| == 2 then [] else h[3..]
  {
  }

  // ---------- The index ----------

  /** The parent is in the index, one lower. */
  ghost predicate LinkedAt(t: Index, id: Id)
    requires id in t
  {
    match t[id].prev
    case None => t[id].height == 0
    case Some(p) => p in t && t[id].height == t[p].height + 1
  }

  ghost predicate Linked(t: Index) {
    forall id {:trigger LinkedAt(t, id)} :: id in t ==> LinkedAt(t, id)
  }

  /** The ancestor at a height, found by walking back one by one. */
  ghost function Ancestor(t: Index, id: Id, height: nat): (r: Id)
    requires Linked(t) && id in t && height <= t[id].height
    ensures r in t && t[r].height == height
    decreases t[id].height
  {
    assert LinkedAt(t, id);
    if t[id].height == height then id else Ancestor(t, t[id].prev.value, height)
  }

  /** The skip pointer leads to the ancestor at the skip height. */
  ghost predicate SkipAt(t: Index, id: Id)
    requires Linked(t) && id in t
  {
    if t[id].prev.None? then t[id].skip.None?
    else t[id].skip == Some(Ancestor(t, id, GetSkipHeight(t[id].height)))
  }

  /** One genesis block; all parents and skip pointers are right. */
  ghost predicate IndexOk(t: Index) {
    && Linked(t)
    && (forall id {:trigger SkipAt(t, id)} :: id in t ==> SkipAt(t, id))
    && forall i, j :: i in t && j in t && t[i].prev.None? && t[j].prev.None? ==> i == j
  }

  lemma {:induction false} AncestorOfAncestor(t: Index, id: Id, k: nat, h: nat)
    requires Linked(t) && id in t && h <= k <= t[id].height
    ensures Ancestor(t, Ancestor(t, id, k), h) == Ancestor(t, id, h)
    decreases t[id].height
  {
    assert LinkedAt(t, id);
    if k < t[id].height {
      AncestorOfAncestor(t, t[id].prev.value, k, h);
    }
  }

  /** Adding a block does not change the ancestors of others. */
  lemma {:induction false} AncestorStays(t: Index, u: Index, id: Id, h: nat)
    requires Linked(t) && Linked(u) && id in t && h <= t[id].height && forall j :: j in t ==> j in u && u[j] == t[j]
    ensures Ancestor(u, id, h) == Ancestor(t, id, h)
    decreases t[id].height
  {
    assert LinkedAt(t, id);
    if t[id].height != h {
      AncestorStays(t, u, t[id].prev.value, h);
    }
  }

  /** The lowest ancestors of all blocks are the same. */
  lemma {:induction false} OneGenesis(t: Index, i: Id, j: Id)
    requires IndexOk(t) && i in t && j in t
    ensures Ancestor(t, i, 0) == Ancestor(t, j, 0)
  {
    assert LinkedAt(t, Ancestor(t, i, 0)) && LinkedAt(t, Ancestor(t, j, 0));
  }

  /** The ancestor at a height, following skip pointers where that does not go too far. */
  method GetAncestor(t: Index, id: Id, height: int) returns (r: Option<Id>)
    requires IndexOk(t) && id in t
    ensures r.None? <==> height > t[id].height || height < 0
    ensures r.Some? ==> r.value == Ancestor(t, id, height)
  {
    if height > t[id].height || height < 0 {
      return None;
    }
    var walk, heightWalk := id, t[id].height;
    while heightWalk > height
      invariant walk in t && heightWalk == t[walk].height >= height && Ancestor(t, walk, height) == Ancestor(t, id, height)
      decreases heightWalk
    {
      var heightSkip, heightSkipPrev := GetSkipHeight(heightWalk), GetSkipHeight(heightWalk - 1);
      assert LinkedAt(t, walk) && SkipAt(t, walk);
      if t[walk].skip.Some? && (heightSkip == height || (heightSkip > height && !(heightSkipPrev < heightSkip - 2 && heightSkipPrev >= height))) {
        AncestorOfAncestor(t, walk, heightSkip, height);
        walk := t[walk].skip.value;
        heightWalk := heightSkip;
      } else {
        walk := t[walk].prev.value;
        heightWalk := heightWalk - 1;
      }
    }
    return Some(walk);
  }

  /** The index with a block on top of `p`, not yet with a skip pointer. */
  function WithBlock(t: Index, id: Id, p: Id, skip: Option<Id>): Index
    requires p in t
  {
    t[id := Block(Some(p), skip, t[p].height + 1)]
  }

  lemma {:induction false} WithBlockOk(t: Index, id: Id, p: Id, skip: Id)
    requires IndexOk(t) && id !in t && p in t && skip == Ancestor(t, p, GetSkipHeight(t[p].height + 1))
    ensures IndexOk(WithBlock(t, id, p, Some(skip)))
  {
    var u := WithBlock(t, id, p, Some(skip));
    WithBlockLinked(t, id, p, Some(skip));
    forall j | j in u ensures SkipAt(u, j) {
      WithBlockSkip(t, id, p, skip, j);
    }
  }

  lemma {:induction false} WithBlockLinked(t: Index, id: Id, p: Id, skip: Option<Id>)
    requires Linked(t) && id !in t && p in t
    ensures Linked(WithBlock(t, id, p, skip))
  {
    var u := WithBlock(t, id, p, skip);
    forall j | j in u ensures LinkedAt(u, j) {
      assert j != id ==> LinkedAt(t, j);
    }
  }

  lemma {:induction false} WithBlockSkip(t: Index, id: Id, p: Id, skip: Id, j: Id)
    requires IndexOk(t) && id !in t && p in t && skip == Ancestor(t, p, GetSkipHeight(t[p].height + 1))
    requires Linked(WithBlock(t, id, p, Some(skip))) && j in WithBlock(t, id, p, Some(skip))
    ensures SkipAt(WithBlock(t, id, p, Some(skip)), j)
  {
    var u := WithBlock(t, id, p, Some(skip));
    if j != id {
      assert SkipAt(t, j);
      AncestorStays(t, u, j, GetSkipHeight(t[j].height));
    } else {
      AncestorStays(t, u, p, GetSkipHeight(t[p].height + 1));
    }
  }

  /** Link a new block to its parent, and build its skip pointer. */
  method AddBlock(t: Index, id: Id, p: Id) returns (u: Index)
    requires IndexOk(t) && id !in t && p in t
    ensures IndexOk(u) && u.Keys == t.Keys + {id} && u[id].prev == Some(p) && (forall j :: j in t ==> u[j] == t[j])
  {
    var skip := GetAncestor(t, p, GetSkipHeight(t[p].height + 1));
    WithBlockOk(t, id, p, skip.value);
    u := WithBlock(t, id, p, skip);
  }

  // ---------- Common ancestors ----------

  ghost predicate SameAt(t: Index, a: Id, b: Id, h: nat)
    requires Linked(t) && a in t && b in t
  {
    h <= t[a].height && h <= t[b].height && Ancestor(t, a, h) == Ancestor(t, b, h)
  }

  /** Where two branches are the same, they are the same below too. */
  lemma {:induction false} SameBelow(t: Index, a: Id, b: Id, k: nat, h: nat)
    requires Linked(t) && a in t && b in t && SameAt(t, a, b, k) && h <= k
    ensures SameAt(t, a, b, h)
  {
    AncestorOfAncestor(t, a, k, h);
    AncestorOfAncestor(t, b, k, h);
  }

  /** Ancestors agree at the same heights as what they are ancestors of, as far as they reach. */
  ghost predicate StandFor(t: Index, a0: Id, b0: Id, a: Id, b: Id)
    requires Linked(t) && a0 in t && b0 in t
  {
    && a in t && b in t && t[a].height == t[b].height <= t[a0].height && t[a].height <= t[b0].height
    && a == Ancestor(t, a0, t[a].height) && b == Ancestor(t, b0, t[a].height)
    && (forall h {:trigger SameAt(t, a0, b0, h)} :: t[a].height < h ==> !SameAt(t, a0, b0, h))
  }

  lemma {:induction false} StepBack(t: Index, a0: Id, b0: Id, a: Id, b: Id, h: nat)
    requires IndexOk(t) && a0 in t && b0 in t && StandFor(t, a0, b0, a, b) && a != b && h < t[a].height
    requires h == t[a].height - 1 || Ancestor(t, a, h) != Ancestor(t, b, h)
    ensures StandFor(t, a0, b0, Ancestor(t, a, h), Ancestor(t, b, h))
  {
    var n := t[a].height;
    AncestorOfAncestor(t, a0, n, h);
    AncestorOfAncestor(t, b0, n, h);
    forall k | h < k ensures !SameAt(t, a0, b0, k) {
      if h < n - 1 && k <= n && SameAt(t, a0, b0, k) {
        SameBelow(t, a0, b0, k, h);
      }
    }
  }

  lemma {:induction false} ParentIsAncestor(t: Index, a: Id)
    requires Linked(t) && a in t && t[a].prev.Some?
    ensures t[a].height > 0 && Ancestor(t, a, t[a].height - 1) == t[a].prev.value
  {
    assert LinkedAt(t, a);
    assert Ancestor(t, t[a].prev.value, t[a].height - 1) == t[a].prev.value;
  }

  /** Rewind the higher of two blocks to the height of the other. */
  method SameHeight(t: Index, a0: Id, b0: Id) returns (a: Id, b: Id)
    requires IndexOk(t) && a0 in t && b0 in t
    ensures StandFor(t, a0, b0, a, b)
  {
    a, b := a0, b0;
    if t[a].height > t[b].height {
      var q := GetAncestor(t, a, t[b].height);
      a := q.value;
    } else if t[b].height > t[a].height {
      var q := GetAncestor(t, b, t[a].height);
      b := q.value;
    }
  }

  /** Jump back until both have the same skip pointer. */
  method SkipBack(t: Index, a0: Id, b0: Id, a1: Id, b1: Id) returns (a: Id, b: Id)
    requires IndexOk(t) && a0 in t && b0 in t && StandFor(t, a0, b0, a1, b1) && a1 != b1
    ensures StandFor(t, a0, b0, a, b) && a != b && t[a].height <= t[a1].height
    ensures t[a].prev.Some? && t[b].prev.Some? && t[a].skip.Some? && t[a].skip == t[b].skip
  {
    a, b := a1, b1;
    NotGenesis(t, a, b);
    while t[a].skip != t[b].skip
      invariant StandFor(t, a0, b0, a, b) && a != b && t[a].height <= t[a1].height
      invariant t[a].height > 0 && t[a].prev.Some? && t[b].prev.Some? && t[a].skip.Some? && t[b].skip.Some?
      decreases t[a].height
    {
      assert SkipAt(t, a) && SkipAt(t, b);
      StepBack(t, a0, b0, a, b, GetSkipHeight(t[a].height));
      a, b := t[a].skip.value, t[b].skip.value;
      NotGenesis(t, a, b);
    }
  }

  /** The highest block that is an ancestor of both. No pointer that is followed is null. */
  method LastCommonAncestor(t: Index, a0: Id, b0: Id) returns (r: Id)
    requires IndexOk(t) && a0 in t && b0 in t
    ensures r in t && t[r].height <= t[a0].height && t[r].height <= t[b0].height
    ensures r == Ancestor(t, a0, t[r].height) == Ancestor(t, b0, t[r].height)
    ensures forall h :: t[r].height < h <= t[a0].height && h <= t[b0].height ==> Ancestor(t, a0, h) != Ancestor(t, b0, h)
  {
    var a, b := SameHeight(t, a0, b0);
    while a != b
      invariant StandFor(t, a0, b0, a, b)
      decreases t[a].height
    {
      a, b := SkipBack(t, a0, b0, a, b);
      ParentIsAncestor(t, a);
      ParentIsAncestor(t, b);
      StepBack(t, a0, b0, a, b, t[a].height - 1);
      a, b := t[a].prev.value, t[b].prev.value;
    }
    r := a;
    forall h | t[r].height < h <= t[a0].height && h <= t[b0].height ensures Ancestor(t, a0, h) != Ancestor(t, b0, h) {
      assert !SameAt(t, a0, b0, h);
    }
  }

  lemma {:induction false} NotGenesis(t: Index, a: Id, b: Id)
    requires IndexOk(t) && a in t && b in t && a != b && t[a].height == t[b].height
    ensures t[a].height > 0 && t[a].prev.Some? && t[b].prev.Some? && t[a].skip.Some? && t[b].skip.Some?
  {
    assert LinkedAt(t, a) && LinkedAt(t, b) && SkipAt(t, a) && SkipAt(t, b);
    OneGenesis(t, a, b);
  }

  // ---------- The active chain ----------

  /** `v` is the branch of `tip`, by height. */
  ghost predicate IsBranch(t: Index, v: seq<Option<Id>>, tip: Id)
    requires Linked(t)
  {
    && tip in t && |v| == t[tip].height + 1
    && forall k {:trigger BranchAt(t, v, tip, k)} :: 0 <= k < |v| ==> BranchAt(t, v, tip, k)
  }

  ghost predicate BranchAt(t: Index, v: seq<Option<Id>>, tip: Id, k: nat)
    requires Linked(t) && tip in t && k < |v|
  {
    k <= t[tip].height && v[k] == Some(Ancestor(t, tip, k))
  }

  /** The branch of some block, or nothing at all. */
  ghost predicate ChainOk(t: Index, v: seq<Option<Id>>)
    requires Linked(t)
  {
    v == [] || (v[|v| - 1].Some? && v[|v| - 1].value in t && IsBranch(t, v, v[|v| - 1].value))
  }

  function Resized(v: seq<Option<Id>>, n: nat): (r: seq<Option<Id>>)
    ensures |r| == n && forall k :: 0 <= k < n ==> r[k] == if k < |v| then v[k] else None
  {
    if n <= |v| then v[..n] else v + seq(n - |v|, _ => None)
  }

  /** An entry that is on the branch of `p` already has the whole branch below it. */
  lemma {:induction false} RestOfBranch(t: Index, v: seq<Option<Id>>, tip: Id, p: Id, k: nat)
    requires Linked(t) && IsBranch(t, v, tip) && p in t && t[p].height < |v| && v[t[p].height] == Some(p) && k <= t[p].height
    ensures v[k] == Some(Ancestor(t, p, k))
  {
    assert BranchAt(t, v, tip, t[p].height) && BranchAt(t, v, tip, k);
    AncestorOfAncestor(t, tip, t[p].height, k);
  }

  lemma {:induction false} OnBranch(t: Index, v: seq<Option<Id>>, block: Id, p: Id, n: nat)
    requires Linked(t) && block in t && p in t && n == t[p].height + 1 <= |v| && t[p].height <= t[block].height && p == Ancestor(t, block, t[p].height)
    requires forall k {:trigger BranchAt(t, v, block, k)} :: n <= k < |v| ==> BranchAt(t, v, block, k)
    ensures forall k {:trigger BranchAt(t, v[n - 1 := Some(p)], block, k)} :: n - 1 <= k < |v| ==> BranchAt(t, v[n - 1 := Some(p)], block, k)
  {
    var w := v[n - 1 := Some(p)];
    forall k | n - 1 <= k < |w| ensures BranchAt(t, w, block, k) {
      assert k >= n ==> BranchAt(t, v, block, k);
    }
  }

  /** Where the old chain meets the branch of the new tip, it is that branch. */
  lemma {:induction false} MeetBranch(t: Index, v: seq<Option<Id>>, block: Id, p: Id, k: nat)
    requires Linked(t) && ChainOk(t, v) && block in t && p in t && t[p].height < |v| && v[t[p].height] == Some(p) && k <= t[p].height
    requires t[p].height <= t[block].height && p == Ancestor(t, block, t[p].height)
    ensures v[k] == Some(Ancestor(t, block, k))
  {
    RestOfBranch(t, v, v[|v| - 1].value, p, k);
    AncestorOfAncestor(t, block, t[p].height, k);
  }

  class ActiveChain {
    /** The blocks of the chain, by height; entries are null only while the tip is being set. */
    var vChain: seq<Option<Id>>

    constructor ()
      ensures vChain == []
    {
      vChain := [];
    }

    function Height(): int
      reads this
    {
      |vChain| - 1
    }

    predicate Contains(t: Index, id: Id)
      reads this
      requires id in t
    {
      t[id].height < |vChain| && vChain[t[id].height] == Some(id)
    }

    /** Make a block the tip: its branch replaces the old one, down to where they meet. */
    method SetTip(t: Index, block: Id)
      requires IndexOk(t) && block in t && ChainOk(t, vChain)
      modifies this
      ensures IsBranch(t, vChain, block)
    {
      ghost var before := vChain;
      vChain := Resized(vChain, t[block].height + 1);
      ghost var resized := vChain;
      var p := Some(block);
      ghost var n := |vChain|;
      while p.Some? && vChain[t[p.value].height] != p
        invariant p.Some? ==> p.value in t && n == t[p.value].height + 1 && p.value == Ancestor(t, block, t[p.value].height)
        invariant p.None? ==> n == 0
        invariant 0 <= n <= |vChain| == |resized| && vChain[..n] == resized[..n]
        invariant forall k {:trigger BranchAt(t, vChain, block, k)} :: n <= k < |vChain| ==> BranchAt(t, vChain, block, k)
        decreases n
      {
        assert LinkedAt(t, p.value);
        OnBranch(t, vChain, block, p.value, n);
        vChain := vChain[t[p.value].height := p];
        if t[p.value].prev.Some? {
          ParentIsAncestor(t, p.value);
          AncestorOfAncestor(t, block, n - 1, n - 2);
        }
        p := t[p.value].prev;
        n := n - 1;
      }
      forall k | 0 <= k < n ensures BranchAt(t, vChain, block, k) {
        assert vChain[..n][k] == resized[..n][k] && vChain[..n][n - 1] == resized[..n][n - 1];
        MeetBranch(t, before, block, p.value, k);
      }
    }

    /** The highest block of a block's branch that is in the chain. */
    method FindFork(t: Index, id: Id) returns (r: Option<Id>)
      requires IndexOk(t) && id in t && ChainOk(t, vChain)
      ensures r.None? <==> vChain == []
      ensures r.Some? ==> r.value in t && t[r.value].height <= t[id].height && r.value == Ancestor(t, id, t[r.value].height) && Contains(t, r.value)
      ensures r.Some? ==> forall h :: t[r.value].height < h <= t[id].height ==> !Contains(t, Ancestor(t, id, h))
    {
      r := Some(id);
      if t[id].height > Height() {
        r := GetAncestor(t, id, Height());
      }
      while r.Some? && !Contains(t, r.value)
        invariant r.Some? ==> r.value in t && t[r.value].height <= t[id].height && r.value == Ancestor(t, id, t[r.value].height)
        invariant r.Some? ==> t[r.value].height < |vChain| && forall h :: t[r.value].height < h <= t[id].height ==> !Contains(t, Ancestor(t, id, h))
        invariant r.None? ==> vChain == []
        decreases if r.Some? then t[r.value].height + 1 else 0
      {
        assert LinkedAt(t, r.value);
        if t[r.value].prev.None? {
          GenesisInChain(t, vChain, r.value);
        } else {
          ParentIsAncestor(t, r.value);
          AncestorOfAncestor(t, id, t[r.value].height, t[r.value].height - 1);
        }
        r := t[r.value].prev;
      }
    }
  }

  lemma {:induction false} GenesisInChain(t: Index, v: seq<Option<Id>>, g: Id)
    requires IndexOk(t) && ChainOk(t, v) && v != [] && g in t && t[g].prev.None?
    ensures t[g].height == 0 && v[0] == Some(g)
  {
    var tip := v[|v| - 1].value;
    assert LinkedAt(t, g) && BranchAt(t, v, tip, 0);
    OneGenesis(t, g, tip);
  }
}
