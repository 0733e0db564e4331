/** One improvement of the forest, seen on partitions: split a chunk of a topological state into a
    higher-feerate top and a bottom, run upward from the top, then downward from the bottom. */
module Improvement {
  import opened FeeFracs
  import opened TxSets
  import opened Partitions

  ghost function Split(part: Partition, top: set<Tx>, bottom: set<Tx>): Partition {
    map t | t in part :: if t in top then top else if t in bottom then bottom else part[t]
  }

  ghost predicate DownRun(deps: set<Dep>, fees: Fees, part: Partition, x: Tx, ys: seq<Tx>) {
    UpRun(Flipped(deps), Negated(fees), part, x, ys)
  }

  /** Flipping a cluster keeps the topological states topological. */
  lemma {:induction false} TopologicalFlipped(deps: set<Dep>, fees: Fees, part: Partition)
    requires ValidPartition(part) && part.Keys <= fees.Keys
    requires Topological(deps, fees, part) && DepsWithin(deps, part.Keys)
    ensures Topological(Flipped(deps), Negated(fees), part)
  {
    forall e | e in Flipped(deps) && e.child in part
      ensures e.parent in part
      ensures part[e.child] != part[e.parent] ==>
              Higher(Total(Negated(fees), part[e.parent]), Total(Negated(fees), part[e.child]))
    {
      var d := FlippedDep(e);
      assert d in deps;
      HigherFlipped(fees, part[d.parent], part[d.child]);
    }
  }

  lemma {:induction false} HigherFlipped(fees: Fees, a: set<Tx>, b: set<Tx>)
    requires a != {} && b != {} && a + b <= fees.Keys
    ensures Higher(Total(fees, a), Total(fees, b)) <==> Higher(Total(Negated(fees), b), Total(Negated(fees), a))
    ensures AtLeast(Total(fees, a), Total(fees, b)) <==> AtLeast(Total(Negated(fees), b), Total(Negated(fees), a))
  {
    TotalNegated(fees, a);
    TotalNegated(fees, b);
    ExcessNegated(Total(fees, b), Total(fees, a));
    ExcessFlip(Total(fees, a), Total(fees, b));
  }

  lemma {:induction false} StepAt(deps: set<Dep>, fees: Fees, part: Partition, x: Tx, ys: seq<Tx>, n: nat)
    requires UpChain(deps, fees, part, x, ys) && n < |ys|
    ensures UpStep(deps, fees, RunEnd(part, x, ys[..n]), x, ys[n])
    decreases |ys|
  {
    if n < |ys| - 1 {
      assert ys[..|ys| - 1][..n] == ys[..n];
      StepAt(deps, fees, part, x, ys[..|ys| - 1], n);
    }
  }

  /** A topological state admits no merge at all. */
  lemma {:induction false} NoStep(deps: set<Dep>, fees: Fees, part: Partition, x: Tx, y: Tx)
    requires ValidPartition(part) && Topological(deps, fees, part)
    ensures !UpStep(deps, fees, part, x, y)
  {
    if x in part && y in part && part[x] != part[y] && DependsOn(deps, part[x], part[y]) {
      var e :| e in deps && e.child in part[x] && e.parent in part[y];
      ExcessFlip(Total(fees, part[x]), Total(fees, part[y]));
    }
  }

  /** The situation right after the deactivation inside `Improve`. */
  ghost predicate SplitReady(deps: set<Dep>, fees: Fees, part: Partition, top: set<Tx>, bottom: set<Tx>) {
    && ValidPartition(part) && part.Keys <= fees.Keys
    && DepsWithin(deps, part.Keys) && Topological(deps, fees, part)
    && top != {} && bottom != {} && top !! bottom
    && (forall t :: t in top + bottom ==> t in part && part[t] == top + bottom)
    && Higher(Total(fees, top), Total(fees, top + bottom))
  }

  lemma {:induction false} SplitRates(deps: set<Dep>, fees: Fees, part: Partition, top: set<Tx>, bottom: set<Tx>)
    requires SplitReady(deps, fees, part, top, bottom)
    ensures Higher(Total(fees, top + bottom), Total(fees, bottom))
    ensures ValidPartition(Split(part, top, bottom))
  {
    TotalUnion(fees, top, bottom);
    Mediant(Total(fees, top), Total(fees, bottom));
  }

  /** Whatever else the top depends on has higher feerate than the old chunk, so the bottom, if the
      top depends on it, is the one to merge with. */
  lemma {:induction false} LowestIsBottom(deps: set<Dep>, fees: Fees, part: Partition, top: set<Tx>, bottom: set<Tx>, x: Tx, y: Tx)
    requires SplitReady(deps, fees, part, top, bottom) && x in top
    requires DependsOn(deps, top, bottom)
    requires UpStep(deps, fees, Split(part, top, bottom), x, y)
    ensures Split(part, top, bottom)[y] == bottom
  {
    var part1 := Split(part, top, bottom);
    SplitRates(deps, fees, part, top, bottom);
    var e :| e in deps && e.child in part1[x] && e.parent in part1[y];
    var b :| b in bottom;
    assert part1[b] == bottom && part1[x] == top;
    assert AtLeast(Total(fees, bottom), Total(fees, part1[y]));
    if y !in bottom {
      var fC, fB, fY := Total(fees, top + bottom), Total(fees, bottom), Total(fees, part[y]);
      assert part1[y] == part[y];
      assert part[e.child] == top + bottom;
      ExcessFlip(fB, fY);
      HigherTrans(fY, fC, fB);
      assert false;
    }
  }

  lemma {:induction false} TopNotStuck(deps: set<Dep>, fees: Fees, part: Partition, top: set<Tx>, bottom: set<Tx>, x: Tx)
    requires SplitReady(deps, fees, part, top, bottom) && x in top
    requires DependsOn(deps, top, bottom)
    ensures !UpStuck(deps, fees, Split(part, top, bottom), x)
  {
    var part1 := Split(part, top, bottom);
    SplitRates(deps, fees, part, top, bottom);
    HigherTrans(Total(fees, top), Total(fees, top + bottom), Total(fees, bottom));
    ExcessFlip(Total(fees, top), Total(fees, bottom));
    var b :| b in bottom;
    assert part1[b] == bottom && part1[x] == top;
  }

  lemma {:induction false} RejoinFirst(deps: set<Dep>, fees: Fees, part: Partition, top: set<Tx>, bottom: set<Tx>, x: Tx, y: Tx)
    requires SplitReady(deps, fees, part, top, bottom) && x in top
    requires DependsOn(deps, top, bottom)
    requires UpStep(deps, fees, Split(part, top, bottom), x, y)
    ensures RunEnd(Split(part, top, bottom), x, [y]) == part
  {
    LowestIsBottom(deps, fees, part, top, bottom, x, y);
    assert [y][..0] == [];
    MergeSplit(part, top, bottom);
  }

  lemma {:induction false} MergeSplit(part: Partition, top: set<Tx>, bottom: set<Tx>)
    requires forall t :: t in top + bottom ==> t in part && part[t] == top + bottom
    ensures Merge(Split(part, top, bottom), top, bottom) == part
  {
  }

  /** If the top depends on the bottom, the run first undoes the split and then stops. */
  lemma {:induction false} RejoinedRun(deps: set<Dep>, fees: Fees, part: Partition, top: set<Tx>, bottom: set<Tx>, x: Tx, ys: seq<Tx>)
    requires SplitReady(deps, fees, part, top, bottom) && x in top
    requires UpRun(deps, fees, Split(part, top, bottom), x, ys)
    requires DependsOn(deps, top, bottom)
    ensures RunEnd(Split(part, top, bottom), x, ys) == part
  {
    var part1 := Split(part, top, bottom);
    TopNotStuck(deps, fees, part, top, bottom, x);
    assert ys != [] && ys[..0] == [] && ys[..1] == [ys[0]];
    StepAt(deps, fees, part1, x, ys, 0);
    RejoinFirst(deps, fees, part, top, bottom, x, ys[0]);
    if |ys| > 1 {
      NoStep(deps, fees, part, x, ys[1]);
      StepAt(deps, fees, part1, x, ys, 1);
      assert false;
    }
    assert ys == [ys[0]];
  }

  /** The transactions in chunks of strictly higher feerate than `c`. */
  ghost function Above(fees: Fees, part: Partition, c: set<Tx>): set<Tx> {
    set t | t in part && Higher(Total(fees, part[t]), Total(fees, c))
  }

  ghost function Below(fees: Fees, part: Partition, c: set<Tx>): set<Tx> {
    set t | t in part && Higher(Total(fees, c), Total(fees, part[t]))
  }

  lemma {:induction false} BelowIsAboveFlipped(fees: Fees, part: Partition, c: set<Tx>)
    requires ValidPartition(part) && part.Keys <= fees.Keys && c != {} && c <= fees.Keys
    ensures Below(fees, part, c) == Above(Negated(fees), part, c)
  {
    forall t | t in part
      ensures t in Below(fees, part, c) <==> t in Above(Negated(fees), part, c)
    {
      HigherFlipped(fees, c, part[t]);
    }
  }

  /** In a topological state, the transactions above one of its chunks are settled. */
  lemma {:induction false} AboveSettled(deps: set<Dep>, fees: Fees, part: Partition, c: set<Tx>)
    requires ValidPartition(part) && DepsWithin(deps, part.Keys) && Topological(deps, fees, part)
    requires c in Chunks(part)
    ensures Settled(deps, fees, part, Above(fees, part, c)) && c !! Above(fees, part, c)
    ensures forall e :: e in deps && e.child in c ==> e.parent in c + Above(fees, part, c)
  {
    var g := Above(fees, part, c);
    forall e | e in deps && e.child in g
      ensures e.parent in g
    {
      if part[e.child] != part[e.parent] {
        HigherTrans(Total(fees, part[e.parent]), Total(fees, part[e.child]), Total(fees, c));
      }
    }
  }

  /** Settledness only looks at the chunks inside the set and at the dependencies into it. */
  lemma {:induction false} SettledFrame(deps: set<Dep>, fees: Fees, part: Partition, q: Partition, g: set<Tx>)
    requires Settled(deps, fees, part, g)
    requires forall t :: t in g ==> t in q && q[t] == part[t]
    ensures Settled(deps, fees, q, g)
  {
  }

  lemma {:induction false} TopReady(deps: set<Dep>, fees: Fees, part: Partition, top: set<Tx>, bottom: set<Tx>, x: Tx)
    requires SplitReady(deps, fees, part, top, bottom) && x in top
    requires !DependsOn(deps, top, bottom)
    ensures UpReady(deps, fees, Split(part, top, bottom), Above(fees, part, top + bottom), x)
    ensures Split(part, top, bottom)[x] == top
    ensures Above(fees, part, top + bottom) !! bottom
    ensures forall t :: t in Above(fees, part, top + bottom) ==>
              Split(part, top, bottom)[t] != {} && Higher(Total(fees, Split(part, top, bottom)[t]), Total(fees, top + bottom))
  {
    var part1 := Split(part, top, bottom);
    var g := Above(fees, part, top + bottom);
    SplitRates(deps, fees, part, top, bottom);
    assert part[x] == top + bottom;
    AboveSettled(deps, fees, part, top + bottom);
    SettledFrame(deps, fees, part, part1, g);
  }

  /** Every chunk made of sets above `c` is above `c`. */
  lemma {:induction false} RunChunkAbove(fees: Fees, part: Partition, g: set<Tx>, x: Tx, q: Partition, c: set<Tx>)
    requires c != {} && x in part && part[x] != {} && g <= part.Keys && RunShape(fees, part, g, x, q)
    requires Higher(Total(fees, part[x]), Total(fees, c))
    requires forall t :: t in g ==> part[t] != {} && Higher(Total(fees, part[t]), Total(fees, c))
    ensures forall t :: t in g + part[x] ==> t in q && Higher(Total(fees, q[t]), Total(fees, c))
  {
    assert Higher(Total(fees, q[x]), Total(fees, c)) by {
      if q[x] != part[x] {
        var u :| u in q[x] - part[x];
        HigherTrans(Total(fees, q[x]), Total(fees, part[u]), Total(fees, c));
      }
    }
    forall t | t in g + part[x] ensures t in q && (q[t] == q[x] || (t in g && q[t] == part[t])) {}
  }

  /** Everything above the chunk `c` of `part`, together with `s`, is settled above `c` in `q`. */
  ghost predicate Half(deps: set<Dep>, fees: Fees, part: Partition, c: set<Tx>, s: set<Tx>, q: Partition) {
    && Settled(deps, fees, q, Above(fees, part, c) + s)
    && forall t :: t in Above(fees, part, c) + s ==> Higher(Total(fees, q[t]), Total(fees, c))
  }

  /** The whole step, when the top does not depend on the bottom: both halves settle, on either
      side of the old chunk, and the rest of the partition is untouched. */
  ghost predicate Halves(deps: set<Dep>, fees: Fees, part: Partition, top: set<Tx>, bottom: set<Tx>, q: Partition) {
    var c := top + bottom;
    && ValidPartition(q) && q.Keys == part.Keys
    && Half(deps, fees, part, c, top, q)
    && Half(Flipped(deps), Negated(fees), part, c, bottom, q)
    && forall t :: t in part && t !in Above(fees, part, c) + Below(fees, part, c) + c ==> q[t] == part[t]
  }

  /** The upward half: the top's run ends with everything above the old chunk, and the top, settled. */
  lemma {:induction false} UpHalf(deps: set<Dep>, fees: Fees, part: Partition, top: set<Tx>, bottom: set<Tx>, x: Tx, ys: seq<Tx>)
    requires SplitReady(deps, fees, part, top, bottom) && x in top
    requires !DependsOn(deps, top, bottom)
    requires UpRun(deps, fees, Split(part, top, bottom), x, ys)
    ensures var q := RunEnd(Split(part, top, bottom), x, ys);
            && ValidPartition(q)
            && Half(deps, fees, part, top + bottom, top, q)
            && Outside(part, q, Above(fees, part, top + bottom) + top, bottom)
  {
    var part1 := Split(part, top, bottom);
    var g := Above(fees, part, top + bottom);
    TopReady(deps, fees, part, top, bottom, x);
    UpRunSettles(deps, fees, part1, g, x, ys);
    RunChunkAbove(fees, part1, g, x, RunEnd(part1, x, ys), top + bottom);
    RunOutside(fees, part, top, bottom, g, x, RunEnd(part1, x, ys));
  }

  lemma {:induction false} RunOutside(fees: Fees, part: Partition, top: set<Tx>, bottom: set<Tx>, g: set<Tx>, x: Tx, q: Partition)
    requires x in part && x in top && top !! bottom && bottom !! g
    requires RunShape(fees, Split(part, top, bottom), g, x, q)
    ensures Outside(part, q, g + top, bottom)
  {
  }

  /** Outside `changed`, `q` is `part`, with the `bottom` cut off. */
  ghost predicate Outside(part: Partition, q: Partition, changed: set<Tx>, bottom: set<Tx>) {
    && q.Keys == part.Keys
    && forall t :: t in part && t !in changed ==> q[t] == if t in bottom then bottom else part[t]
  }

  /** The downward half, as an upward half of the flipped cluster. */
  lemma {:induction false} BottomReady(deps: set<Dep>, fees: Fees, part: Partition, top: set<Tx>, bottom: set<Tx>, part2: Partition, y: Tx)
    requires SplitReady(deps, fees, part, top, bottom) && y in bottom
    requires !DependsOn(deps, top, bottom)
    requires ValidPartition(part2)
    requires Outside(part, part2, Above(fees, part, top + bottom) + top, bottom)
    ensures UpReady(Flipped(deps), Negated(fees), part2, Below(fees, part, top + bottom), y)
    ensures part2[y] == bottom
    ensures forall t :: t in Below(fees, part, top + bottom) ==> part2[t] == part[t]
  {
    var c := top + bottom;
    var fd, fn := Flipped(deps), Negated(fees);
    TopologicalFlipped(deps, fees, part);
    BelowIsAboveFlipped(fees, part, c);
    assert part[y] == c;
    AboveSettled(fd, fn, part, c);
    var h := Below(fees, part, c);
    SidesDisjoint(fees, part, top, bottom);
    SettledFrame(fd, fn, part, part2, h);
    forall e | e in fd && e.child in bottom ensures e.parent in bottom + h {
      assert FlippedDep(e) in deps;
    }
  }

  lemma {:induction false} SidesDisjoint(fees: Fees, part: Partition, top: set<Tx>, bottom: set<Tx>)
    requires forall t :: t in top + bottom ==> t in part && part[t] == top + bottom
    requires top !! bottom
    ensures Above(fees, part, top + bottom) + top !! Below(fees, part, top + bottom) + bottom
  {
    var c := top + bottom;
    forall t | t in Above(fees, part, c) + top ensures t !in Below(fees, part, c) + bottom {
      ExcessFlip(Total(fees, part[t]), Total(fees, c));
    }
  }

  lemma {:induction false} DownHalf(deps: set<Dep>, fees: Fees, part: Partition, top: set<Tx>, bottom: set<Tx>,
                 part2: Partition, y: Tx, zs: seq<Tx>)
    requires SplitReady(deps, fees, part, top, bottom) && y in bottom
    requires !DependsOn(deps, top, bottom)
    requires ValidPartition(part2)
    requires Outside(part, part2, Above(fees, part, top + bottom) + top, bottom)
    requires DownRun(deps, fees, part2, y, zs)
    ensures var q := RunEnd(part2, y, zs);
            && ValidPartition(q) && q.Keys == part2.Keys
            && Half(Flipped(deps), Negated(fees), part, top + bottom, bottom, q)
            && forall t :: t in part2 && t !in Below(fees, part, top + bottom) + bottom ==> q[t] == part2[t]
  {
    var c := top + bottom;
    var h := Below(fees, part, c);
    BottomReady(deps, fees, part, top, bottom, part2, y);
    SplitRates(deps, fees, part, top, bottom);
    BelowIsAboveFlipped(fees, part, c);
    HigherFlipped(fees, c, bottom);
    UpRunSettles(Flipped(deps), Negated(fees), part2, h, y, zs);
    RunChunkAbove(Negated(fees), part2, h, y, RunEnd(part2, y, zs), c);
  }

  lemma {:induction false} JoinHalves(deps: set<Dep>, fees: Fees, part: Partition, top: set<Tx>, bottom: set<Tx>,
                   part2: Partition, part3: Partition)
    requires forall t :: t in top + bottom ==> t in part && part[t] == top + bottom
    requires top !! bottom
    requires ValidPartition(part3) && part3.Keys == part2.Keys
    requires Half(deps, fees, part, top + bottom, top, part2)
    requires Half(Flipped(deps), Negated(fees), part, top + bottom, bottom, part3)
    requires Outside(part, part2, Above(fees, part, top + bottom) + top, bottom)
    requires forall t :: t in part2 && t !in Below(fees, part, top + bottom) + bottom ==> part3[t] == part2[t]
    ensures Halves(deps, fees, part, top, bottom, part3)
  {
    SidesDisjoint(fees, part, top, bottom);
    SettledFrame(deps, fees, part2, part3, Above(fees, part, top + bottom) + top);
  }

  lemma {:induction false} BothHalves(deps: set<Dep>, fees: Fees, part: Partition, top: set<Tx>, bottom: set<Tx>,
                   x: Tx, ys: seq<Tx>, y: Tx, zs: seq<Tx>)
    requires SplitReady(deps, fees, part, top, bottom) && x in top && y in bottom
    requires !DependsOn(deps, top, bottom)
    requires UpRun(deps, fees, Split(part, top, bottom), x, ys)
    requires DownRun(deps, fees, RunEnd(Split(part, top, bottom), x, ys), y, zs)
    ensures Halves(deps, fees, part, top, bottom, RunEnd(RunEnd(Split(part, top, bottom), x, ys), y, zs))
  {
    var part2 := RunEnd(Split(part, top, bottom), x, ys);
    UpHalf(deps, fees, part, top, bottom, x, ys);
    DownHalf(deps, fees, part, top, bottom, part2, y, zs);
    JoinHalves(deps, fees, part, top, bottom, part2, RunEnd(part2, y, zs));
  }

  /** A chunk that is neither above nor below `c` has the same feerate. */
  lemma {:induction false} Between(fees: Fees, a: set<Tx>, c: set<Tx>, b: set<Tx>)
    requires a != {} && b != {} && c != {}
    requires Higher(Total(fees, a), Total(fees, c)) || !Higher(Total(fees, c), Total(fees, a))
    requires Higher(Total(fees, c), Total(fees, b)) || !Higher(Total(fees, b), Total(fees, c))
    requires Higher(Total(fees, a), Total(fees, c)) || Higher(Total(fees, c), Total(fees, b))
    ensures Higher(Total(fees, a), Total(fees, b))
  {
    ExcessFlip(Total(fees, c), Total(fees, a));
    ExcessFlip(Total(fees, b), Total(fees, c));
    HigherTrans(Total(fees, a), Total(fees, c), Total(fees, b));
  }

  lemma {:induction false} HalvesTopological(deps: set<Dep>, fees: Fees, part: Partition, top: set<Tx>, bottom: set<Tx>, q: Partition)
    requires SplitReady(deps, fees, part, top, bottom)
    requires Halves(deps, fees, part, top, bottom, q)
    ensures Topological(deps, fees, q)
  {
    var c := top + bottom;
    var g, h := Above(fees, part, c), Below(fees, part, c);
    forall e | e in deps && e.child in q
      ensures e.parent in q
      ensures q[e.child] != q[e.parent] ==> Higher(Total(fees, q[e.parent]), Total(fees, q[e.child]))
    {
      if q[e.child] != q[e.parent] && e.child !in g + top {
        if e.parent in h + bottom {
          LowerHalfDep(deps, fees, part, top, bottom, q, e);
        } else {
          MiddleDep(deps, fees, part, top, bottom, q, e);
        }
      }
    }
  }

  lemma {:induction false} LowerHalfDep(deps: set<Dep>, fees: Fees, part: Partition, top: set<Tx>, bottom: set<Tx>, q: Partition, e: Dep)
    requires SplitReady(deps, fees, part, top, bottom)
    requires Halves(deps, fees, part, top, bottom, q)
    requires e in deps && e.parent in Below(fees, part, top + bottom) + bottom
    requires e.child in q && e.parent in q && q[e.child] != q[e.parent]
    ensures Higher(Total(fees, q[e.parent]), Total(fees, q[e.child]))
  {
    BelowIsAboveFlipped(fees, part, top + bottom);
    var d := FlippedDep(e);
    assert d in Flipped(deps) && d.child == e.parent;
    HigherFlipped(fees, q[e.parent], q[e.child]);
  }

  lemma {:induction false} MiddleDep(deps: set<Dep>, fees: Fees, part: Partition, top: set<Tx>, bottom: set<Tx>, q: Partition, e: Dep)
    requires SplitReady(deps, fees, part, top, bottom)
    requires Halves(deps, fees, part, top, bottom, q)
    requires e in deps && e.child in q && e.parent in q && q[e.child] != q[e.parent]
    requires e.child !in Above(fees, part, top + bottom) + top
    requires e.parent !in Below(fees, part, top + bottom) + bottom
    ensures Higher(Total(fees, q[e.parent]), Total(fees, q[e.child]))
  {
    var c := top + bottom;
    var g, h := Above(fees, part, c), Below(fees, part, c);
    LowerHalf(deps, fees, part, top, bottom, q);
    if e.child in h + bottom || e.parent in g + top {
      Between(fees, q[e.parent], c, q[e.child]);
    } else {
      assert q[e.child] == part[e.child] && q[e.parent] == part[e.parent];
    }
  }

  lemma {:induction false} LowerHalf(deps: set<Dep>, fees: Fees, part: Partition, top: set<Tx>, bottom: set<Tx>, q: Partition)
    requires SplitReady(deps, fees, part, top, bottom)
    requires Halves(deps, fees, part, top, bottom, q)
    ensures forall t :: t in Below(fees, part, top + bottom) + bottom ==>
              t in q && Higher(Total(fees, top + bottom), Total(fees, q[t]))
  {
    var c := top + bottom;
    BelowIsAboveFlipped(fees, part, c);
    forall t | t in Below(fees, part, c) + bottom
      ensures t in q && Higher(Total(fees, c), Total(fees, q[t]))
    {
      HigherFlipped(fees, c, q[t]);
    }
  }

  /** At feerates from that of `c` on, only what lies above `c` counts. */
  lemma {:induction false} OnlyAboveCounts(fees: Fees, part: Partition, c: set<Tx>, r: FeeFrac)
    requires ValidPartition(part) && c != {} && r.size > 0 && AtLeast(r, Total(fees, c))
    ensures Potential(fees, Chunks(part), r) == Potential(fees, ChunksIn(part, Above(fees, part, c)), r)
  {
    var above := ChunksIn(part, Above(fees, part, c));
    var rest := Chunks(part) - above;
    forall d | d in rest ensures SetExcess(fees, d, r) <= 0 {
      var t :| t in part && part[t] == d;
      assert t !in Above(fees, part, c);
      ExcessOfTotal(fees, d, r);
      ExcessFlip(Total(fees, d), Total(fees, c));
      HigherTrans(r, Total(fees, c), Total(fees, d));
      ExcessFlip(Total(fees, d), r);
    }
    assert Chunks(part) == above + rest;
    PotentialUnion(fees, above, rest, r);
    PotentialZero(fees, rest, r);
  }

  /** The upward half of the comparison of diagrams. */
  lemma {:induction false} UpperPotential(deps: set<Dep>, fees: Fees, part: Partition, c: set<Tx>, s: set<Tx>, part1: Partition,
                       x: Tx, ys: seq<Tx>, q: Partition, r: FeeFrac)
    requires ValidPartition(part) && c != {} && r.size > 0 && AtLeast(r, Total(fees, c))
    requires UpReady(deps, fees, part1, Above(fees, part, c), x) && part1[x] == s
    requires UpChain(deps, fees, part1, x, ys)
    requires forall t :: t in Above(fees, part, c) ==> part1[t] == part[t]
    requires forall t :: t in Above(fees, part, c) + s ==> t in q && RunEnd(part1, x, ys)[t] == q[t]
    ensures Potential(fees, Chunks(q), r) >= Potential(fees, Chunks(part), r)
  {
    var g := Above(fees, part, c);
    OnlyAboveCounts(fees, part, c, r);
    UpRunPotential(deps, fees, part1, g, x, ys, r);
    assert ChunksIn(part1, g) == ChunksIn(part, g);
    assert ChunksIn(RunEnd(part1, x, ys), g + s) == ChunksIn(q, g + s);
    PotentialSubset(fees, ChunksIn(q, g + s), Chunks(q), r);
  }

  /** What a partition is worth below `r` differs from what it is worth above by a constant. */
  lemma {:induction false} FlippedPotential(fees: Fees, part: Partition, q: Partition, r: FeeFrac)
    requires ValidPartition(part) && ValidPartition(q) && part.Keys == q.Keys <= fees.Keys
    requires Potential(Negated(fees), Chunks(q), r.Negated()) >= Potential(Negated(fees), Chunks(part), r.Negated())
    ensures Potential(fees, Chunks(q), r) >= Potential(fees, Chunks(part), r)
  {
    ChunksDisjoint(part);
    ChunksDisjoint(q);
    PotentialBalance(fees, Chunks(part), r);
    PotentialBalance(fees, Chunks(q), r);
  }

  /** An improvement step never lowers the feerate diagram anywhere (`Improve`). */
  lemma {:induction false} ImprovePotential(deps: set<Dep>, fees: Fees, part: Partition, top: set<Tx>, bottom: set<Tx>,
                         x: Tx, ys: seq<Tx>, y: Tx, zs: seq<Tx>, r: FeeFrac)
    requires SplitReady(deps, fees, part, top, bottom) && x in top && y in bottom && r.size > 0
    requires !DependsOn(deps, top, bottom)
    requires UpRun(deps, fees, Split(part, top, bottom), x, ys)
    requires DownRun(deps, fees, RunEnd(Split(part, top, bottom), x, ys), y, zs)
    ensures Potential(fees, Chunks(RunEnd(RunEnd(Split(part, top, bottom), x, ys), y, zs)), r)
         >= Potential(fees, Chunks(part), r)
  {
    var c := top + bottom;
    var part1 := Split(part, top, bottom);
    var part2 := RunEnd(part1, x, ys);
    var part3 := RunEnd(part2, y, zs);
    UpHalf(deps, fees, part, top, bottom, x, ys);
    DownHalf(deps, fees, part, top, bottom, part2, y, zs);
    if AtLeast(r, Total(fees, c)) {
      TopReady(deps, fees, part, top, bottom, x);
      SidesDisjoint(fees, part, top, bottom);
      UpperPotential(deps, fees, part, c, top, part1, x, ys, part3, r);
    } else {
      LowerPotential(deps, fees, part, top, bottom, part2, y, zs, r);
    }
  }

  lemma {:induction false} LowerPotential(deps: set<Dep>, fees: Fees, part: Partition, top: set<Tx>, bottom: set<Tx>,
                                          part2: Partition, y: Tx, zs: seq<Tx>, r: FeeFrac)
    requires SplitReady(deps, fees, part, top, bottom) && y in bottom && r.size > 0
    requires !DependsOn(deps, top, bottom) && !AtLeast(r, Total(fees, top + bottom))
    requires ValidPartition(part2)
    requires Outside(part, part2, Above(fees, part, top + bottom) + top, bottom)
    requires DownRun(deps, fees, part2, y, zs)
    ensures Potential(fees, Chunks(RunEnd(part2, y, zs)), r) >= Potential(fees, Chunks(part), r)
  {
    var c := top + bottom;
    DownHalf(deps, fees, part, top, bottom, part2, y, zs);
    BottomReady(deps, fees, part, top, bottom, part2, y);
    BelowIsAboveFlipped(fees, part, c);
    TotalNegated(fees, c);
    ExcessNegated(r, Total(fees, c));
    UpperPotential(Flipped(deps), Negated(fees), part, c, bottom, part2, y, zs, RunEnd(part2, y, zs), r.Negated());
    FlippedPotential(fees, part, RunEnd(part2, y, zs), r);
  }

  /** `Improve` as a whole: from a topological state, splitting off a higher-feerate top and running
      both merge sequences yields a topological state with a diagram that is nowhere lower. */
  lemma {:induction false} ImproveStep(deps: set<Dep>, fees: Fees, part: Partition, top: set<Tx>, bottom: set<Tx>,
                    x: Tx, ys: seq<Tx>, y: Tx, zs: seq<Tx>)
    requires SplitReady(deps, fees, part, top, bottom) && x in top && y in bottom
    requires UpRun(deps, fees, Split(part, top, bottom), x, ys)
    requires DownRun(deps, fees, RunEnd(Split(part, top, bottom), x, ys), y, zs)
    ensures var q := RunEnd(RunEnd(Split(part, top, bottom), x, ys), y, zs);
            && ValidPartition(q) && q.Keys == part.Keys && Topological(deps, fees, q)
            && forall r: FeeFrac :: r.size > 0 ==>
                 Potential(fees, Chunks(q), r) >= Potential(fees, Chunks(part), r)
  {
    if DependsOn(deps, top, bottom) {
      RejoinedRun(deps, fees, part, top, bottom, x, ys);
      RejoinedDown(deps, fees, part, y, zs);
    } else {
      BothHalves(deps, fees, part, top, bottom, x, ys, y, zs);
      HalvesTopological(deps, fees, part, top, bottom, RunEnd(RunEnd(Split(part, top, bottom), x, ys), y, zs));
      forall r: FeeFrac | r.size > 0
        ensures Potential(fees, Chunks(RunEnd(RunEnd(Split(part, top, bottom), x, ys), y, zs)), r)
             >= Potential(fees, Chunks(part), r)
      {
        ImprovePotential(deps, fees, part, top, bottom, x, ys, y, zs, r);
      }
    }
  }

  lemma {:induction false} RejoinedDown(deps: set<Dep>, fees: Fees, part: Partition, y: Tx, zs: seq<Tx>)
    requires ValidPartition(part) && part.Keys <= fees.Keys
    requires DepsWithin(deps, part.Keys) && Topological(deps, fees, part)
    requires DownRun(deps, fees, part, y, zs)
    ensures zs == []
  {
    TopologicalFlipped(deps, fees, part);
    if zs != [] {
      assert zs[..0] == [];
      NoStep(Flipped(deps), Negated(fees), part, y, zs[0]);
      StepAt(Flipped(deps), Negated(fees), part, y, zs, 0);
      assert false;
    }
  }
}
