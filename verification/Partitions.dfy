/** Partitions of a cluster into chunks, and what upward merge runs do to them. A run merges the
    chunk of one transaction, again and again, with the lowest-feerate chunk it depends on. Downward
    runs are upward runs of the flipped cluster: dependencies reversed, fees negated. */
module Partitions {
  import opened FeeFracs
  import opened TxSets

  datatype Dep = Dep(parent: Tx, child: Tx)

  /** Maps every transaction to the chunk it is in. */
  type Partition = map<Tx, set<Tx>>

  function FlippedDep(e: Dep): Dep {
    Dep(e.child, e.parent)
  }

  ghost function Flipped(deps: set<Dep>): (r: set<Dep>)
    ensures forall e :: e in r <==> FlippedDep(e) in deps
  {
    var r := set e | e in deps :: FlippedDep(e);
    assert forall e :: FlippedDep(e) in deps ==> e == FlippedDep(FlippedDep(e));
    r
  }

  ghost predicate ValidPartition(part: Partition) {
    && (forall t :: t in part ==> t in part[t])
    && forall t, u {:trigger u in part[t]} :: t in part && u in part[t] ==> u in part && part[u] == part[t]
  }

  ghost predicate DepsWithin(deps: set<Dep>, s: set<Tx>) {
    forall e :: e in deps ==> e.parent in s && e.child in s
  }

  /** The chunks that hold the transactions of `g`. */
  ghost function ChunksIn(part: Partition, g: set<Tx>): set<set<Tx>> {
    set t | t in g && t in part :: part[t]
  }

  ghost function Chunks(part: Partition): set<set<Tx>> {
    ChunksIn(part, part.Keys)
  }

  ghost function Merge(part: Partition, a: set<Tx>, b: set<Tx>): Partition {
    map t | t in part :: if t in a + b then a + b else part[t]
  }

  ghost predicate DependsOn(deps: set<Dep>, c: set<Tx>, d: set<Tx>) {
    exists e :: e in deps && e.child in c && e.parent in d
  }

  /** `g` is a union of chunks, closed under taking parents, in which every dependency between two
      chunks leads to a strictly higher-feerate chunk. */
  ghost predicate Settled(deps: set<Dep>, fees: Fees, part: Partition, g: set<Tx>) {
    && (forall t :: t in g ==> t in part && part[t] <= g)
    && forall e :: e in deps && e.child in g ==>
         e.parent in g &&
         (part[e.child] != part[e.parent] ==> Higher(Total(fees, part[e.parent]), Total(fees, part[e.child])))
  }

  /** The documentation's "topological" quality of a state. */
  ghost predicate Topological(deps: set<Dep>, fees: Fees, part: Partition) {
    Settled(deps, fees, part, part.Keys)
  }

  /** `y`'s chunk is a lowest-feerate chunk among those that `x`'s chunk depends on, and it has no
      higher feerate than `x`'s chunk. */
  ghost predicate UpStep(deps: set<Dep>, fees: Fees, part: Partition, x: Tx, y: Tx) {
    && x in part && y in part && part[x] != part[y]
    && DependsOn(deps, part[x], part[y])
    && AtLeast(Total(fees, part[x]), Total(fees, part[y]))
    && forall z :: z in part && part[z] != part[x] && DependsOn(deps, part[x], part[z]) ==>
         AtLeast(Total(fees, part[z]), Total(fees, part[y]))
  }

  /** No chunk that `x`'s chunk depends on has lower or equal feerate. */
  ghost predicate UpStuck(deps: set<Dep>, fees: Fees, part: Partition, x: Tx) {
    && x in part
    && forall z :: z in part && part[z] != part[x] && DependsOn(deps, part[x], part[z]) ==>
         Higher(Total(fees, part[z]), Total(fees, part[x]))
  }

  /** The partition reached by merging `x`'s chunk with the chunks of `ys`, one after the other. */
  ghost function RunEnd(part: Partition, x: Tx, ys: seq<Tx>): (r: Partition)
    ensures r.Keys == part.Keys
  {
    if ys == [] then part else
      var q := RunEnd(part, x, ys[..|ys| - 1]);
      var y := ys[|ys| - 1];
      if x in q && y in q then Merge(q, q[x], q[y]) else q
  }

  ghost predicate UpChain(deps: set<Dep>, fees: Fees, part: Partition, x: Tx, ys: seq<Tx>) {
    ys == [] ||
    (UpChain(deps, fees, part, x, ys[..|ys| - 1]) &&
     UpStep(deps, fees, RunEnd(part, x, ys[..|ys| - 1]), x, ys[|ys| - 1]))
  }

  /** A maximal upward run. */
  ghost predicate UpRun(deps: set<Dep>, fees: Fees, part: Partition, x: Tx, ys: seq<Tx>) {
    UpChain(deps, fees, part, x, ys) && UpStuck(deps, fees, RunEnd(part, x, ys), x)
  }

  lemma {:induction false} MergeValid(part: Partition, x: Tx, y: Tx)
    requires ValidPartition(part) && x in part && y in part
    ensures ValidPartition(Merge(part, part[x], part[y]))
  {
  }

  /** Everything an upward run of `x`'s chunk into `g` needs at its start. */
  ghost predicate UpReady(deps: set<Dep>, fees: Fees, part: Partition, g: set<Tx>, x: Tx) {
    && ValidPartition(part) && DepsWithin(deps, part.Keys)
    && Settled(deps, fees, part, g)
    && x in part && part[x] !! g
    && forall e :: e in deps && e.child in part[x] ==> e.parent in part[x] + g
  }

  /** `q` is `part` with some chunks of `g`, none of higher feerate than the result, merged into the
      chunk of `x`. */
  ghost predicate RunShape(fees: Fees, part: Partition, g: set<Tx>, x: Tx, q: Partition)
    requires x in part
  {
    && ValidPartition(q) && q.Keys == part.Keys
    && part[x] <= q[x] <= part[x] + g
    && (forall t :: t in part && t !in q[x] ==> q[t] == part[t])
    && (forall t :: t in part && t in q[x] ==> part[t] <= q[x])
    && (forall t :: t in q[x] - part[x] ==> AtLeast(Total(fees, q[x]), Total(fees, part[t])))
  }

  /** What holds at every point `q` of an upward run that started at `part`. */
  ghost predicate UpInv(deps: set<Dep>, fees: Fees, part: Partition, g: set<Tx>, x: Tx, q: Partition)
    requires x in part
  {
    && RunShape(fees, part, g, x, q)
    && (forall e, t :: e in deps && e.child in q[x] && e.parent in part && e.parent !in q[x] && t in q[x] - part[x] ==>
          AtLeast(Total(fees, part[e.parent]), Total(fees, part[t])))
  }

  /** The chunk picked by a step of the run is an untouched chunk of `g`. */
  lemma {:induction false} UpStepTarget(deps: set<Dep>, fees: Fees, part: Partition, g: set<Tx>, x: Tx, q: Partition, y: Tx)
    requires UpReady(deps, fees, part, g, x)
    requires UpInv(deps, fees, part, g, x, q)
    requires UpStep(deps, fees, q, x, y)
    ensures q[y] == part[y] && part[y] <= g && part[y] !! q[x]
    ensures forall t :: t in q[x] - part[x] ==> AtLeast(Total(fees, part[y]), Total(fees, part[t]))
  {
    var e :| e in deps && e.child in q[x] && e.parent in q[y];
    assert e.parent !in q[x];
    assert e.parent in g;
    assert q[e.parent] == part[e.parent];
  }

  /** What the merged chunk depends on has at least the feerate of the chunk that was picked. */
  lemma {:induction false} UpStepParent(deps: set<Dep>, fees: Fees, part: Partition, g: set<Tx>, x: Tx, q: Partition, y: Tx, e: Dep)
    requires UpReady(deps, fees, part, g, x) && UpInv(deps, fees, part, g, x, q) && UpStep(deps, fees, q, x, y)
    requires e in deps && e.child in q[x] + part[y] && e.parent in part && e.parent !in q[x] + part[y]
    ensures AtLeast(Total(fees, part[e.parent]), Total(fees, part[y]))
  {
    UpStepTarget(deps, fees, part, g, x, q, y);
    if e.child in q[x] {
      assert q[e.parent] == part[e.parent];
      assert DependsOn(deps, q[x], q[e.parent]);
    } else {
      assert part[e.child] == part[y];
    }
  }

  lemma {:induction false} UpInvStep(deps: set<Dep>, fees: Fees, part: Partition, g: set<Tx>, x: Tx, q: Partition, y: Tx)
    requires UpReady(deps, fees, part, g, x)
    requires UpInv(deps, fees, part, g, x, q)
    requires UpStep(deps, fees, q, x, y)
    ensures UpInv(deps, fees, part, g, x, Merge(q, q[x], q[y]))
  {
    UpStepTarget(deps, fees, part, g, x, q, y);
    MergeValid(q, x, y);
    var T, P := q[x], part[y];
    var q' := Merge(q, T, P);
    var fT, fP, fN := Total(fees, T), Total(fees, P), Total(fees, T + P);
    assert q'[x] == T + P;
    TotalUnion(fees, T, P);
    Mediant(fT, fP);
    assert AtLeast(fN, fP);
    forall t | t in q'[x] - part[x]
      ensures AtLeast(fN, Total(fees, part[t]))
      ensures AtLeast(fP, Total(fees, part[t]))
    {
      if t in P {
        assert part[t] == P;
      } else {
        HigherTrans(fN, fP, Total(fees, part[t]));
      }
    }
    forall e, t | e in deps && e.child in q'[x] && e.parent in part && e.parent !in q'[x] && t in q'[x] - part[x]
      ensures AtLeast(Total(fees, part[e.parent]), Total(fees, part[t]))
    {
      UpStepParent(deps, fees, part, g, x, q, y, e);
      HigherTrans(Total(fees, part[e.parent]), fP, Total(fees, part[t]));
    }
  }

  lemma {:induction false} UpChainInv(deps: set<Dep>, fees: Fees, part: Partition, g: set<Tx>, x: Tx, ys: seq<Tx>)
    requires UpReady(deps, fees, part, g, x)
    requires UpChain(deps, fees, part, x, ys)
    ensures UpInv(deps, fees, part, g, x, RunEnd(part, x, ys))
    decreases |ys|
  {
    if ys == [] {
      assert RunEnd(part, x, ys) == part;
    } else {
      UpChainInv(deps, fees, part, g, x, ys[..|ys| - 1]);
      UpInvStep(deps, fees, part, g, x, RunEnd(part, x, ys[..|ys| - 1]), ys[|ys| - 1]);
    }
  }

  /** One merge of `T` with `P`, not higher than `T`, loses none of the worth that `P` and the sets
      merged before it brought along, if these are not higher than `P`. */
  lemma {:induction false} WorthStep(fees: Fees, T: set<Tx>, P: set<Tx>, merged: set<set<Tx>>, r: FeeFrac)
    requires T !! P && T != {} && P != {} && r.size > 0
    requires AtLeast(Total(fees, T), Total(fees, P))
    requires forall c :: c in merged ==> c != {} && AtLeast(Total(fees, P), Total(fees, c))
    requires Worth(fees, T, r) >= Potential(fees, merged, r)
    ensures Worth(fees, T + P, r) >= Potential(fees, merged, r) + Worth(fees, P, r)
  {
    var fT, fP := Total(fees, T), Total(fees, P);
    ExcessUnion(fees, T, P, r);
    ExcessOfTotal(fees, T, r);
    ExcessOfTotal(fees, P, r);
    if Higher(fP, r) {
      HigherTrans(fT, fP, r);
    } else {
      forall c | c in merged
        ensures SetExcess(fees, c, r) <= 0
      {
        ExcessOfTotal(fees, c, r);
        LowerTrans(fP, Total(fees, c), r);
      }
      PotentialZero(fees, merged, r);
    }
  }

  /** The chunks swallowed so far grow by one with every step. */
  lemma {:induction false} SwallowOne(part: Partition, x: Tx, T: set<Tx>, y: Tx)
    requires ValidPartition(part) && x in part && y in part
    requires part[x] <= T && part[y] !! T
    ensures ChunksIn(part, T + part[y] - part[x]) == ChunksIn(part, T - part[x]) + {part[y]}
    ensures part[y] !in ChunksIn(part, T - part[x])
  {
    assert forall t :: t in part[y] ==> part[t] == part[y];
    assert y in T + part[y] - part[x];
  }

  /** A run trades the swallowed chunks for the run's chunk and leaves the rest of `g` alone. */
  lemma {:induction false} RunFamilies(part: Partition, g: set<Tx>, x: Tx, q: Partition)
    requires ValidPartition(part) && ValidPartition(q) && q.Keys == part.Keys && x in part
    requires part[x] !! g && g <= part.Keys
    requires part[x] <= q[x] <= part[x] + g
    requires forall t :: t in part && t !in q[x] ==> q[t] == part[t]
    requires forall t :: t in part && t in q[x] ==> part[t] <= q[x]
    ensures ChunksIn(part, g) == ChunksIn(part, q[x] - part[x]) + ChunksIn(part, g - q[x])
    ensures ChunksIn(part, q[x] - part[x]) !! ChunksIn(part, g - q[x])
    ensures ChunksIn(q, g + part[x]) == ChunksIn(part, g - q[x]) + {q[x]}
    ensures q[x] !in ChunksIn(part, g - q[x])
  {
    assert g == (q[x] - part[x]) + (g - q[x]);
    assert forall t :: t in g - q[x] ==> t !in q[x] && t in part[t];
    assert forall t :: t in q[x] ==> q[t] == q[x];
    assert ChunksIn(part, g - q[x]) == ChunksIn(q, g - q[x]);
    assert x in q[x];
  }

  /** The run's chunk is worth at least as much as all the chunks it swallowed, at every feerate. */
  lemma {:induction false} UpChainWorth(deps: set<Dep>, fees: Fees, part: Partition, g: set<Tx>, x: Tx,
                                        ys: seq<Tx>, r: FeeFrac)
    requires UpReady(deps, fees, part, g, x) && r.size > 0
    requires UpChain(deps, fees, part, x, ys)
    ensures var q := RunEnd(part, x, ys);
            x in q && Worth(fees, q[x], r) >= Potential(fees, ChunksIn(part, q[x] - part[x]), r)
    decreases |ys|
  {
    if ys == [] {
      assert part[x] - part[x] == {};
      assert ChunksIn(part, {}) == {};
    } else {
      var y := ys[|ys| - 1];
      var q := RunEnd(part, x, ys[..|ys| - 1]);
      UpChainWorth(deps, fees, part, g, x, ys[..|ys| - 1], r);
      UpChainInv(deps, fees, part, g, x, ys[..|ys| - 1]);
      UpStepTarget(deps, fees, part, g, x, q, y);
      var T, P := q[x], part[y];
      var merged := ChunksIn(part, T - part[x]);
      forall c | c in merged ensures c != {} && AtLeast(Total(fees, P), Total(fees, c)) {
        var t :| t in T - part[x] && t in part && part[t] == c;
      }
      WorthStep(fees, T, P, merged, r);
      SwallowOne(part, x, T, y);
      PotentialAdd(fees, merged, P, r);
    }
  }

  /** The end of a maximal upward run: `g` grows by the starting chunk and stays settled. */
  lemma {:induction false} UpRunSettles(deps: set<Dep>, fees: Fees, part: Partition, g: set<Tx>, x: Tx, ys: seq<Tx>)
    requires UpReady(deps, fees, part, g, x)
    requires UpRun(deps, fees, part, x, ys)
    ensures RunShape(fees, part, g, x, RunEnd(part, x, ys))
    ensures Settled(deps, fees, RunEnd(part, x, ys), g + part[x])
  {
    UpChainInv(deps, fees, part, g, x, ys);
    var q := RunEnd(part, x, ys);
    forall t | t in g + part[x] ensures t in q && q[t] <= g + part[x] {
      if t in q[x] { assert q[t] == q[x]; } else { assert q[t] == part[t]; }
    }
    forall e | e in deps && e.child in g + part[x]
      ensures e.parent in g + part[x]
      ensures q[e.child] != q[e.parent] ==> Higher(Total(fees, q[e.parent]), Total(fees, q[e.child]))
    {
      if q[e.child] != q[e.parent] {
        if e.child in q[x] {
          assert q[e.child] == q[x];
          assert DependsOn(deps, q[x], q[e.parent]);
        } else if e.parent in q[x] {
          assert q[e.parent] == q[x];
          assert e.child in g && q[e.child] == part[e.child];
          assert e.parent in g && e.parent !in part[x];
          assert part[e.child] != part[e.parent];
          HigherTrans(Total(fees, q[x]), Total(fees, part[e.parent]), Total(fees, part[e.child]));
        } else {
          assert q[e.child] == part[e.child] && q[e.parent] == part[e.parent];
        }
      }
    }
  }

  /** And the diagram over the grown set is nowhere below the diagram over `g` before the run. */
  lemma {:induction false} UpRunPotential(deps: set<Dep>, fees: Fees, part: Partition, g: set<Tx>, x: Tx, ys: seq<Tx>, r: FeeFrac)
    requires UpReady(deps, fees, part, g, x) && r.size > 0
    requires UpChain(deps, fees, part, x, ys)
    ensures Potential(fees, ChunksIn(RunEnd(part, x, ys), g + part[x]), r) >= Potential(fees, ChunksIn(part, g), r)
  {
    UpChainInv(deps, fees, part, g, x, ys);
    UpChainWorth(deps, fees, part, g, x, ys, r);
    var q := RunEnd(part, x, ys);
    var merged := ChunksIn(part, q[x] - part[x]);
    var rest := ChunksIn(part, g - q[x]);
    RunFamilies(part, g, x, q);
    PotentialUnion(fees, merged, rest, r);
    PotentialAdd(fees, rest, q[x], r);
  }

  lemma {:induction false} ChunksDisjoint(part: Partition)
    requires ValidPartition(part)
    ensures Disjoint(Chunks(part)) && Flat(Chunks(part)) == part.Keys
  {
    assert forall t :: t in part ==> part[t] in Chunks(part) && t in part[t];
  }
}
