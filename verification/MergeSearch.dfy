/** The read-only parts of a merge step: finding the chunk to merge with, and picking a dependency
    between two chunks. Random draws are arbitrary values, so the results hold for every draw. */
module MergeSearch {
  import opened FeeFracs
  import opened TxSets
  import opened Partitions
  import opened Improvement
  import opened Forests
  import opened ForestStates
  import opened Chunking
  import opened ForestData
  import opened ForestGraphs

  /** Random tiebreaks are 64-bit values. */
  const UINT64: nat := 0x1_0000_0000_0000_0000

  ghost function DepSet(deps: seq<Dep>): set<Dep> {
    set e | e in deps
  }

  /** A downward merge is an upward merge of the flipped cluster. */
  ghost function OrientedDeps(down: bool, deps: seq<Dep>): set<Dep> {
    if down then Flipped(DepSet(deps)) else DepSet(deps)
  }

  ghost function OrientedFees(down: bool, fees: Fees): Fees {
    if down then Negated(fees) else fees
  }

  /** `FeeRateCompare` in the direction of the merge. */
  function OrientedExcess(down: bool, a: FeeFrac, b: FeeFrac): int {
    if down then Excess(b, a) else Excess(a, b)
  }

  lemma {:induction false} OrientedTotals(down: bool, fees: Fees, a: set<Tx>, b: set<Tx>)
    requires a != {} && b != {} && a + b <= fees.Keys
    ensures Excess(Total(OrientedFees(down, fees), a), Total(OrientedFees(down, fees), b))
         == OrientedExcess(down, Total(fees, a), Total(fees, b))
  {
    if down {
      TotalNegated(fees, a);
      TotalNegated(fees, b);
      ExcessNegated(Total(fees, a), Total(fees, b));
      ExcessFlip(Total(fees, a), Total(fees, b));
    }
  }

  /** The transactions one dependency away, in the direction of the merge. */
  function Neighbours(g: Graph, down: bool, t: Tx): set<Tx>
    requires t in g.parents && t in g.children
  {
    if down then g.children[t] else g.parents[t]
  }

  lemma {:induction false} NeighbourDeps(g: Graph, down: bool, t: Tx)
    requires GraphOk(g) && t in g.txs
    ensures t in g.parents && t in g.children
    ensures forall u :: u in Neighbours(g, down, t) <==> Dep(u, t) in OrientedDeps(down, g.deps)
    ensures Neighbours(g, down, t) <= g.txs
  {
    assert ParentsAt(g.deps, g.parents, t) && ChildrenAt(g.deps, g.children, t);
    forall u | u in Neighbours(g, down, t) ensures u in g.txs {
      if down {
        assert Dep(t, u) in g.deps;
      } else {
        assert Dep(u, t) in g.deps;
      }
    }
  }

  /** What is known about a chunk `c` that was compared, when `best` is the candidate so far. */
  ghost predicate Compared(down: bool, fees: Fees, found: bool, best: set<Tx>, c: set<Tx>) {
    var x := OrientedExcess(down, Total(fees, c), Total(fees, best));
    if found then x >= 0 else x > 0
  }

  /** `best` is the candidate: the start chunk itself while nothing is found, and otherwise a chunk
      that the start chunk depends on, not higher than it. */
  ghost predicate Candidate(g: Graph, fees: Fees, f: Forest, down: bool, x: Tx, found: bool, y: Tx) {
    && x in f.part && y in f.part
    && (!found ==> f.part[y] == f.part[x])
    && (found ==> f.part[y] != f.part[x] && DependsOn(OrientedDeps(down, g.deps), f.part[x], f.part[y]))
    && OrientedExcess(down, Total(fees, f.part[x]), Total(fees, f.part[y])) >= 0
  }

  /** Every transaction of `seen` is in a chunk that was compared. */
  ghost predicate AllCompared(fees: Fees, f: Forest, down: bool, found: bool, y: Tx, seen: set<Tx>)
    requires y in f.part
  {
    forall u :: u in seen ==> u in f.part && Compared(down, fees, found, f.part[y], f.part[u])
  }

  /** The search variables: the candidate's representative and its feerate. */
  ghost predicate Searching(g: Graph, s: State, fees: Fees, f: Forest, down: bool, rep: Tx, found: bool, other: Tx,
                            best: FeeFrac, tiebreak: nat, seen: set<Tx>) {
    && other in g.txs && other in s.chunkRep && s.chunkRep[other] == other
    && Candidate(g, fees, f, down, rep, found, other) && best == Total(fees, f.part[other])
    && (!found ==> tiebreak == 0)
    && AllCompared(fees, f, down, found, other, seen)
  }

  /** Looking at a neighbour's chunk either confirms the candidate or replaces it; in both cases all
      earlier comparisons stay valid. */
  lemma {:induction false} CompareOne(down: bool, fees: Fees, found: bool, best: set<Tx>, c: set<Tx>, d: set<Tx>)
    requires best != {} && c != {} && d != {} && best + c + d <= fees.Keys
    requires OrientedExcess(down, Total(fees, c), Total(fees, best)) <= 0
    requires Compared(down, fees, found, best, d)
    ensures Compared(down, fees, true, c, d)
  {
    var n := OrientedFees(down, fees);
    OrientedTotals(down, fees, c, best);
    OrientedTotals(down, fees, d, best);
    OrientedTotals(down, fees, d, c);
    ExcessFlip(Total(n, c), Total(n, best));
    HigherTrans(Total(n, d), Total(n, best), Total(n, c));
  }

  lemma {:induction false} StillBelow(down: bool, fees: Fees, x: set<Tx>, best: set<Tx>, c: set<Tx>)
    requires best != {} && c != {} && x != {} && best + c + x <= fees.Keys
    requires OrientedExcess(down, Total(fees, c), Total(fees, best)) <= 0
    requires OrientedExcess(down, Total(fees, x), Total(fees, best)) >= 0
    ensures OrientedExcess(down, Total(fees, x), Total(fees, c)) >= 0
  {
    CompareOne(down, fees, true, best, c, x);
  }

  /** All neighbours of the chunk of `x` outside it have been compared. */
  lemma {:induction false} SearchDone(g: Graph, fees: Fees, f: Forest, down: bool, x: Tx, found: bool, y: Tx, seen: set<Tx>)
    requires GraphOk(g) && IsForest(g.deps, f) && f.part.Keys == fees.Keys == g.txs
    requires Candidate(g, fees, f, down, x, found, y)
    requires AllCompared(fees, f, down, found, y, seen)
    requires forall t :: t in f.part[x] ==>
               t in g.parents && t in g.children && Neighbours(g, down, t) - f.part[x] <= seen
    ensures !found ==> UpStuck(OrientedDeps(down, g.deps), OrientedFees(down, fees), f.part, x)
    ensures found ==> UpStep(OrientedDeps(down, g.deps), OrientedFees(down, fees), f.part, x, y)
  {
    var od, n := OrientedDeps(down, g.deps), OrientedFees(down, fees);
    ChunkWithin(f.part, x);
    ChunkWithin(f.part, y);
    OrientedTotals(down, fees, f.part[x], f.part[y]);
    forall z | z in f.part && f.part[z] != f.part[x] && DependsOn(od, f.part[x], f.part[z])
      ensures Compared(down, fees, found, f.part[y], f.part[z])
      ensures found ==> AtLeast(Total(n, f.part[z]), Total(n, f.part[y]))
      ensures !found ==> Higher(Total(n, f.part[z]), Total(n, f.part[x]))
    {
      var e :| e in od && e.child in f.part[x] && e.parent in f.part[z];
      NeighbourDeps(g, down, e.child);
      assert Dep(e.parent, e.child) == e;
      assert e.parent in Neighbours(g, down, e.child) - f.part[x];
      ChunkWithin(f.part, z);
      OrientedTotals(down, fees, f.part[z], f.part[y]);
    }
  }

  lemma {:induction false} ChunkWithin(part: Partition, t: Tx)
    requires ValidPartition(part) && t in part
    ensures part[t] <= part.Keys && part[t] != {}
  {
  }

  /** The search of `MergeStep`: the lowest-feerate chunk that the chunk of `rep` depends on (the
      highest-feerate one depending on it, if `down`), among those not above (below) it. */
  method FindMergePartner(g: Graph, s: State, rep: Tx, down: bool, ghost fees: Fees, ghost f: Forest)
    returns (found: bool, other: Tx)
    requires GraphOk(g) && fees.Keys == g.txs && StateOk(g, fees, f, s)
    requires rep in g.txs && s.chunkRep[rep] == rep
    ensures !found ==> UpStuck(OrientedDeps(down, g.deps), OrientedFees(down, fees), f.part, rep)
    ensures found ==> UpStep(OrientedDeps(down, g.deps), OrientedFees(down, fees), f.part, rep, other)
    ensures found ==> other in g.txs && s.chunkRep[other] == other
  {
    SameRep(fees, f.part, s.chunkRep, s.chunkInfo, rep, rep);
    ChunkWithin(f.part, rep);
    var chunk := s.chunkInfo[rep].transactions;
    assert chunk == f.part[rep];
    var explored := chunk;
    ghost var seen: set<Tx> := {};
    var best := s.chunkInfo[rep].feerate;
    var bestTiebreak := 0;
    found, other := false, rep;
    var todo := chunk;
    while todo != {}
      invariant todo <= chunk <= explored && explored - chunk <= seen
      invariant Searching(g, s, fees, f, down, rep, found, other, best, bestTiebreak, seen)
      invariant forall t :: t in chunk - todo ==> t in g.parents && t in g.children && Neighbours(g, down, t) <= explored
      decreases todo
    {
      var tx :| tx in todo;
      NeighbourDeps(g, down, tx);
      var newly := Neighbours(g, down, tx) - explored;
      explored := explored + newly;
      found, other, best, bestTiebreak, seen :=
        CompareNeighbours(g, s, rep, down, tx, newly, found, other, best, bestTiebreak, seen, fees, f);
      todo := todo - {tx};
    }
    SearchDone(g, fees, f, down, rep, found, other, seen);
  }

  /** The inner loop of the search: compare the chunks of the newly reached transactions. */
  method CompareNeighbours(g: Graph, s: State, rep: Tx, down: bool, tx: Tx, reached: set<Tx>,
                           found0: bool, other0: Tx, best0: FeeFrac, tiebreak0: nat, ghost seen0: set<Tx>,
                           ghost fees: Fees, ghost f: Forest)
    returns (found: bool, other: Tx, best: FeeFrac, bestTiebreak: nat, ghost seen: set<Tx>)
    requires GraphOk(g) && fees.Keys == g.txs && StateOk(g, fees, f, s) && rep in g.txs && tx in f.part[rep] && tx in g.txs
    requires tx in g.parents && tx in g.children && reached <= Neighbours(g, down, tx) && reached !! f.part[rep]
    requires Searching(g, s, fees, f, down, rep, found0, other0, best0, tiebreak0, seen0)
    ensures Searching(g, s, fees, f, down, rep, found, other, best, bestTiebreak, seen)
    ensures seen0 + reached <= seen
  {
    found, other, best, bestTiebreak, seen := found0, other0, best0, tiebreak0, seen0;
    NeighbourDeps(g, down, tx);
    var newly := reached;
    while newly != {}
      invariant newly <= reached && seen0 + reached <= seen + newly
      invariant Searching(g, s, fees, f, down, rep, found, other, best, bestTiebreak, seen)
      decreases newly
    {
      var x :| x in newly;
      SameRep(fees, f.part, s.chunkRep, s.chunkInfo, x, x);
      var reachedRep := s.chunkRep[x];
      var reachedChunk := s.chunkInfo[reachedRep];
      newly := newly - reachedChunk.transactions;
      var cmp := OrientedExcess(down, reachedChunk.feerate, best);
      var tiebreak: nat :| tiebreak < UINT64;
      if cmp < 0 || (cmp == 0 && tiebreak >= bestTiebreak) {
        Replace(g, fees, f, down, rep, tx, found, other, reachedRep, x, seen);
        found, other, best, bestTiebreak := true, reachedRep, reachedChunk.feerate, tiebreak;
      } else {
        Confirm(fees, f, down, found, other, x, seen);
      }
      seen := seen + reachedChunk.transactions;
    }
  }

  /** A neighbour that does not replace the candidate has been compared. */
  lemma {:induction false} Confirm(fees: Fees, f: Forest, down: bool, found: bool, other: Tx, x: Tx, seen: set<Tx>)
    requires ValidPartition(f.part) && other in f.part && x in f.part
    requires Compared(down, fees, found, f.part[other], f.part[x])
    requires AllCompared(fees, f, down, found, other, seen)
    ensures AllCompared(fees, f, down, found, other, seen + f.part[x])
  {
  }

  /** Switching to the chunk of the neighbour `x` keeps everything that was established. */
  lemma {:induction false} Replace(g: Graph, fees: Fees, f: Forest, down: bool, rep: Tx, tx: Tx, found: bool, other: Tx,
                                   xRep: Tx, x: Tx, seen: set<Tx>)
    requires GraphOk(g) && IsForest(g.deps, f) && f.part.Keys == fees.Keys == g.txs
    requires rep in g.txs && tx in f.part[rep] && tx in g.txs && tx in g.parents && tx in g.children
    requires x in Neighbours(g, down, tx) && x !in f.part[rep] && x in g.txs && xRep in f.part[x]
    requires Candidate(g, fees, f, down, rep, found, other)
    requires OrientedExcess(down, Total(fees, f.part[x]), Total(fees, f.part[other])) <= 0
    requires AllCompared(fees, f, down, found, other, seen)
    ensures xRep in f.part && f.part[xRep] == f.part[x]
    ensures Candidate(g, fees, f, down, rep, true, xRep)
    ensures AllCompared(fees, f, down, true, xRep, seen + f.part[x])
  {
    NeighbourDeps(g, down, tx);
    assert Dep(x, tx) in OrientedDeps(down, g.deps);
    ChunkWithin(f.part, x);
    ChunkWithin(f.part, rep);
    ChunkWithin(f.part, other);
    StillBelow(down, fees, f.part[rep], f.part[other], f.part[x]);
    forall u | u in seen ensures Compared(down, fees, true, f.part[x], f.part[u]) {
      ChunkWithin(f.part, u);
      CompareOne(down, fees, found, f.part[other], f.part[x], f.part[u]);
    }
    ExcessFlip(Total(fees, f.part[x]), Total(fees, f.part[x]));
  }
}
