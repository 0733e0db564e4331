/** The work done on a spanning forest: the run of activations and deactivations that led to it, and how many
    transactions they updated. */
module ForestWork {
  import opened FeeFracs
  import opened TxSets
  import opened Partitions
  import opened Improvement
  import opened Forests
  import opened ForestStates
  import opened ForestGraphs
  import opened MergeSearch

  datatype Move = Activation(d: DepIdx) | Deactivation(d: DepIdx)

  /** The moves made so far, the states before, between and after them, and how many transactions each updated. */
  datatype History = History(path: seq<Forest>, moves: seq<Move>, costs: seq<nat>)

  ghost predicate Complete(h: History) {
    |h.path| == |h.moves| + 1 && |h.costs| == |h.moves|
  }

  ghost function Last(h: History): Forest
    requires Complete(h)
  {
    h.path[|h.moves|]
  }

  ghost function Begun(f: Forest): History {
    History([f], [], [])
  }

  ghost function Logged(h: History, m: Move, f: Forest, cost: nat): History {
    History(h.path + [f], h.moves + [m], h.costs + [cost])
  }

  /** `h2` is `h` with the move that led to `f2`, `s2` and raised the cost. */
  ghost predicate Entered(h: History, s: State, m: Move, f2: Forest, s2: State, h2: History) {
    s2.cost >= s.cost && h2 == Logged(h, m, f2, s2.cost - s.cost)
  }

  /** The history without its last move. */
  ghost function Before(h: History): History
    requires Complete(h) && h.moves != []
  {
    History(h.path[..|h.moves|], h.moves[..|h.moves| - 1], h.costs[..|h.moves| - 1])
  }

  ghost predicate Possible(deps: seq<Dep>, f: Forest, m: Move) {
    && IsForest(deps, f) && m.d < |deps|
    && match m
       case Activation(d) => f.part[deps[d].parent] != f.part[deps[d].child]
       case Deactivation(d) => d in f.act
  }

  ghost function Moved(deps: seq<Dep>, f: Forest, m: Move): Forest
    requires Possible(deps, f, m)
  {
    match m
    case Activation(d) => Activated(deps, f, d)
    case Deactivation(d) => Deactivated(deps, f, d)
  }

  /** How many transactions a move from `f` to `f2` updates: those of the chunk that is made or split. */
  ghost predicate Updates(deps: seq<Dep>, f: Forest, m: Move, f2: Forest, cost: nat)
    requires m.d < |deps|
  {
    var p, whole := deps[m.d].parent, if m.Activation? then f2.part else f.part;
    p in whole && cost == |whole[p]|
  }

  ghost predicate Follows(deps: seq<Dep>, f: Forest, m: Move, f2: Forest, cost: nat) {
    Possible(deps, f, m) && f2 == Moved(deps, f, m) && Updates(deps, f, m, f2, cost)
  }

  ghost predicate StepAt(deps: seq<Dep>, h: History, k: nat)
    requires Complete(h) && k < |h.moves|
  {
    Follows(deps, h.path[k], h.moves[k], h.path[k + 1], h.costs[k])
  }

  /** Every state of the history follows from the one before by the move between them. */
  ghost predicate IsRun(deps: seq<Dep>, f0: Forest, h: History) {
    && Complete(h) && h.path[0] == f0
    && forall k: nat {:trigger StepAt(deps, h, k)} :: k < |h.moves| ==> StepAt(deps, h, k)
  }

  ghost function Sum(costs: seq<nat>): nat {
    if costs == [] then 0 else Sum(costs[..|costs| - 1]) + costs[|costs| - 1]
  }

  /** The number of updated transactions in all moves. */
  ghost function Work(h: History): nat {
    Sum(h.costs)
  }

  /** The state `f` was reached from separate transactions by the moves of `h`, at this cost. */
  ghost predicate Recorded(g: Graph, f: Forest, cost: nat, h: History) {
    IsRun(g.deps, Singletons(g.txs), h) && Last(h) == f && cost == Work(h)
  }

  lemma {:induction false} BeforeLogged(h: History, m: Move, f: Forest, cost: nat)
    requires Complete(h)
    ensures Complete(Logged(h, m, f, cost)) && Logged(h, m, f, cost).moves != []
    ensures Before(Logged(h, m, f, cost)) == h && Last(Logged(h, m, f, cost)) == f
    ensures Work(Logged(h, m, f, cost)) == Work(h) + cost
  {
    assert (h.path + [f])[..|h.moves| + 1] == h.path;
    assert (h.moves + [m])[..|h.moves|] == h.moves;
    assert (h.costs + [cost])[..|h.moves|] == h.costs;
  }

  lemma {:induction false} RecordStart(g: Graph)
    ensures Recorded(g, Singletons(g.txs), 0, Begun(Singletons(g.txs)))
  {
  }

  lemma {:induction false} RecordMove(g: Graph, f: Forest, cost: nat, h: History, m: Move, f2: Forest, touched: nat)
    requires Recorded(g, f, cost, h) && Follows(g.deps, f, m, f2, touched)
    ensures Recorded(g, f2, cost + touched, Logged(h, m, f2, touched))
  {
    BeforeLogged(h, m, f2, touched);
    var h2 := Logged(h, m, f2, touched);
    forall k: nat | k < |h2.moves| ensures StepAt(g.deps, h2, k) {
      if k < |h.moves| {
        assert StepAt(g.deps, h, k);
      }
    }
  }

  // ---------- Merges and improvements ----------

  /** Activating `d` merges a chunk with the best one that it depends on, or, if `down`, that depends on it. */
  ghost predicate MergesBest(g: Graph, fees: Fees, f: Forest, d: DepIdx, down: bool) {
    && d < |g.deps|
    && var p, c := g.deps[d].parent, g.deps[d].child;
       UpStep(OrientedDeps(down, g.deps), OrientedFees(down, fees), f.part, if down then p else c, if down then c else p)
  }

  /** From `h0` to `h` there are only merges, in the allowed directions (`true` is downward). */
  ghost predicate Merges(g: Graph, fees: Fees, dirs: set<bool>, h0: History, h: History)
    decreases |h.moves|
  {
    h == h0 || (Complete(h) && h.moves != [] && LastMerges(g, fees, dirs, h) && Merges(g, fees, dirs, h0, Before(h)))
  }

  ghost predicate LastMerges(g: Graph, fees: Fees, dirs: set<bool>, h: History)
    requires Complete(h) && h.moves != []
  {
    && h.moves[|h.moves| - 1].Activation?
    && exists down :: down in dirs && MergesBest(g, fees, Last(Before(h)), h.moves[|h.moves| - 1].d, down)
  }

  lemma {:induction false} MergesNext(g: Graph, fees: Fees, dirs: set<bool>, h0: History, h: History, d: DepIdx, down: bool, f: Forest, cost: nat)
    requires Complete(h) && Merges(g, fees, dirs, h0, h) && down in dirs && MergesBest(g, fees, Last(h), d, down)
    ensures Merges(g, fees, dirs, h0, Logged(h, Activation(d), f, cost))
  {
    BeforeLogged(h, Activation(d), f, cost);
  }

  lemma {:induction false} MergesMore(g: Graph, fees: Fees, dirs: set<bool>, dirs2: set<bool>, h0: History, h: History)
    requires Merges(g, fees, dirs, h0, h) && dirs <= dirs2
    ensures Merges(g, fees, dirs2, h0, h)
    decreases |h.moves|
  {
    if h != h0 {
      MergesMore(g, fees, dirs, dirs2, h0, Before(h));
    }
  }

  lemma {:induction false} MergesEither(g: Graph, fees: Fees, down: bool, h0: History, h: History)
    requires Merges(g, fees, {down}, h0, h)
    ensures Merges(g, fees, {false, true}, h0, h)
  {
    MergesMore(g, fees, {down}, {false, true}, h0, h);
  }

  lemma {:induction false} MergesTrans(g: Graph, fees: Fees, dirs: set<bool>, h0: History, h1: History, h2: History)
    requires Merges(g, fees, dirs, h0, h1) && Merges(g, fees, dirs, h1, h2)
    ensures Merges(g, fees, dirs, h0, h2)
    decreases |h2.moves|
  {
    if h2 != h1 {
      MergesTrans(g, fees, dirs, h0, h1, Before(h2));
    }
  }

  /** An improvement: deactivate a dependency whose top has a higher feerate than its chunk, then merge upward, then
      merge downward. */
  ghost predicate ImprovesBy(g: Graph, fees: Fees, h0: History, d: DepIdx, h1: History, h2: History) {
    && Complete(h0) && Possible(g.deps, Last(h0), Deactivation(d)) && d in Last(h0).top
    && Higher(Total(fees, Last(h0).top[d]), Total(fees, Last(h0).part[g.deps[d].parent]))
    && Merges(g, fees, {false}, Logged(h0, Deactivation(d), Deactivated(g.deps, Last(h0), d), |Last(h0).part[g.deps[d].parent]|), h1)
    && Merges(g, fees, {true}, h1, h2)
  }

  ghost predicate Improves(g: Graph, fees: Fees, h0: History, h: History) {
    exists d, h1 :: ImprovesBy(g, fees, h0, d, h1, h)
  }

  /** The histories between improvements; each improvement is begun below the budget. */
  ghost predicate Rounds(g: Graph, fees: Fees, budget: nat, hs: seq<History>)
    decreases |hs|
  {
    && hs != [] && IsRun(g.deps, Singletons(g.txs), hs[|hs| - 1])
    && (|hs| > 1 ==> Rounds(g, fees, budget, hs[..|hs| - 1]) && NextTo(g, fees, budget, hs[|hs| - 2], hs[|hs| - 1]))
  }

  ghost predicate NextTo(g: Graph, fees: Fees, budget: nat, h: History, h2: History) {
    IsRun(g.deps, Singletons(g.txs), h) && Work(h) < budget && Improves(g, fees, h, h2)
  }

  /** The rounds so far lead from `h0` to `h`. */
  ghost predicate RoundsTo(g: Graph, fees: Fees, budget: nat, h0: History, hs: seq<History>, h: History) {
    Rounds(g, fees, budget, hs) && hs[0] == h0 && hs[|hs| - 1] == h
  }

  lemma {:induction false} FirstRound(g: Graph, fees: Fees, budget: nat, h: History)
    requires IsRun(g.deps, Singletons(g.txs), h)
    ensures RoundsTo(g, fees, budget, h, [h], h)
  {
  }

  lemma {:induction false} NextRound(g: Graph, fees: Fees, budget: nat, h0: History, hs: seq<History>, h: History, h2: History)
    requires RoundsTo(g, fees, budget, h0, hs, h) && Work(h) < budget
    requires IsRun(g.deps, Singletons(g.txs), h2) && Improves(g, fees, h, h2)
    ensures RoundsTo(g, fees, budget, h0, hs + [h2], h2)
  {
    var hs2 := hs + [h2];
    assert hs2[..|hs2| - 1] == hs;
    assert NextTo(g, fees, budget, h, h2);
  }
}
