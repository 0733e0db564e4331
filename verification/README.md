# Cluster linearization, coin caches, and other cores of a Bitcoin node

A model in Dafny of the parts of the node where a wrong step is hardest to see, with proofs of what their comments and
tests promise. Every module is verified as it stands; there are no axioms and no assumptions about code that is not
modelled beyond what is listed at the end.

**Cluster linearization** (`src/cluster_linearize.h`). A cluster of transactions is ordered so that fees come early.
The quality of an order is its feerate diagram; "nowhere below" compares whole diagrams, for every slope. Modules from
`FeeFracs` and `TxSets` up to `Orders` hold the theory: partitions into chunks and what merging runs do to their
diagram (`Partitions`, `Improvement`), chunkings of orders (`Diagrams`, `Chunking`), spanning trees of chunks and the
optimality theorem (`Forests`, `ForestStates`), and that every graph has an optimal state (`OptimalStates`). `DepGraphs`,
`ForestData`, `ForestGraphs`, `MergeSearch`, `DepPicking`, `ForestWork`, `ForestRuns`, `Loading`, `SpanningForests`,
`DepCounts`, `Outputs`, `Linearizing` and `Linearization` are the program: the dependency graph and the spanning-forest
state as objects with their cached fields, and the loops over them, proved against that theory for every random choice,
with the work they do. `Pass*` and `PostLinearization` are the two passes over linked lists,
`FixLinearization` and `Connections` what remains.

**Coin caches** (`src/coins.cpp`, `src/coins.h`). `CoinLinks` and `CoinCaches` describe one layer with its flags and its
list of flagged entries, `CoinLayers` and `CoinFlush` the operations, `CoinStacks` a stack of layers over a database as
an object, and `CoinRuns` arbitrary runs: the stack behaves like plain maps, and its layers like maps of flagged coins.

**Check queue** (`src/checkqueue.h`). `CheckQueues` is a state machine whose steps are critical sections, executed
checks, wake-ups and notifications of any number of threads; `CheckQueueRuns` proves safety over all runs and progress.

**Address manager** (`src/addrman.cpp`). `AddrBooks` says when the tables, lists and counters agree; `AddrSteps` and
`AddrMoves` are the elementary changes, `AddrManagers` the object, `AddrChecks` its self-check on any tables.

**Block index and chain** (`src/chain.cpp`): `BlockChains`. **Multi-limb arithmetic and the compact encoding**
(`src/arith_uint256.*`): the `Limb*` modules, `CompactBits` and `ArithUints`. **Cuckoo cache** (`src/cuckoocache.h`):
`CuckooTables` and `CuckooCaches`. **Base 58** (`src/base58.cpp`): `BaseDigits`, `Base58Digits`, `Base58`. **Bech32**
(`src/bech32.cpp`, BIP 173 and BIP 350): `XorMath`, the field in `Gf32`, `Bech32Poly`, `Bech32Division`, `Bech32Chars`,
`Bech32`, `Bech32Codec`, and in `Bech32Words` and `Bech32Examples` what some strings of the two standards decode to.

Where code and comments disagree the model follows the code. In `insert` of the cuckoo cache the first location tried
for a swap is the second of the eight, not the first as the comment says, because a search that finds nothing yields
the end of the array, to which one is added (`NextLocation`). And a layer of the coin caches that never looked up its
best block hands a null one down when it is written, so that the best block is kept exactly if the layers below it
agree (`BestBlockWritten`, `BestBlockLost`). The swap of the cuckoo cache does move the element just put in if its
location is followed by itself among the locations of the element taken out (`NextLocation`), and a failed connection
dated before the last success leaves room for another one to be counted (`CountedTwice`). The self-check of the address
manager compares only the number of networks with the counters it has, so that it does not see a missing one
(`MissedNetwork`, `AgreeExactly`).

## Model

| member | source | states |
|---|---|---|
| `DepGraphs.DepGraph.AddTransaction` | src/cluster_linearize.h:134-147 | a new unconnected transaction takes the lowest free position; fees and ancestors of the others do not change |
| `DepGraphs.DepGraph.RemoveTransactions` | src/cluster_linearize.h:158-172 | exactly the given positions go; the ancestor relation of the rest is the restriction of the old one, so a grandparent stays an ancestor |
| `DepGraphs.DepGraph.AddDependencies` | src/cluster_linearize.h:178-199 | keeps ancestor and descendant sets mutually inverse and equal to the reflexive-transitive closure of every dependency ever added (part of `Valid`), cycles included |
| `DepGraphs.DepGraph.GetReducedParents` | src/cluster_linearize.h:209-220 | a set of parents none of which is an ancestor of another; on acyclic graphs the least set whose ancestors are all strict ancestors |
| `Ancestry.AddKeepsGenerated` | src/cluster_linearize.h:178-199 | one update with the ancestors of the new parents yields the closure of all dependencies so far |
| `Ancestry.ReducedIsLeast` | src/cluster_linearize.h:209-220 | reduced parents give back all strict ancestors and are contained in every set that does |
| `Ancestry.ClosedUnderAncestors` | src/cluster_linearize.h:209-220 | a set closed under reduced parents is closed under all ancestors, so the reduced dependencies lose nothing |
| `Connections.GetConnectedComponent` | src/cluster_linearize.h:264-280 | the result is connected, within the given set, and related to nothing of the set outside it |
| `Connections.IsConnectedSubset` | src/cluster_linearize.h:299-302 | true if and only if the subset is empty or cannot be split into two unrelated parts |
| `Chunking.ChunkLinearizationInfo` | src/cluster_linearize.h:427-442 | consecutive chunks of non-increasing feerate, no prefix of a chunk above the chunk, each with its exact set and summed feerate |
| `Chunking.ChunkLinearization` | src/cluster_linearize.h:447-462 | exactly the feerates of the chunks of the only chunking there is |
| `Chunking.ChunkingUnique` | src/cluster_linearize.h:427-442 | a linearization has only one such chunking |
| `Chunking.FirstChunkIsBest` | src/cluster_linearize.h:427-442 | no prefix of a linearization has a higher feerate than its first chunk |
| `Diagrams.ChunksAreDiagram` | src/cluster_linearize.h:427-442 | the chunks reach, for every slope, exactly the highest point of any prefix: they are the least concave majorant |
| `Forests.TreeCount` | src/cluster_linearize.h:1202-1331 | a chunk of N transactions has exactly N - 1 active dependencies |
| `ForestStates.ActivateKeepsForest` | src/cluster_linearize.h:686-735 | activating a dependency across two chunks keeps every chunk a spanning tree with exact top sets |
| `ForestStates.DeactivateKeepsForest` | src/cluster_linearize.h:738-770 | deactivating one splits its tree in two, with the tops of the rest still exact |
| `ForestStates.TopIsComponent` | src/cluster_linearize.h:1202-1331 | the recorded top of an active dependency is exactly the component of its parent when that dependency is cut |
| `ForestGraphs.UpdateChunk` | src/cluster_linearize.h:657-683 | all transactions of the chunk get the representative; exactly the active dependencies with the query transaction in their top change |
| `ForestGraphs.ActivateFields` | src/cluster_linearize.h:686-735 | the in-place updates of representatives, chunk totals and tops give the state of the merged forest |
| `ForestGraphs.DeactivateFields` | src/cluster_linearize.h:738-770 | the in-place updates give the state of the split forest |
| `SpanningForests.SpanningForest.constructor` | src/cluster_linearize.h:909-945 | every transaction in its own chunk, and exactly the reduced dependencies of the graph |
| `SpanningForests.SpanningForest.Activate` | src/cluster_linearize.h:686-735 | the forest with the dependency activated; every cached field, total and top is exact again, and the cost has grown by the size of the merged chunk (`Valid` keeps the run of moves and its cost) |
| `SpanningForests.SpanningForest.Deactivate` | src/cluster_linearize.h:738-770 | the forest with the dependency deactivated, all cached fields exact; the cost has grown by the size of the split chunk |
| `DepPicking.PickDependency` | src/cluster_linearize.h:774-807 | for every random number, a dependency with its parent in the top chunk and its child in the bottom one |
| `MergeSearch.FindMergePartner` | src/cluster_linearize.h:812-867 | the lowest-feerate chunk depended on (highest-feerate dependent, downward), for every tie-break; none found only if no merge is allowed |
| `SpanningForests.SpanningForest.MergeStep` | src/cluster_linearize.h:812-867 | merges with that chunk, or leaves the state alone when no merge in this direction is allowed |
| `SpanningForests.SpanningForest.MergeSequence` | src/cluster_linearize.h:872-882 | a maximal run of such merges, the result queued |
| `Partitions.UpRunSettles` | src/cluster_linearize.h:872-882 | a maximal upward run leaves everything above, with the started chunk, topologically ordered by strictly falling feerate |
| `Partitions.UpRunPotential` | src/cluster_linearize.h:872-882 | such a run lowers the diagram of what it merged nowhere |
| `Improvement.ImproveStep` | src/cluster_linearize.h:886-904 | splitting a chunk at a top of higher feerate and running both merge sequences gives a topological state whose diagram is nowhere lower, for every choice made |
| `SpanningForests.SpanningForest.Improve` | src/cluster_linearize.h:886-904 | the class operation refines that step, and queues just the chunks that changed |
| `SpanningForests.SpanningForest.LoadLinearization` | src/cluster_linearize.h:950-961 | from a linearization with parents first, a topological state whose diagram is nowhere below it |
| `Loading.LoadEnd` | src/cluster_linearize.h:950-961 | a completely loaded topological linearization is a topological state nowhere below it |
| `SpanningForests.SpanningForest.MergeNext` | src/cluster_linearize.h:964-1004 | one round of the queue: fewer chunks, or the same chunks and a shorter queue |
| `SpanningForests.SpanningForest.MakeTopological` | src/cluster_linearize.h:964-1004 | terminates, from any state, in a topological state with an empty queue |
| `SpanningForests.SpanningForest.StartOptimizing` | src/cluster_linearize.h:1007-1021 | queues every chunk that might be improvable, changing nothing else |
| `SpanningForests.SpanningForest.OptimizeStep` | src/cluster_linearize.h:1024-1069 | keeps the state topological and lowers the diagram nowhere; when nothing remains queued no dependency is improvable; otherwise cost grows or the queue shrinks |
| `ForestRuns.FindImprovable` | src/cluster_linearize.h:1024-1069 | finds a dependency whose top has a higher feerate than its chunk whenever the chunk has one |
| `ForestRuns.ImproveKeepsQueue` | src/cluster_linearize.h:1024-1069 | after an improvement every chunk that is not queued is known to be good |
| `ForestRuns.EmptyQueueOptimal` | src/cluster_linearize.h:1024-1069 | an empty queue means that no dependency is improvable |
| `ForestStates.OptimalState` | src/cluster_linearize.h:514-532 | with no improvable dependency, no set closed under dependencies lies above the diagram of the state |
| `OptimalStates.Settle` | src/cluster_linearize.h:514-532 | a set whose closed parts are not above it can be split into chunks of its feerate, with no dependency between them and no active dependency with a higher top |
| `OptimalStates.OptimalStateExists` | src/cluster_linearize.h:519-523 | for every acyclic list of dependencies there is a spanning forest that is topological and has no improvable dependency |
| `Linearization.OptimalExists` | src/cluster_linearize.h:519-523 | so every acyclic dependency graph has an optimal state |
| `DepCounts.CountUnmet` | src/cluster_linearize.h:1073-1175 | the counters of unmet dependencies of transactions and of chunks are exact |
| `Outputs.WriteChunk` | src/cluster_linearize.h:1073-1175 | all transactions of a chunk are written once, each after its parents, and all counters stay exact |
| `Linearizing.HighestReady` | src/cluster_linearize.h:1073-1175 | a ready chunk of the highest feerate, for every tie-break |
| `Linearizing.ReadyIsHighest` | src/cluster_linearize.h:1073-1175 | in a topological state the best ready chunk is as good as any chunk still to be written |
| `Linearizing.GroupsBest` | src/cluster_linearize.h:1073-1175 | chunks written by non-increasing feerate reach the diagram of the state |
| `Linearizing.WriteLinearization` | src/cluster_linearize.h:1073-1175 | every transaction once, parents first, chunks by non-increasing feerate, nowhere below the diagram of the state |
| `SpanningForests.SpanningForest.GetLinearization` | src/cluster_linearize.h:1073-1175 | the same, for the state held by the object |
| `Linearization.Optimize` | src/cluster_linearize.h:1362-1371 | terminates by remaining budget and queue length; optimal exactly if it was begun below the budget and the queue is empty, and then no dependency is improvable; otherwise the budget is spent. Each improvement is begun below the budget |
| `Linearization.OptimalFrom` | src/cluster_linearize.h:514-532 | an output of a state without improvable dependencies is optimal |
| `ForestWork.RecordMove` | src/cluster_linearize.h:648-649 | a move adds the transactions of the chunk that it makes or splits to the cost of the run |
| `ForestWork.NextRound` | src/cluster_linearize.h:1362-1371 | an improvement begun below the budget continues the rounds: deactivate a dependency with a higher top, merge upward, merge downward |
| `Linearization.Linearize` | src/cluster_linearize.h:1350-1373 | a linearization of the graph, nowhere below the given one, written from the last state of a run of best merges and improvements that starts from separate transactions; the cost is the number of transactions updated in that run; if reported optimal, no ancestor-closed set lies above its diagram; if not, the cost reached the limit |
| `Orders.OptimalBeatsAll` | src/cluster_linearize.h:514-532 | an optimal linearization is nowhere below any other |
| `PassGroups.CycleStart` | src/cluster_linearize.h:1492-1510 | appending a transaction as a group keeps what a pass promises about the transactions met so far |
| `PassGroups.CycleSwap` | src/cluster_linearize.h:1536-1548 | swapping independent neighbours keeps it |
| `PassGroups.CycleMerge` | src/cluster_linearize.h:1522-1535 | merging dependent neighbours keeps it |
| `PassGroups.CycleEnd` | src/cluster_linearize.h:1511-1550 | when a cycle ends the groups are exactly the chunks of their concatenation, all connected |
| `PassRuns.CycleStep` | src/cluster_linearize.h:1512-1549 | the pointer updates of a merge or a swap do to the linked lists what the step does to the list of groups |
| `PassRuns.PlaceTx` | src/cluster_linearize.h:1492-1550 | one transaction goes through its whole cycle on the linked lists |
| `PostLinearization.RunPass` | src/cluster_linearize.h:1485-1550 | after all transactions the linked lists hold groups that are the chunks of an arrangement nowhere below the given order |
| `PostLinearization.WriteBack` | src/cluster_linearize.h:1552-1572 | the array is filled with the groups in order, reversed in backward passes |
| `PassMirror.MirrorNowhereBelow` | src/cluster_linearize.h:1415-1419 | a backward pass is a forward pass on reversed order, roles and fees: what is not worse there is not worse |
| `PassTrees.TreeOptimal` | src/cluster_linearize.h:1383-1384 | groups of a pass over a graph of chains, by non-increasing feerate, form an optimal linearization |
| `PassTrees.ChainsFromSingle` | src/cluster_linearize.h:1383-1384 | graphs in which no transaction has more than one reduced child are graphs of chains |
| `PassMoves.AsideBeats` | src/cluster_linearize.h:1385-1389 | sorted groups do as well as any placement of a transaction that is unrelated to all of them |
| `PostLinearization.MirrorMoved` | src/cluster_linearize.h:1385-1389 | after the backward pass the result is nowhere below the order with its last transaction at any earlier place it may have |
| `PostLinearization.RaisedFees` | src/cluster_linearize.h:1385-1389 | raising fees lowers no point of a diagram |
| `PostLinearization.ReplacedNowhereBelow` | src/cluster_linearize.h:1385-1389 | a result for an order with one transaction moved to the end, with any fees raised, is nowhere below the earlier order with the old fees |
| `PostLinearization.PostLinearize` | src/cluster_linearize.h:1374-1574 | in place: a linearization, nowhere below the input, chunks connected, optimal if no transaction has more than one child or none more than one parent, and nowhere below any linearization the input came from by moving a leaf to the end |
| `FixLinearization.PlaceOne` | src/cluster_linearize.h:1585-1605 | a transaction moves behind the last of its ancestors found later; the part done so far is topological and in the order of the last ancestors in the given order |
| `FixLinearization.FixLinearization` | src/cluster_linearize.h:1577-1606 | any permutation becomes topological in place, its transactions in the order of their last ancestors in the given one; a topological one stays as it is |
| `FixLinearization.OnlyBehindAncestors` | src/cluster_linearize.h:1576-1606 | so two transactions change their order only if an ancestor of the first stood at or behind the second |
| `FeeFracs.HigherTrans` | src/util/feefrac.h:157-175 | comparison by cross-multiplied feerate is transitive, strictly as soon as one step is strict |
| `CoinLayers.AddCoin` | src/coins.cpp:72-111 | through any base, the visible coins gain exactly the new coin; an unexpected overwrite is reported, an unspendable output ignored; the entry is DIRTY, and FRESH unless the base may have it; list and usage stay consistent |
| `CoinLayers.SpendCoin` | src/coins.cpp:133-153 | exactly the outpoint disappears from the visible coins and its coin is returned; a fresh entry is dropped, another becomes a dirty spent one |
| `CoinLayers.Uncache` | src/coins.cpp:278-291 | drops the entry only if it carries no flag; the visible coins do not change |
| `CoinLayers.WriteEntry` | src/coins.cpp:186-250 | one dirty entry of the layer above is taken over, FRESH if this layer did not know it or had it FRESH, and forgotten if then spent; the misapplied-FRESH error cannot occur |
| `CoinFlush.NextAndMaybeErase` | src/coins.h:283-297 | visits every flagged entry once, in list order; without erasing, unspent entries lose their flags and spent ones go |
| `CoinFlush.BatchWrite` | src/coins.cpp:186-250 | afterwards the layer below shows exactly what the layer above showed, has its best block, and has taken over exactly its dirty entries |
| `CoinFlush.SanityCheck` | src/coins.cpp:319-350 | on any cache whose list ends: passed exactly if no entry has impossible flags, the list is linked both ways and has as many entries as are flagged, all flagged, and the memory usage is right |
| `CoinFlush.LayerIsSane` | src/coins.cpp:319-350 | a layer in order passes |
| `CoinStacks.CoinsViews.GetCoin` | src/coins.cpp:48-70 | a lookup through any number of layers returns the coin of the plain map, leaves all views alone, and is remembered unflagged by just the layers on the way |
| `CoinStacks.CoinsViews.AddCoin` | src/coins.cpp:72-111 | the view of the top layer gains the coin, the views and layers below do not change |
| `CoinStacks.CoinsViews.SpendCoin` | src/coins.cpp:133-153 | the view of the top layer loses the outpoint, whose coin in that view is returned; the answer is positive exactly if the view had it or the layer had an entry for it; the views below do not change |
| `CoinStacks.CoinsViews.Uncache` | src/coins.cpp:278-291 | no view of any layer changes, and only an unflagged entry of the layer goes |
| `CoinStacks.CoinsViews.Flush` | src/coins.cpp:252-263 | the view below becomes the view of the layer, which is left empty; all other layers are untouched |
| `CoinStacks.CoinsViews.Sync` | src/coins.cpp:265-276 | the same, but the layer keeps exactly its unspent entries, without flags; the uncleared-flags error cannot occur |
| `CoinStacks.CoinsViews.GetBestBlock` | src/coins.cpp:176-180 | the best block of the nearest layer below that knows one, remembered on the way |
| `CoinStacks.BestBlockWritten` | src/coins.cpp:248-263 | writing a layer that never looked up its best block keeps the best block below if and only if the two layers below agree on it |
| `CoinStacks.BestBlockLost` | src/coins.cpp:248-263 | a stack of two layers whose best block is lost that way |
| `CoinStacks.CoinsViews.SanityCheck` | src/coins.cpp:319-350 | holds in every reachable state |
| `CoinRuns.Perform` | src/coins.cpp:48-291 | one operation on the caches is the same operation on plain maps and on maps of flagged entries, with the same answer: the coin of a lookup or a spend, and whether there was something to spend |
| `CoinRuns.Run` | src/coins.cpp:48-291 | so is any run of operations over any stack of layers, with all its answers, and no internal check ever fails |
| `CheckQueues.BatchCount` | src/checkqueue.h:112-121 | how many checks a thread takes: the largest number that leaves their share to all threads and is within a batch, but at least one |
| `CheckQueueRuns.StepKeepsInv` | src/checkqueue.h:72-137 | every step of every thread keeps the invariant: nTodo is queued plus in-flight checks, counters match threads, results belong to the current session |
| `CheckQueueRuns.RunsKeepInv` | src/checkqueue.h:72-189 | the invariant holds in every state of every interleaving |
| `CheckQueueRuns.CompleteIsRight` | src/checkqueue.h:166-169 | the master returns nothing if and only if every check of its session that was run succeeded, and then all were run; otherwise an error of that same session |
| `CheckQueueRuns.NoLostWakeup` | src/checkqueue.h:72-137 | the master never waits un-notified with nothing to do; while it waits some worker holds a batch |
| `CheckQueueRuns.NeverStuck` | src/checkqueue.h:72-137 | while the master is in Complete some thread can go on without a spurious wake-up |
| `CheckQueueRuns.LessWork` | src/checkqueue.h:72-137 | every executed check and critical section reduces a measure |
| `CheckQueueRuns.WorkBounded` | src/checkqueue.h:72-137 | so no run of such steps, of whichever threads, is longer than the measure at its start |
| `CheckQueueRuns.CompleteReturns` | src/checkqueue.h:72-137 | every such run can be continued, within that bound, to a state in which the master has returned from Complete |
| `AddrMoves.ClearNew` | src/addrman.cpp:473-489 | empties one slot of the new table; the entry goes exactly when that was its last place; everything stays in agreement, and what is known about the other addresses stays |
| `AddrMoves.MakeTried` | src/addrman.cpp:491-548 | the entry leaves all its places in the new table and takes its tried slot; what was there takes its first place in the new table, whoever had it; nothing else changes in the tables or is known about any address, and all refcounts, indices and counters agree again |
| `AddrManagers.AddrMan.AddSingle` | src/addrman.cpp:550-624 | keeps every condition of the self-check. An unknown address gets its slot exactly if that is free, held by a terrible entry or by one with other places, and then has the announced time less the penalty, no attempts and no tries; a known one is brought up to that time exactly if it is an hour or a day behind, and may get another place if that is news; nothing else changes, and self-announcements are not penalized |
| `AddrManagers.AddrMan.Add` | src/addrman.cpp:681-691 | the same for a list of addresses, one after the other; the answer is positive exactly if one of them got a place |
| `AddrManagers.TerribleExactly` | src/addrman.cpp:69-92 | when an entry may be thrown away, in seconds |
| `AddrManagers.OldGivesWay` | src/addrman.cpp:69-92 | an entry not seen for 30 days, nor tried within a minute, gives up its place to a new address |
| `AddrManagers.AddrMan.Good` | src/addrman.cpp:626-679 | moves the address exactly if it is in the new table and its tried slot is free or may be overwritten, and then both tables are stated completely; in any case just its times and attempts change, and it waits if there is room |
| `AddrManagers.AddrMan.Attempt` | src/addrman.cpp:693-711 | only the entry of the address changes: the try is recorded, and a failure counted if the last counted one was before the last success |
| `AddrManagers.CountedOnce` | src/addrman.cpp:707-710 | attempts without a success in between count once together, if none is dated before the last success |
| `AddrManagers.CountedTwice` | src/addrman.cpp:707-710 | two of them count twice if and only if both are to count, none had counted, and the first is dated before the last success |
| `AddrManagers.AddrMan.Connected` | src/addrman.cpp:877-894 | only the time of the entry changes, and only after twenty minutes |
| `AddrManagers.AddrMan.Resolve` | src/addrman.cpp:912-973 | what becomes of a waiting entry: dropped, replaced into the tried table, or left waiting, by the four time conditions |
| `AddrManagers.AddrMan.ResolveCollisions` | src/addrman.cpp:912-973 | keeps every condition; every waiting entry is decided on once, against the tables as they are then; those to be replaced take their tried slot, what was there goes to its home in the new table, and exactly those left waiting stay in the set |
| `AddrManagers.AddrMan.SelectTriedCollision` | src/addrman.cpp:975-1001 | always reads a real entry of the tried table for a waiting id that is still known |
| `AddrChecks.CheckAddrman` | src/addrman.cpp:1063-1166 | the self-check, loop by loop, on any tables: 0 exactly if every entry is in order and in the tables, these hold nothing else, and the counters looked at are right; each other result says what is wrong |
| `AddrChecks.AgreeIsSane` | src/addrman.cpp:1063-1166 | tables that agree pass, so the self-check returns 0 in every reachable state |
| `AddrChecks.AgreeExactly` | src/addrman.cpp:1063-1166 | tables agree if and only if they pass, every address found has an entry, every id was given out, and every network of an entry has a counter: what the self-check does not look at |
| `AddrChecks.MissedNetwork` | src/addrman.cpp:1149-1159 | tables that pass still do when the counter of a network is replaced by an empty one of a network without entries, as only the number of networks is compared |
| `BlockChains.LowestOneCleared` | src/chain.cpp:70-70 | n & (n - 1) takes exactly the lowest 1 bit away |
| `BlockChains.SkipHeightBits` | src/chain.cpp:73-81 | the bits of a skip height: those of an even height without the lowest, and those of an odd one without the two that follow the lowest |
| `BlockChains.AddBlock` | src/chain.cpp:115-119 | the new block has the ancestor at its skip height as skip, so equal heights have equal skip heights |
| `BlockChains.GetAncestor` | src/chain.cpp:83-108 | equals walking the parents one by one; none exactly for heights out of range |
| `BlockChains.LastCommonAncestor` | src/chain.cpp:155-178 | terminates at the highest common block without following a null pointer |
| `BlockChains.ActiveChain.SetTip` | src/chain.cpp:16-24 | the vector becomes exactly the branch of the block, by height |
| `BlockChains.ActiveChain.FindFork` | src/chain.cpp:50-59 | the highest block of the branch that is in the chain, none only if the chain is empty |
| `LimbArith.Add` | src/arith_uint256.h:117-127 | the sum modulo the size of the number, with no carry beyond 64 bits |
| `LimbArith.Increment` | src/arith_uint256.h:155-162 | one more, modulo the size |
| `LimbArith.Negate` | src/arith_uint256.h:59-67 | the negation modulo the size |
| `LimbArith.Subtract` | src/arith_uint256.h:129-133 | the difference modulo the size, exact when it is not negative |
| `LimbArith.MultiplySmall` | src/arith_uint256.cpp:48-57 | the product with a 32-bit number modulo the size, intermediate values within 64 bits |
| `LimbMultiply.Multiply` | src/arith_uint256.cpp:60-73 | the product modulo the size, intermediate values within 64 bits |
| `LimbShift.ShiftLeft` | src/arith_uint256.cpp:14-28 | multiplication by a power of two modulo the size, for every shift |
| `LimbShift.ShiftRight` | src/arith_uint256.cpp:31-45 | division by a power of two, for every shift |
| `LimbDivide.CompareTo` | src/arith_uint256.cpp:102-111 | the order of the two numbers |
| `LimbDivide.Bits` | src/arith_uint256.cpp:156-168 | the position of the highest set bit, 0 only for zero |
| `LimbDivide.Divide` | src/arith_uint256.cpp:76-99 | the exact quotient; an error exactly for a zero divisor |
| `ArithUints.BaseUint.DivideAssign` | src/arith_uint256.cpp:76-99 | the same in place; a zero divisor leaves zero |
| `ArithUints.BaseUint.AddAssign` | src/arith_uint256.h:117-127 | the sum in place, also when both operands are the same object |
| `ArithUints.BaseUint.EqualTo` | src/arith_uint256.cpp:114-125 | equality with a 64-bit number |
| `ArithUints.BaseUint.SetCompact` | src/arith_uint256.cpp:175-193 | the number encoded, modulo 2^256; the overflow flag holds exactly when it does not fit 256 bits; the sign flag exactly for a positive number with the sign bit |
| `ArithUints.BaseUint.GetCompact` | src/arith_uint256.cpp:195-216 | the word encodes the number rounded down to its leading digits, with the least size that keeps the sign bit free; the assertions hold |
| `CompactBits.CompactUnique` | src/arith_uint256.cpp:195-216 | only one word of each sign encodes a number that way |
| `CompactBits.CanonicalExactly` | src/arith_uint256.cpp:175-216 | the words that encode the number they decode to are exactly those without lost digits and with the least size |
| `ArithUints.Reencode` | src/arith_uint256.cpp:175-216 | decoding a word and encoding the result gives the word back if and only if no digit of it was lost, its size is the least, its number fits 256 bits, and zero carries no sign |
| `CompactBits.OverflowExactly` | src/arith_uint256.cpp:188-191 | the three-way test for overflow is exact |
| `ArithUints.GetBlockProof` | src/chain.cpp:121-134 | floor(2^256 / (target + 1)) for every accepted nBits, 0 for the others |
| `ArithUints.TargetBelow` | src/chain.cpp:121-134 | no word encodes the largest number, so adding one never wraps to a zero divisor |
| `CuckooTables.LocationIs` | src/cuckoocache.h:240-250 | the location for a hash divides the table as the hash divides the 32-bit numbers |
| `CuckooTables.LocationsBelow` | src/cuckoocache.h:240-250 | all eight locations are within the table |
| `CuckooCaches.NextLocation` | src/cuckoocache.h:422-435 | the location after the last one looked at, the second one in the first round; it is the same again, so that the element just put in is moved, if and only if the last one is followed by itself where it first occurs |
| `CuckooCaches.Displace` | src/cuckoocache.h:411-444 | the displacement loop loses at most one of the live elements and the new one, keeps each element with its epoch in one slot at one of its locations, and adds at most one recent slot; each element on the way was blocked and took the place of the next, and the last one got its first free location, or was lost after as many rounds as are allowed |
| `CuckooCaches.FreeTaken` | src/cuckoocache.h:411-419 | if a location of the new element is up for collection and a round is allowed, it gets the first such one, and nothing is lost or moved |
| `CuckooCaches.Cache.constructor` | src/cuckoocache.h:336-349 | an empty cache with everything up for collection and none recent, 45% epochs in 32-bit arithmetic |
| `CuckooCaches.Cache.EpochCheck` | src/cuckoocache.h:286-318 | counts down, or ages the epoch exactly when it is full, which leaves just its elements live; the flags and the new counter are exact, and there is room for one more recent element |
| `CuckooCaches.Cache.Insert` | src/cuckoocache.h:397-445 | all live elements, or just those of the current epoch when a scan finds it full, stay live with the new element except for at most one, lost only if every element on the way was blocked in all rounds; the new element is in the table exactly if it is not the lost one; an element that was there stays where it is; the current epoch never exceeds its size by more than a sixteenth (or one) |
| `CuckooCaches.Cache.InsertThenContains` | src/cuckoocache.h:378-390 | an inserted element is found unless it was lost, so always if it was there or one of its locations is up for collection and a round is allowed |
| `CuckooCaches.Cache.Contains` | src/cuckoocache.h:474-484 | found exactly if one of the locations of the element holds it; for a non-default element, if it is in the table, and only if it was inserted before; erasing flags just its slot |
| `CuckooCaches.Cache.EraseThenContains` | src/cuckoocache.h:450-461 | the example of the documentation always returns true |
| `CuckooCaches.NewCacheContains` | src/cuckoocache.h:474-484 | a new cache contains an element exactly if it is the default element: the reason why the default element has to be excluded |
| `BaseDigits.MultiplyAdd` | src/base58.cpp:102-112 | the inner loop of both directions: multiply the buffer by one base and add a digit; no carry is left if the result fits |
| `Base58Digits.EncodeFits` | src/base58.cpp:99-99 | the buffer of 138/100 of the input length plus one always suffices |
| `Base58Digits.DecodeFits` | src/base58.cpp:54-54 | the buffer of 733/1000 of the text length plus one always suffices |
| `Base58Digits.AlphabetIs` | src/base58.cpp:20-20 | the character of every digit is the one at its place of the alphabet |
| `Base58.SpacesAre` | src/util/strencodings.h:165-167 | which characters are skipped around a text |
| `Base58.EncodeBase58` | src/base58.cpp:89-127 | the text has as many leading ones as the input leading zero bytes, and stands for the same number; the carry assertion holds on every input |
| `Base58.DecodeBase58` | src/base58.cpp:40-87 | the bytes that the text without surrounding space stands for, if they are within the limit; nothing exactly if there are none |
| `Base58.OneByteString` | src/base58.cpp:40-87 | a text stands for one byte string |
| `Base58.OneText` | src/base58.cpp:89-127 | a byte string has one text |
| `Base58.RoundTrip` | src/base58.cpp:40-127 | decoding inverts encoding exactly when the limit suffices |
| `Base58.DecodeEncode` | src/base58.cpp:40-127 | encoding inverts decoding, up to surrounding space |
| `Bech32.PolyMod` | src/bech32.cpp:130-216 | the packed remainder of the values, with a 1 in front, as a polynomial over GF(32) divided by the generator g(x) |
| `Gf32.TimesAssoc` | src/bech32.cpp:54-61 | multiplication modulo a^5 + a^3 + 1 is associative |
| `Gf32.TimesSum` | src/bech32.cpp:54-61 | it distributes over sums on the left |
| `Gf32.SumTimes` | src/bech32.cpp:54-61 | and on the right |
| `Gf32.Inverse` | src/bech32.cpp:139-139 | the constant coefficient {18} of g(x) has the inverse {17} |
| `Bech32Poly.ReduceIsProduct` | src/bech32.cpp:199-212 | the constants added for the bits of c0 make up the product of c0 and k(x), packed |
| `Bech32Division.FoldIsRemainder` | src/bech32.cpp:132-215 | what the loop computes and the coefficients it shifted out are remainder and quotient of that division |
| `Bech32Division.DivisionUnique` | src/bech32.cpp:137-139 | a polynomial has only one quotient and remainder |
| `Bech32Poly.StepLinear` | src/bech32.cpp:178-212 | a step is linear over exclusive or |
| `Bech32Poly.FoldLinear` | src/bech32.cpp:130-216 | the checksum is affine over exclusive or |
| `Bech32Poly.StepInjective` | src/bech32.cpp:178-212 | a step loses nothing, because the constant coefficient of the generator is invertible |
| `Bech32Poly.BurstDetected` | src/bech32.cpp:130-216 | lists that differ only within six consecutive values have different checksums |
| `Bech32.CreateChecksum` | src/bech32.cpp:342-353 | six values that make the whole list valid for the encoding |
| `Bech32.ChecksumUnique` | src/bech32.cpp:342-353 | no other six values do |
| `Bech32.ChangeDetected` | src/bech32.cpp:327-339 | changing values within a window of six, in particular a single one, never leaves the checksum valid for the same encoding |
| `Bech32.VerifyChecksum` | src/bech32.cpp:327-339 | the encoding whose constant is the remainder; none exactly if it is neither |
| `Bech32Codec.CheckCharacters` | src/bech32.cpp:287-309 | the positions, in order, of the characters that are not printable or not in the case of the first letter; none exactly if all characters are printable and not of both cases |
| `Bech32Codec.Encode` | src/bech32.cpp:358-371 | a string of the given parts with a valid checksum, in lower case |
| `Bech32Codec.Decode` | src/bech32.cpp:374-400 | the parts of a valid string within the limit; nothing exactly if there are no such parts |
| `Bech32Codec.RoundTrip` | src/bech32.cpp:358-400 | decoding inverts encoding for both constants, exactly for non-empty printable human-readable parts within the limit |
| `Bech32Codec.DecodeEncode` | src/bech32.cpp:358-400 | encoding inverts decoding, up to the case of letters |
| `Bech32Examples.CharsetIs` | src/bech32.cpp:23-23 | the character of every value is the one at its place of the character set |
| `Bech32Examples.DecodeShort` | src/test/bech32_tests.cpp:39-39 | a1lqfn3a is Bech32m of a without data |
| `Bech32Examples.DecodeUpper` | src/test/bech32_tests.cpp:38-38 | A1LQFN3A is the same |
| `Bech32Examples.EncodeShort` | src/test/bech32_tests.cpp:39-39 | and is what encoding gives |
| `Bech32Examples.DecodeFalling` | src/test/bech32_tests.cpp:41-41 | abcdef1l7aum6echk45nj3s0wdvt2fg8x9yrzpqzd3ryx is Bech32m of abcdef with the values 31 down to 0 |
| `Bech32Examples.DecodeRising` | src/test/bech32_tests.cpp:21-21 | abcdef1qpzry9x8gf2tvdw0s3jn54khce6mua7lmqqqxw is Bech32 of abcdef with the values 0 up to 31 |
| `Bech32Words.WordTimes` | src/bech32.cpp:57-76 | the product of five-bit words is that of the field |
| `Bech32Words.TakeOne` | src/bech32.cpp:178-212 | one value turns the remainder, held in five-bit words, into the next |

## Left out

- Randomness is an arbitrary choice wherever the source draws a number, so every claim holds for all draws; claims about
  uniformity or probability are not modelled.
- `src/cluster_linearize.h`: costs and counters are unbounded numbers; the remapping constructor, `Compact`, `AppendTopo`,
  `GetReducedChildren` as an operation of its own, `GetDiagram` and memory accounting are not modelled.
- `src/util/feefrac.h`: fees and sizes are unbounded integers, so the 96-bit products of the source are exact by definition.
- Coin caches: a layer knows its base by its position in a stack instead of a pointer; `EmplaceCoinInternalDANGER`, the
  error-catching view, failing writes, memory pools and reallocation are not modelled; the database accepts every write.
- CoinStacks.CoinsViews.AddCoin: asks the caller, as the header does, to allow overwriting if an unspent coin may exist
  that the layer has not loaded; the model says nothing about other calls.
- Check queue: the shutdown of worker threads (`m_request_stop`) and the control object around a session are not modelled.
- Address manager: bucket and position hashes, networks, routability and validity are arbitrary functions of the address;
  the null-key error of the self-check, service flags, `Select_`, `GetAddr_`, `GetEntry` and serialization are not modelled.
- AddrManagers.AddrMan.ResolveCollisions: takes the waiting entries in any order, not in that of their ids.
- BlockChains.GetAncestor: says nothing about how many steps it takes, so nothing about when a skip pointer is better.
- Block index: `LocatorEntries`, `FindEarliestAtLeast` and equivalent block times are not modelled.
- Arithmetic: limbs are a sequence that is reassigned, not an array; the bitwise operators between numbers, conversion to
  floating point and hexadecimal are not modelled.
- CuckooCaches.Cache.Insert: not for the default element, which cannot be told from an empty slot (`NewCacheContains`).
- CuckooCaches.Cache.constructor: the depth limit is any number, not the rounded logarithm of the size; the packed atomic
  flags are a sequence of booleans, and concurrent calls of `contains` are not modelled.
- Base58.EncodeBase58: the buffer is kept with its least significant digit first, where the source iterates in reverse;
  the character tables are written as ranges. The variants with a checksum, which rest on a hash function, are not modelled.
- Bech32Codec.Encode: for characters below 128 in the human-readable part; the sign of larger ones is up to the platform.
- Bech32: `LocateErrors` and the GF(1024) tables are not modelled.
