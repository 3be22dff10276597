# NetworKit numerics and graph-algorithm core, modelled in Dafny

This project models six pieces of the NetworKit network-analysis library and
proves properties of them:

- **LAMG elimination level** (`level_elimination.dfy`). An exact-elimination
  level of the lean algebraic multigrid hierarchy. It is an ordered list of
  elimination stages. Each stage splits its fine index space into a retained
  C-set and an eliminated F-set. The level composes the C-sets into
  `cIndexFine`, and gathers (`coarseType`), restricts and interpolates vectors
  stage by stage.
- **Linear solver facade** (`linear_solver.dfy`). The abstract `LinearSolver`:
  set-up for a matrix or for a graph's Laplacian, `solve` with default budgets,
  and the sequential default `parallelSolve`. The concrete engine is a function
  parameter.
- **Dynamic Dijkstra** (`dyn_dijkstra.dfy`). Repairs single-source shortest
  distances, path counts and predecessor lists after a batch of edge insertions
  and weight updates. It uses a priority queue and a WHITE/BLACK colouring.
- **Partition hub dominance** (`partition_hub_dominance.dfy`). Per-cluster sizes
  and largest internal degrees, the dominance of every cluster, and the
  average, weighted average, maximum and minimum dominance.
- **Algebraic triangle counting** (`algebraic_triangle_counting.dfy`). Scores
  are the diagonal of `A*A*A`, halved for undirected graphs. A `hasRun` guard
  protects the accessors.
- **Same-community link predictor** (`same_community_index.dfy`). Scores a node
  pair 1 when both nodes share a detected community, and 0 otherwise.

`dense.dfy` holds the dense real vectors and matrices the LAMG and solver
models use. `wrappers.dfy` holds `Outcome`, `Result` and `Option`.

State that the original changes in place is modelled in place:

- classes with `var` fields and `modifies` clauses;
- local arrays filled by loops with invariants;
- `seq` fields that the methods reassign.

Each method is proved against a specification function: `Lift`, `RestrictStep`,
`InterpolateStep`/`Lower`, `UpdateQueue`/`RelaxEvents`/`ScanEdges`,
`ProcessStep`/`Replay`/`MinOrder`, `Sizes`,
`MaxDegs`, `Values`, `Scores` and `Index`. Lemmas then prove what the library
promises about those functions.

## Model

| member | source | states |
|---|---|---|
| LevelElimination.Lift | networkit/cpp/numerics/LAMG/Level/LevelElimination.h:43-48 | composing the C-sets from the last stage down to stage k maps every coarse index into the fine index range of stage k (the range the original asserts at each step) |
| LevelElimination.LevelElimination.constructor | networkit/cpp/numerics/LAMG/Level/LevelElimination.h:35-49 | starting from the identity and rewriting it through C-sets K-1 .. 0 yields cIndexFine[i] = C_0[C_1[..C_{K-1}[i]]] for every coarse index i |
| LevelElimination.LevelElimination.SubVectorExtract | networkit/cpp/numerics/LAMG/Level/LevelElimination.h:113-120 | the result has one entry per element index, and entry i is vector[elements[i]] |
| LevelElimination.LevelElimination.CoarseType | networkit/cpp/numerics/LAMG/Level/LevelElimination.h:51-58 | the result has the coarse dimension, and entry i is xf[cIndexFine[i]] |
| LevelElimination.LevelElimination.Restrict | networkit/cpp/numerics/LAMG/Level/LevelElimination.h:60-78 | bStages has K+1 entries, starting with bf; each next entry is b restricted to C plus R times b restricted to F; bc is the last entry and has the coarse dimension when there is a stage |
| LevelElimination.LevelElimination.InterpolateStage | networkit/cpp/numerics/LAMG/Level/LevelElimination.h:84-109 | one stage of interpolation: a zero vector of the stage size, with P*x + q.*b_F written on the F-set and then x written on the C-set (later writes win) |
| LevelElimination.LevelElimination.ScatterInto | networkit/cpp/numerics/LAMG/Level/LevelElimination.h:97-107 | one write loop of a stage: x ends as its old value with vals[i] written at idx[i] for i in increasing order (later writes win) |
| LevelElimination.LevelElimination.Interpolate | networkit/cpp/numerics/LAMG/Level/LevelElimination.h:80-111 | applies the stage steps from the last stage to the first, starting from xc, and gives a vector of the finest dimension; with no stages xf is left as it was |
| LevelElimination.InterpolateStepOnC | networkit/cpp/numerics/LAMG/Level/LevelElimination.h:103-107 | with a repetition-free C-set, interpolation puts x[i] back at C-set position i |
| LevelElimination.InterpolateStepOnF | networkit/cpp/numerics/LAMG/Level/LevelElimination.h:89-101 | with a repetition-free F-set disjoint from the C-set, F-set position i holds (P*x)[i] + q[i]*b[F[i]] |
| LevelElimination.InterpolateStepElsewhere | networkit/cpp/numerics/LAMG/Level/LevelElimination.h:85 | positions outside both sets stay at the zero the fresh vector starts with |
| LevelElimination.LowerAtLift | networkit/cpp/numerics/LAMG/Level/LevelElimination.h:43-48 | each coarse value survives every interpolation stage at the fine index Lift assigns to it |
| LevelElimination.LevelElimination.InterpolateThenCoarseType | networkit/cpp/numerics/LAMG/Level/LevelElimination.h:51-58 | round trip: coarseType applied to interpolate(xc) gives back xc when every C-set is repetition-free |
| LinearSolver.LinearSolver.constructor | networkit/cpp/numerics/LinearSolver.h:39 | keeps the tolerance; nothing is set up and nothing has been solved |
| LinearSolver.LinearSolver.Setup | networkit/cpp/numerics/LinearSolver.h:46 | the recorded set-up is the given matrix, not marked connected |
| LinearSolver.LinearSolver.SetupConnected | networkit/cpp/numerics/LinearSolver.h:58 | the recorded set-up is the given matrix, marked connected |
| LinearSolver.LinearSolver.Solve | networkit/cpp/numerics/LinearSolver.h:74 | appends exactly one call (rhs, starting result, both budgets) to the call log, and returns the engine's status and solution for the current set-up and that call |
| LinearSolver.LinearSolver.SetupGraph | networkit/cpp/numerics/LinearSolver.h:89-92 | setting up for a graph is exactly setting up for its Laplacian matrix |
| LinearSolver.LinearSolver.SetupConnectedGraph | networkit/cpp/numerics/LinearSolver.h:94-97 | setting up connected for a graph is exactly setting up connected for its Laplacian |
| LinearSolver.LinearSolver.SolveDefault | networkit/cpp/numerics/LinearSolver.h:74 | solve with the default budgets (5*60*1000 ms, the largest 64-bit count) |
| LinearSolver.LinearSolver.ParallelSolve | networkit/cpp/numerics/LinearSolver.h:99-104 | one solve per right-hand side in index order with the given budgets; result i is the engine's answer for rhs[i] from the old result i; the remaining results are untouched |
| LinearSolver.LinearSolver.ParallelSolveDefault | networkit/cpp/numerics/LinearSolver.h:86 | parallelSolve with the default budgets |
| LinearSolver.LaplacianRowsSumToZero | networkit/cpp/numerics/LinearSolver.h:89-92 | every row of the Laplacian the graph set-up uses sums to zero |
| DynDijkstra.DynDijkstra.constructor | networkit/cpp/graph/DynDijkstra.cpp:18-21 | one WHITE colour per node id |
| DynDijkstra.DynDijkstra.Run | networkit/cpp/graph/DynDijkstra.cpp:23-31 | distances and path counts come from the static run; predecessors only when they are stored |
| DynDijkstra.DynDijkstra.Relax | networkit/cpp/graph/DynDijkstra.cpp:41-51 | when the path through v is no longer, u takes the shorter distance; a WHITE u is queued and turns BLACK, a BLACK u has its key decreased |
| DynDijkstra.UpdateQueueKeeps | networkit/cpp/graph/DynDijkstra.cpp:41-51 | a relaxation never raises a distance, only adds to the queue, and keeps every queued node BLACK |
| DynDijkstra.RelaxEventsKeeps | networkit/cpp/graph/DynDijkstra.cpp:53-60 | relaxing a whole batch keeps the queue bookkeeping and never raises a distance |
| DynDijkstra.DynDijkstra.RelaxBatch | networkit/cpp/graph/DynDijkstra.cpp:53-60 | both relaxations of every event in batch order; stops with failure exactly at the first event that is neither an edge addition nor a weight update, with the events before it applied; only the endpoints of the events before that one must be nodes |
| DynDijkstra.MinExists | networkit/cpp/graph/DynDijkstra.cpp:64 | a non-empty queue has an element of least key (ties: least node id) to extract |
| DynDijkstra.DynDijkstra.Process | networkit/cpp/graph/DynDijkstra.cpp:66-82 | clears the predecessors and path count of the extracted node, then scans its in-neighbours in order: a tight neighbour adds its path count (and becomes a predecessor), any other neighbour is relaxed via the node |
| DynDijkstra.DynDijkstra.ScanOne | networkit/cpp/graph/DynDijkstra.cpp:72-81 | a tight in-neighbour adds its path count to the node and, when stored, becomes a predecessor; any other in-neighbour is relaxed via the node |
| DynDijkstra.ScanEdgesPaths | networkit/cpp/graph/DynDijkstra.cpp:69-77 | on a graph without self-loops or repeated in-neighbours, the node's new path count is the sum of the path counts of its tight in-neighbours |
| DynDijkstra.ScanEdgesPreds | networkit/cpp/graph/DynDijkstra.cpp:66-75 | on such a graph, the stored predecessor list of the node becomes exactly its tight in-neighbours, in order |
| DynDijkstra.LastEdgeUntouched | networkit/cpp/graph/DynDijkstra.cpp:70-82 | scanning the other neighbours of a simple list leaves the node's distance and the last neighbour's distance and path count alone |
| DynDijkstra.ScanEdgesFrame | networkit/cpp/graph/DynDijkstra.cpp:70-82 | scanning changes distances only of scanned neighbours, and path counts and predecessors only at the extracted node |
| DynDijkstra.ScanEdgesKeeps | networkit/cpp/graph/DynDijkstra.cpp:70-82 | scanning keeps the queue bookkeeping and never raises a distance |
| DynDijkstra.DynDijkstra.ExtractAndProcess | networkit/cpp/graph/DynDijkstra.cpp:62-82 | extracts a least-key node; the new state is exactly that node leaving the queue, its path count and predecessors cleared and its in-neighbours scanned (`ProcessStep`); keeps the queue bookkeeping with that node counted as visited; other nodes keep their path counts and predecessors |
| DynDijkstra.DynDijkstra.DrainRound | networkit/cpp/graph/DynDijkstra.cpp:63-82 | one round of the drain loop extends the extraction order by a least-key node and the replayed state by that node's processing step |
| DynDijkstra.DynDijkstra.DrainQueue | networkit/cpp/graph/DynDijkstra.cpp:62-83 | while the queue is non-empty (within the fuel): sets mod, extracts a least-key node and processes it; the final state is the replay of those processing steps over the extracted nodes in order, each node a least element of the queue when it was extracted; stops with an empty queue or with the fuel used up; distances never rise; only extracted nodes change path counts or predecessors |
| DynDijkstra.MinUnique | networkit/cpp/graph/DynDijkstra.cpp:64 | the least (key, id) element of a queue is unique, so extraction is determined |
| DynDijkstra.MinOrderSnoc | networkit/cpp/graph/DynDijkstra.cpp:62-82 | extracting a least element after a valid extraction order gives a longer valid order whose replay is one more processing step |
| DynDijkstra.MinOrderUnique | networkit/cpp/graph/DynDijkstra.cpp:62-83 | two extraction orders of the same length from the same state that always take a least element are equal, so the drained state is determined by the state and the number of rounds |
| DynDijkstra.ReplayFrame | networkit/cpp/graph/DynDijkstra.cpp:66-82 | draining changes path counts and predecessor lists of the extracted nodes only |
| DynDijkstra.DynDijkstra.ResetColors | networkit/cpp/graph/DynDijkstra.cpp:85-90 | every visited node is WHITE again; every other node keeps its colour |
| DynDijkstra.DynDijkstra.Update | networkit/cpp/graph/DynDijkstra.cpp:33-92 | fails exactly on a batch with an event that is neither an addition nor a weight update, with the earlier events relaxed and nothing processed (only the endpoints of the accepted events must be nodes); on success the distances, path counts and predecessors are those of replaying the processing steps, in least-key extraction order, on the state the relaxed batch leaves; visited nodes end WHITE and the others keep the colour of that replay; distances never rise; mod is set iff a node was extracted; unvisited nodes keep path counts and predecessors; after a full drain no node is BLACK that was not BLACK before |
| DynDijkstra.FirstRejected | networkit/cpp/graph/DynDijkstra.cpp:53-55 | the position of the first event that is not accepted: every earlier one is accepted and that one is not |
| PartitionHubDominance.PartitionHubDominance.CountInternal | networkit/cpp/community/PartitionHubDominance.cpp:24-29 | counts the neighbours of a node that lie in the given subset |
| PartitionHubDominance.PartitionHubDominance.ClusterStats | networkit/cpp/community/PartitionHubDominance.cpp:15-36 | clusterSizes[c] is the number of nodes in subset c, and maxInternalDeg[c] the largest internal degree of a member of c (0 if none); nodes in no subset contribute nothing |
| PartitionHubDominance.PartitionHubDominance.Run | networkit/cpp/community/PartitionHubDominance.cpp:10-71 | values has one entry per subset id: 1 for a singleton, maxDeg/(size-1) for larger clusters, 0 for empty ids; unweightedAverage is the dominance sum over the non-empty ids divided by their number (NaN with none); weightedAverage is, as written, the last non-empty id's dominance times its size over the node count; maximum and minimum start at the lowest and largest double; hasRun ends true |
| PartitionHubDominance.MaxInternalDegIsMax | networkit/cpp/community/PartitionHubDominance.cpp:20-31 | the largest internal degree of a cluster bounds the internal degree of every member, is that of one member, and is 0 for an empty cluster |
| PartitionHubDominance.SizesAddUp | networkit/cpp/community/PartitionHubDominance.cpp:20-36 | the cluster sizes add up to the number of nodes that belong to some subset |
| PartitionHubDominance.ExtremesBound | networkit/cpp/community/PartitionHubDominance.cpp:43-44 | the maximum and minimum bound every non-empty id's dominance and are attained by one; with no non-empty id they stay the lowest and largest double |
| PartitionHubDominance.ValuesBetween | networkit/cpp/community/PartitionHubDominance.cpp:57-62 | every non-empty id's value lies between the minimum and the maximum |
| PartitionHubDominance.DominanceRange | networkit/cpp/community/PartitionHubDominance.cpp:52-55 | a dominance is never negative, and never above the largest internal degree (1 when that is 0) |
| PartitionHubDominance.DivCount | networkit/cpp/community/PartitionHubDominance.cpp:68-69 | dividing by a count is finite exactly when the count is positive, and NaN exactly for 0/0 |
| PartitionHubDominance.AsWrittenWeightedAverageBelowMinimum | networkit/cpp/community/PartitionHubDominance.cpp:59 | as written, two singleton clusters over two nodes give weighted average 1/2, below the smallest dominance 1 |
| PartitionHubDominance.IntendedWeightedAverageBetween | networkit/cpp/community/PartitionHubDominance.cpp:59 | the accumulated weighted average lies between the smallest and the largest dominance when every node belongs to a subset |
| AlgebraicTriangleCounting.AlgebraicTriangleCounting.constructor | networkit/cpp/algebraic/algorithms/AlgebraicTriangleCounting.h:26 | keeps the adjacency matrix and directedness; no scores, not run |
| AlgebraicTriangleCounting.AlgebraicTriangleCounting.Run | networkit/cpp/algebraic/algorithms/AlgebraicTriangleCounting.h:61-74 | old scores are replaced by one score per row: the diagonal of A*A*A, halved with truncation for undirected graphs; hasRun ends true |
| AlgebraicTriangleCounting.AlgebraicTriangleCounting.Score | networkit/cpp/algebraic/algorithms/AlgebraicTriangleCounting.h:38-42 | fails exactly when run has not completed, for any u; otherwise the score of u, for u below the number of rows |
| AlgebraicTriangleCounting.AlgebraicTriangleCounting.GetScores | networkit/cpp/algebraic/algorithms/AlgebraicTriangleCounting.h:49-53 | fails exactly when run has not completed; otherwise returns the scores, and moving out leaves them empty and unavailable while a copy keeps them available |
| AlgebraicTriangleCounting.CubeDiagonalIsClosedWalks | networkit/cpp/algebraic/algorithms/AlgebraicTriangleCounting.h:63 | entry (i, i) of A*A*A is the total weight of the closed walks i -> j -> k -> i |
| AlgebraicTriangleCounting.ClosedWalksAreTwiceTriangles | networkit/cpp/algebraic/algorithms/AlgebraicTriangleCounting.h:29-31 | in a simple undirected graph those closed walks number twice the triangles at i, each triangle counted once as a set of nodes |
| AlgebraicTriangleCounting.ScoresCountTriangles | networkit/cpp/algebraic/algorithms/AlgebraicTriangleCounting.h:68-71 | the score of an undirected simple graph's node is its number of triangles; a directed graph's is its number of closed 3-walks |
| SameCommunityIndex.SameCommunityIndex.Empty | networkit/cpp/linkprediction/SameCommunityIndex.cpp:13-14 | no graph and no communities |
| SameCommunityIndex.SameCommunityIndex.constructor | networkit/cpp/linkprediction/SameCommunityIndex.cpp:16-20 | the communities are those the detector finds on the given graph |
| SameCommunityIndex.SameCommunityIndex.SetGraph | networkit/cpp/linkprediction/SameCommunityIndex.cpp:22-27 | switches graph and replaces the communities by those detected on the new graph |
| SameCommunityIndex.SameCommunityIndex.RunImpl | networkit/cpp/linkprediction/SameCommunityIndex.cpp:29-31 | 1 exactly when u and v share a community, 0 exactly when they do not |
| SameCommunityIndex.Index | networkit/cpp/linkprediction/SameCommunityIndex.cpp:30 | the index is 0 or 1, and 1 exactly on pairs in the same community |
| SameCommunityIndex.IndexSymmetric | networkit/cpp/linkprediction/SameCommunityIndex.cpp:30 | index(u, v) = index(v, u) |
| SameCommunityIndex.IndexReflexive | networkit/cpp/linkprediction/SameCommunityIndex.cpp:30 | index(u, u) = 1 |
| SameCommunityIndex.IndexTransitive | networkit/cpp/linkprediction/SameCommunityIndex.cpp:30 | pairs scored 1 chain: index(u, v) = index(v, w) = 1 gives index(u, w) = 1 |

## Left out

- OpenMP parallel loops, `std::atomic`, `atomic_max` and `omp atomic`: every loop is sequential, because the parallel iterations are independent or are commutative updates.
- Floating point: doubles are `real`. There is no rounding. Only the NaN and infinity results of the final divisions in hub dominance are modelled.
- The 1e-6 tolerance test for tight in-neighbours in DynDijkstra is exact equality.
- Matrices, vectors, graphs, `EliminationStage`, Laplacian and adjacency construction are not part of this model. They are dense `seq` values and adjacency lists, and the Laplacian is the textbook one built from a square weight matrix.
- LinearSolver: the concrete engines (`setup`/`setupConnected` for a matrix, `solve`) are a function parameter, `engine`, of what was set up and of the call's arguments. Their numerics are not modelled, and neither is the status `parallelSolve` drops.
- LevelElimination.LevelElimination.constructor: requires every stage to be well shaped (index ranges, R, P and q dimensions) and not just the C-set chain the original asserts; the LAMG set-up builds stages that way, and restrict and interpolate need it.
- LevelElimination.LevelElimination.Interpolate: with no stages the original leaves `xf` as the caller passed it; the model takes that vector as an argument and returns it.
- DynDijkstra.DynDijkstra.DrainQueue: the drain loop runs at most `fuel` rounds. The original loop ends because weights are non-negative and shortest distances are finite, which is not proved here; the ensures say the queue is empty or the fuel is used up.
- DynDijkstra.DynDijkstra.Update: the drain loop is bounded by a `fuel` argument. The original loop ends because weights are non-negative and shortest distances are finite, which is not proved here; `drained` says whether the queue emptied.
- DynDijkstra.DynDijkstra.Update: does not state that the repaired distances are shortest distances, since that needs a model of the graph edit and of static Dijkstra; it states the invariants the queue keeps and that the final state is the replay of the per-node rebuild (`ProcessStep`) in least-key extraction order.
- DynDijkstra.ScanEdgesPaths: characterises path counts only for in-neighbour lists without self-loops and repeated neighbours.
- DynDijkstra.ScanEdgesPreds: characterises the rebuilt predecessor list only for in-neighbour lists without self-loops and repeated neighbours; a graph with a zero-weight self-loop or parallel in-edges is covered by `ScanEdges` itself but not by this closed form.
- DynDijkstra: `Aux::PrioQueue` is a map from node to key with least-key extraction (ties by node id); `decreaseKey` re-inserts the node, as the library's queue does. The static `Dijkstra` run is passed to `Run` as its result. Path counts are unbounded naturals.
- Exceptions are `Outcome`/`Result` values. The signal handler's interruption (`assureRunning`) in hub dominance is left out. So is the observable `hasRun == false` during a run that throws.
- PartitionHubDominance: the graph has nodes 0 .. n-1 with no deleted ids, so `numberOfNodes()` is the node count.
- AlgebraicTriangleCounting: edge weights are natural numbers, so `powA(i,i) / 2.0` stored into a `count` is natural division. A moved-from score vector is modelled as empty.
- SameCommunityIndex: the PLM community detector is a function parameter, `detect`. The base `LinkPredictor`'s node checks and its other state are not part of this model.

## Findings

| source | as written | input that shows it | evidently intended | confidence | as-written member | corrected member |
|---|---|---|---|---|---|---|
| networkit/cpp/community/PartitionHubDominance.cpp:59 | `weightedAverage = dominance * clusterSizes[i]` overwrites the running value, so the final weighted average is the last non-empty cluster's dominance times its size, divided by the node count | two nodes in two singleton clusters: both dominances are 1, the weighted average is 0.5 | `+=`, a size-weighted mean of the dominances, which lies between the smallest and largest dominance when every node is in a cluster | not executed | PartitionHubDominance.AsWrittenWeightedAverageBelowMinimum | PartitionHubDominance.IntendedWeightedAverageBetween |

`PartitionHubDominance.Run` keeps the assignment as the source writes it. The
accumulated version is `PartitionHubDominance.IntendedWeightedAverage`.
