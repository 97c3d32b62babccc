# Multi-resolution hierarchy of instant-meshes, in Dafny

This project models the combinatorial core of `MultiResolutionHierarchy`
from instant-meshes (`src/hierarchy.cpp`) and proves what it promises.

- **Graph coarsening (`downsample_graph`).**
  - One merge candidate is made per directed link, and the candidates are sorted by descending score.
  - A greedy pass accepts a maximal matching, compacted in place into the front of the candidate array.
  - The index maps `to_upper` (coarse to one or two finer vertices) and `to_lower` (fine to coarse) are built.
  - The coarse packed adjacency is built in two passes over a sorted scratch list: first counting neighbours, then prefix sums and writing the links with merged weights.
  - The coarse positions, normals and areas are filled in.
- **Graph colouring.**
  - The sequential colouring `generate_graph_coloring_deterministic` is first-fit greedy colouring in a given order, bucketed into phases.
  - The concurrent colouring `generate_graph_coloring` is modelled as one worker that runs the whole range. It has 8-bit colours, a per-worker `ColorData` tally with its cap of 254 colours, the swap-built visiting order and the `ColorData` merge of `parallel_reduce`.
- **The hierarchy object.**
  - The class has its constructor, `build`, `clearConstraints`, `propagateSolution` and `propagateConstraints`.
  - `build` appends one level per pass until `MAX_DEPTH` passes or a one-vertex level.
  - The propagations overwrite each coarser level's orientation field or constraints from its one or two finer constituents. They check the symmetry orders first.

The model follows the source's own form:
- Most arrays that are updated in place are Dafny arrays: the candidate array of the greedy pass, `mergeFlag`, the index maps, the coarse link buffer written through `dest`, the colour arrays of both colourers, and the concurrent colourer's `possible` array and visiting order.
- Two in-place buffers are sequences that each step reassigns: the sequential colourer's `possible_colors` and the `neighborhoodSize` prefix sums.
- Loops are `while`/`for` loops with invariants.
- `MultiResolutionHierarchy` is a class whose methods update its fields.

Each method is proved against a specification function: greedy matching (`Greedy`), first-fit colouring (`FirstFit`), phase bucketing (`PhasesUpTo`), merged link lists (`MergedLinks`), propagated orientations (`SolutionAt`) and propagated constraints (`OrientationPin`, `PositionPin`). Lemmas then state what those functions guarantee:
- a maximal, vertex-disjoint matching;
- index maps that are mutual inverses;
- strictly ascending, loop-free coarse lists whose weights are sums of fine weights;
- proper colourings with at most D+1 colours;
- phases that partition the vertices;
- a merge that is commutative, associative and has the empty tally as identity;
- conserved total area;
- constraint weights that act as presence flags.

Floating-point geometry is abstracted:
- The merge score, the area-weighted pooling, the transport operators `compat_orientation_extrinsic_*` and `compat_position_extrinsic_*`, normalisation and the `RCPOVERFLOW` threshold are function-valued parameters.
- Weights and areas are `real`.

The random orders are parameters:
- `pcg32` with its default seed makes the sequential colourer's shuffle and the concurrent colourer's draws functions of the level size only.
- The model receives them as `shuffle` and `draws`. It requires that the shuffle is a permutation and that each draw `k` at step `i` satisfies `i <= k < size`.

Notes on the code:
- **Colour cap.** Only the concurrent colourer has a cap. It throws when it needs a new colour while 254 are open (`nColors == INVALID_COLOR-1`, src/hierarchy.cpp:352), so it uses at most 254 colours. The sequential colourer has no cap.
- **Failed build.** A failing colouring during `build` does not roll back: the levels pushed so far stay.
- **No-level case.** `propagateConstraints` returns before it checks the symmetry orders when there are no levels, so there it never fails.
- **Position adjustment.** The adjustment of a propagated position constraint (src/hierarchy.cpp:682) subtracts `n.dot(cq - v) * n`, using the orientation constraint `cq`. It is modelled as written.

## Model

| member | source | states |
|---|---|---|
| Graph.WeightToPermutation | src/hierarchy.cpp:150 | the total weight of links to a vertex does not depend on their order |
| Sorting.SortBy | src/hierarchy.cpp:63-66 | the sorted sequence is ordered by the key and has the input's length |
| Sorting.SortByPermutes | src/hierarchy.cpp:63-66 | sorting is a permutation of its input |
| Sorting.InsertStable | src/hierarchy.cpp:63-64 | insertion keeps the order among elements of each key and puts the new element before the elements of its key |
| Sorting.SortByStable | src/hierarchy.cpp:63-64 | the sort is stable: for every key, the elements with that key keep their input order, as `pss::parallel_stable_sort` promises |
| Matching.SortEntries | src/hierarchy.cpp:30-66 | under the inverted `Entry::operator<`, the candidates come out in non-increasing score order and no candidate is lost or added |
| Matching.WriteRow | src/hierarchy.cpp:46-55 | the candidates of vertex i fill exactly its slice of the link layout, and nothing before it changes |
| Matching.CollectEntries | src/hierarchy.cpp:43-58 | the candidate array is the per-vertex candidate list laid out like the link buffer, one per link |
| Matching.EntriesAreLinks | src/hierarchy.cpp:47-54 | every candidate is a link (i, j) of the graph, and every link of a vertex below i has a candidate |
| Matching.GreedyDisjoint | src/hierarchy.cpp:68-77 | the accepted pairs are pairwise vertex-disjoint and each was unclaimed when accepted |
| Matching.GreedyClaims | src/hierarchy.cpp:68-77 | a vertex is flagged exactly when it was flagged before or lies in an accepted pair |
| Matching.GreedyCount | src/hierarchy.cpp:68-77 | each accepted pair raises the number of flagged vertices by exactly two |
| Matching.GreedyIsMaximal | src/hierarchy.cpp:68-77 | afterwards every candidate has a flagged endpoint, and flags are never cleared, so the matching is maximal |
| Matching.GreedyMatching | src/hierarchy.cpp:68-78 | starting unclaimed, the result is a matching; it is non-empty when there is a candidate; and `2*nCollapsed <= V.cols()` |
| Matching.GreedyMatch | src/hierarchy.cpp:68-77 | the in-place pass leaves exactly the greedy matching in `entries[0..nCollapsed)` and the greedy flags in `mergeFlag` |
| Downsample.PlacePairs | src/hierarchy.cpp:87-107 | column c of `to_upper` is the c-th accepted pair, and both its vertices map to c in `to_lower` |
| Downsample.CarryOver | src/hierarchy.cpp:111-131 | every unflagged vertex gets its own column from `nCollapsed` on, in ascending fine order, and maps back to it |
| Downsample.BuildIndexMaps | src/hierarchy.cpp:78-131 | the maps are mutual inverses with `V.cols() - nCollapsed` columns; pairs come first, carried-over vertices after them in ascending order; a vertex is merged exactly when it was flagged |
| Downsample.MatchVertices | src/hierarchy.cpp:38-77 | the accepted pairs and the merge flags are exactly the result of the greedy pass over the candidate pairs sorted by descending score; the pairs form a matching of graph links that covers an endpoint of every link, and it is non-empty when the graph has a link |
| Downsample.DownsampleGraph | src/hierarchy.cpp:24-208 | coarse size `n - nCollapsed` with `2*nCollapsed <= n`; mutually inverse maps whose first `nCollapsed` columns are, in order, the pairs the greedy pass over the candidates sorted by descending score accepted, each a pair of neighbours; carried-over vertices after them in ascending order; a maximal matching; a well-formed, loop-free coarse adjacency whose lists are the merged coarse lists |
| Downsample.CollapseMatching | src/hierarchy.cpp:26-118 | the first half of the downsampling: coarse size `n - nCollapsed`; inverse index maps whose first `nCollapsed` columns are the greedy pairs in acceptance order, each a pair of neighbours, followed by the carried-over vertices in ascending order; every fine link has a merged endpoint |
| Downsample.CoarseLoopFree | src/hierarchy.cpp:188-200 | no coarse vertex links to itself |
| Downsample.MergedIsClaimed | src/hierarchy.cpp:87-131 | a column holds two vertices exactly when it is a pair column, and a fine vertex shares its column exactly when it was flagged |
| Downsample.Pooled | src/hierarchy.cpp:91-120 | a coarse vertex's area is the sum of its constituents' areas, and a carried-over vertex is an exact copy |
| Downsample.CoarseSamples | src/hierarchy.cpp:81-119 | `V_p`, `N_p` and `A_p` have one entry per column, each the pooled sample of that column |
| Downsample.AreaConserved | src/hierarchy.cpp:91-120 | the total area of the coarse level equals that of the fine level |
| CoarseAdjacency.AppendRemapped | src/hierarchy.cpp:146-147 | appends the links of a fine vertex with their targets sent through `to_lower` |
| CoarseAdjacency.GatherScratch | src/hierarchy.cpp:140-148 | the scratch list is the remapped links of the column's one or two vertices |
| CoarseAdjacency.MergedAscending | src/hierarchy.cpp:188-200 | merging a list sorted by id gives a strictly ascending list |
| CoarseAdjacency.MergedIds | src/hierarchy.cpp:188-200 | the merged list's ids are exactly the scratch ids other than the coarse vertex itself |
| CoarseAdjacency.MergedWeights | src/hierarchy.cpp:188-200 | each merged link's weight is the sum of the weights of all scratch links to that id |
| CoarseAdjacency.CountDistinct | src/hierarchy.cpp:151-157 | the first pass counts exactly the links the second pass writes |
| CoarseAdjacency.WriteMerged | src/hierarchy.cpp:189-199 | writing through `dest` with `dest[-1].weight +=` puts the merged list in its slot and leaves the rest of the buffer alone |
| CoarseAdjacency.ScratchIsRemap | src/hierarchy.cpp:140-148 | the scratch list is the constituents' links remapped through `to_lower` |
| CoarseAdjacency.MergedScratchIsCoarse | src/hierarchy.cpp:133-204 | sorting then merging a scratch list gives the coarse list: strictly ascending, no self-link, the targets of the constituents' links, summed weights |
| CoarseAdjacency.MergedScratchWeights | src/hierarchy.cpp:186-199 | the weight of coarse link (c, d) is the total weight of fine links from c's constituents into d |
| CoarseAdjacency.NeighborhoodSize | src/hierarchy.cpp:140-158 | the count for coarse vertex i is its coarse degree |
| CoarseAdjacency.NeighborhoodSizes | src/hierarchy.cpp:133-162 | entry c+1 of `neighborhoodSize` is coarse vertex c's degree |
| CoarseAdjacency.PrefixSums | src/hierarchy.cpp:164-166 | the in-place prefix sums start at 0, step by each count and never decrease |
| CoarseAdjacency.CoarseOffsets | src/hierarchy.cpp:133-166 | the offsets start at 0 and differ by each coarse vertex's degree |
| CoarseAdjacency.WriteCoarseList | src/hierarchy.cpp:177-200 | the slot of coarse vertex i receives its coarse list, and everything before it is unchanged |
| CoarseAdjacency.CoarseLinks | src/hierarchy.cpp:168-204 | the link buffer has `nLinks_p` entries, each offset slice is its vertex's coarse list, and every id is a coarse vertex |
| CoarseAdjacency.BuildCoarseAdjacency | src/hierarchy.cpp:133-204 | the coarse adjacency is well formed and each vertex's neighbours are its coarse list |
| CoarseAdjacency.ColumnsAtMostFine | src/hierarchy.cpp:78 | a coarse level never has more vertices than the fine one |
| Coloring.NeighborLists | src/hierarchy.cpp:236 | the per-vertex neighbour lists of a packed adjacency |
| Coloring.FirstFree | src/hierarchy.cpp:242-254 | the chosen colour lies within the open colours or is the next new one, and is not used by a neighbour |
| Coloring.FirstFreeLeast | src/hierarchy.cpp:242-248 | every colour below the chosen one is used by a neighbour |
| Coloring.StepIsFirstFit | src/hierarchy.cpp:234-257 | a vertex gets the smallest colour its coloured neighbours do not use, and a new colour opens only when all open ones are used |
| Coloring.FirstFitPainted | src/hierarchy.cpp:230-258 | after i steps exactly the first i vertices of the order are coloured, all within `[0, ncolors)`, with at most i colours |
| Coloring.FirstFitProper | src/hierarchy.cpp:230-258 | on symmetric adjacency no two neighbours share a colour |
| Coloring.FirstFitUsesAll | src/hierarchy.cpp:250-257 | every open colour is held by some vertex |
| Coloring.FirstFitColorBound | src/hierarchy.cpp:230-258 | with degrees at most D, at most D+1 colours are used; there is no other cap |
| Coloring.PhasesPartition | src/hierarchy.cpp:259-263 | `phases[c]` holds exactly the vertices of colour c, in ascending order, and is non-empty when c is held |
| Coloring.MarkUsed | src/hierarchy.cpp:234-240 | a colour stays possible exactly when no neighbour holds it |
| Coloring.FirstPossible | src/hierarchy.cpp:242-248 | the first possible colour, or -1 when none is possible |
| Coloring.ColorVertex | src/hierarchy.cpp:230-257 | one loop iteration is one first-fit step on the colour array |
| Coloring.ColorGraphDeterministic | src/hierarchy.cpp:210-267 | the phases are the buckets of the first-fit colouring in the given order |
| Coloring.BucketByColor | src/hierarchy.cpp:259-263 | the buckets are the vertices of each colour, in ascending order |
| Coloring.BucketsArePhases | src/hierarchy.cpp:259-263 | bucketing a proper colouring gives non-empty, disjoint, ascending phases that cover every vertex and hold no two neighbours |
| Coloring.DeterministicPhases | src/hierarchy.cpp:210-267 | on symmetric adjacency with degrees at most D, the sequential colourer's phases are valid phases, at most D+1 of them |
| ParallelColoring.Reach | src/hierarchy.cpp:332-342 | the widening loop opens colours up to one past every neighbour's colour, never beyond the cap |
| ParallelColoring.WorkerStep | src/hierarchy.cpp:320-360 | a successful step colours the vertex with a valid byte and keeps the tally sized |
| ParallelColoring.StepMirrors | src/hierarchy.cpp:320-360 | the worker's step fails exactly when first fit would need a 255th colour, and otherwise matches the first-fit step, tallies included |
| ParallelColoring.StruckIsUsed | src/hierarchy.cpp:332-342 | the colours a worker strikes are exactly those its neighbours use |
| ParallelColoring.Strike | src/hierarchy.cpp:333-341 | one link widens the tally as needed and strikes the neighbour's colour |
| ParallelColoring.Scan | src/hierarchy.cpp:330-342 | after the link loop, a colour below `nColors` is possible exactly when no neighbour holds it |
| ParallelColoring.Choose | src/hierarchy.cpp:344-360 | picks the first possible colour or opens one, failing exactly where the worker step fails, and changes nothing on failure |
| ParallelColoring.ColorOne | src/hierarchy.cpp:320-363 | one vertex of the worker loop is one worker step |
| ParallelColoring.Advance | src/hierarchy.cpp:319-364 | after vertex `pidx` the colours and tally mirror first fit in the shuffled order, or the run fails because first fit needs more than 254 colours |
| ParallelColoring.ColorRange | src/hierarchy.cpp:315-367 | the worker succeeds exactly when first fit needs at most 254 colours, and then mirrors it |
| ParallelColoring.Merged | src/hierarchy.cpp:368-377 | the merge has the larger `nColors` of its operands |
| ParallelColoring.Merge | src/hierarchy.cpp:368-377 | the join lambda computes the merge |
| ParallelColoring.MergeIdentity | src/hierarchy.cpp:368-377 | `ColorData()` is the identity of the merge |
| ParallelColoring.MergeCommutes | src/hierarchy.cpp:368-377 | the merge is commutative |
| ParallelColoring.MergeAssociates | src/hierarchy.cpp:368-377 | the merge is associative |
| ParallelColoring.MergeTotal | src/hierarchy.cpp:368-377 | the merged tally counts every vertex of both operands |
| ParallelColoring.ShuffledIsPermutation | src/hierarchy.cpp:297-307 | the random swaps keep `perm` a permutation |
| ParallelColoring.Shuffle | src/hierarchy.cpp:286-309 | the swap loop builds the shuffled permutation |
| ParallelColoring.ColorGraph | src/hierarchy.cpp:269-389 | the order is a permutation; the run fails exactly when first fit in that order needs a 255th colour; otherwise the phases are first fit's buckets |
| ParallelColoring.EnoughColors | src/hierarchy.cpp:351-354 | with fewer than 254 neighbours per vertex, the "ran out of colors" error cannot occur |
| Propagation.ParseRoSy | src/hierarchy.cpp:545-553 | 2, 4 and 6 are accepted and every other order is refused |
| Propagation.ParsePoSy | src/hierarchy.cpp:610-616 | 3 and 4 are accepted and every other order is refused |
| Propagation.ParseOrders | src/hierarchy.cpp:600-616 | every symmetry order is accepted as itself |
| Propagation.SolutionOfSingle | src/hierarchy.cpp:573-585 | a carried-over vertex takes its constituent's orientation, moved into the tangent plane, and the transport operator is not used |
| Propagation.TangentIsTangent | src/hierarchy.cpp:581-584 | an orientation left unnormalised lies in the tangent plane of the coarse normal |
| Propagation.SourcesOf | src/hierarchy.cpp:642-645 | no constituent is weighted exactly when both weights are zero, and "both" needs a second constituent |
| Propagation.UnconstrainedStaysZero | src/hierarchy.cpp:639-697 | a coarse vertex with no weighted constituent gets a zero value and weight 0 for both constraints |
| Propagation.OrientationOfSingle | src/hierarchy.cpp:647-689 | with one weighted constituent, its orientation constraint is copied (moved into the tangent plane if non-zero) and its weight is copied and clamped |
| Propagation.PositionOfSingle | src/hierarchy.cpp:665-691 | with one weighted constituent, its position constraint is copied and adjusted along the normal, and the weight becomes 1 |
| Propagation.OrientationWeightIsPresence | src/hierarchy.cpp:642-689 | with non-negative weights, the coarse orientation weight is 1 exactly when some constituent is weighted, and 0 otherwise |
| Propagation.PositionWeightIsPresence | src/hierarchy.cpp:665-691 | the coarse position weight is 1 exactly when some constituent is weighted, and 0 otherwise |
| Propagation.PositionOfPair | src/hierarchy.cpp:672-691 | when both constituents are constrained and the operator places both at the same non-zero point, the result is that point moved along the coarse normal by the offset of `cq` from the coarse position, with weight 1 |
| Propagation.SolveLevel | src/hierarchy.cpp:564-589 | every coarse orientation is overwritten with the solution propagated from its column |
| Propagation.ConstrainVertex | src/hierarchy.cpp:638-697 | a coarse vertex gets the orientation pin and then the position pin computed with it, and the position weight is 0 or 1 |
| Propagation.ConstrainLevel | src/hierarchy.cpp:634-700 | every coarse vertex's constraints are the ones its column determines, and position weights stay non-negative |
| LevelStack.Order | src/hierarchy.cpp:286-309 | the colouring order has one in-range entry per vertex |
| LevelStack.OrderIsPermutation | src/hierarchy.cpp:286-309 | the colouring order of either mode is a permutation |
| LevelStack.StackPush | src/hierarchy.cpp:445-452 | pushing a level keeps the parallel sequences equal in length, with one fewer index map, and adds its size to the total size |
| LevelStack.DownsampledPush | src/hierarchy.cpp:436-452 | pushing the downsampled level keeps every level the coarsening of the one below it |
| LevelStack.ScheduledPush | src/hierarchy.cpp:440-446 | pushing the level's phases keeps every level's phases its colouring schedule |
| LevelStack.BuiltBase | src/hierarchy.cpp:413-421 | level 0 with its phases is a built stack |
| LevelStack.BuiltPush | src/hierarchy.cpp:436-456 | one pass of build keeps the stack built |
| LevelStack.ColourablePush | src/hierarchy.cpp:440-456 | pushing a level the mode's colourer accepts keeps every level of the stack one that colourer accepts |
| Hierarchy.NextLevel | src/hierarchy.cpp:436-438 | the next level is the coarsening of the top level, with its pooled samples and index maps |
| Hierarchy.ColorLevel | src/hierarchy.cpp:415-443 | the sequential colourer always succeeds; the concurrent one fails exactly when a 255th colour is needed (`Overflows`); on success the phases are the level's schedule |
| Hierarchy.Unset | src/hierarchy.cpp:422-456 | one empty constraint entry per level |
| Hierarchy.Pass | src/hierarchy.cpp:430-458 | the level computed is the downsampling of the top level; the pass fails exactly when the concurrent colourer needs a 255th colour for it, and then leaves the stack as it was; otherwise it pushes that level's adjacency and positions above the unchanged positions of the lower levels, and keeps the stack built and colourable, with level 0 untouched |
| Hierarchy.Deepen | src/hierarchy.cpp:429-459 | the passes keep the stack built and colourable, run at least once and at most `MAX_DEPTH` times, and stop at a pushed one-vertex level or at the bound; a failure comes from a pass before the bound whose downsampled top level needs a 255th colour; no earlier coarse level has one vertex |
| Hierarchy.BuildStack | src/hierarchy.cpp:413-459 | colours level 0 and runs the passes; nothing is pushed exactly when level 0 needs a 255th colour in concurrent mode; any later failure is a pass's, as for `Deepen`; a successful build with `MAX_DEPTH > 0` has at least two levels |
| Hierarchy.SolveLevels | src/hierarchy.cpp:557-590 | from level 0 up, each coarser orientation field is propagated from the one below it, and level 0 is kept |
| Hierarchy.ConstrainLevels | src/hierarchy.cpp:620-701 | from level 0 up, each coarser level's constraints are propagated from the one below it, level 0 is kept and position weights stay non-negative |
| Hierarchy.ConstrainedPush | src/hierarchy.cpp:620-701 | overwriting level l+1 with the constraints that level l determines keeps every propagation step below it and adds the step from level l |
| Hierarchy.Zeros | src/hierarchy.cpp:539-540 | a zeroed weight vector of the level's size |
| Hierarchy.Resized | src/hierarchy.cpp:535-536 | a resized constraint matrix has the level's size and keeps its contents when the size is unchanged |
| Hierarchy.MultiResolutionHierarchy.constructor | src/hierarchy.cpp:391-410 | no levels, iterations -1, zero scale and total size, nothing frozen |
| Hierarchy.MultiResolutionHierarchy.Build | src/hierarchy.cpp:412-463 | the built stack with equal-length parallel sequences, one fewer index map, total size the sum of the level sizes, at least one and at most `MAX_DEPTH` passes stopping at a one-vertex level, and empty constraints; it fails only in concurrent mode and exactly when level 0 or the downsampled top level needs a 255th colour; iterations and freeze flags are reset on success and unchanged on failure |
| Hierarchy.MultiResolutionHierarchy.Install | src/hierarchy.cpp:445-461 | stores the level stack with one empty constraint entry per level; resets iterations and freeze flags after a finished build and leaves them as they were after a failed one |
| Hierarchy.MultiResolutionHierarchy.ClearConstraints | src/hierarchy.cpp:529-542 | with no levels nothing changes; otherwise every level's constraints are resized to its size with all weights zero |
| Hierarchy.MultiResolutionHierarchy.PropagateSolution | src/hierarchy.cpp:544-592 | an unsupported rosy fails before anything changes; otherwise every coarser level's orientations are propagated from the one below it |
| Hierarchy.MultiResolutionHierarchy.PropagateConstraints | src/hierarchy.cpp:594-703 | with no levels it succeeds and changes nothing; an unsupported rosy or posy fails before anything changes; otherwise every coarser level's constraints are propagated and its position weights are 0 or 1 |

## Left out

- Concurrency: the TBB `parallel_for` and `parallel_reduce` range splitting, the `spin_mutex` locking of sorted neighbourhoods (src/hierarchy.cpp:304-305 for the swap pairs of the shuffle, 322-328 and 362-363 for the neighbourhoods) and the atomic offset counter are modelled as one sequential loop each. The model does not capture interleavings between workers.
- ParallelColoring.ColorGraph: one worker colours the whole range, so its result is the sequential one. Interleavings of several workers, and a tally merged from several workers' partial counts, are not modelled; the merge is proved commutative and associative on its own.
- Downsample.CarryOver: in both modes carried-over vertices are numbered in ascending fine order. In the concurrent mode the atomic counter makes that order arbitrary.
- Downsample.DownsampleGraph: requires a loop-free fine graph (`LoopFree`, and `LevelOk` for level 0 of the hierarchy). The source does not check this. A self link (i,i) passes the greedy test as a pair, flags one vertex and still counts one collapse (src/hierarchy.cpp:70-76). Then `vertexCount = V.cols() - nCollapsed` (src/hierarchy.cpp:78) leaves one column too few, and the carried-over copy (src/hierarchy.cpp:111-118) writes column `vertexCount`, past the end of the coarse matrices. Coarser levels need no such requirement: `Downsample.CoarseLoopFree` proves that every coarse adjacency the model builds is loop free.
- Sorting.SortBy: one stable insertion sort stands for `std::sort`, `tbb::parallel_sort` and `pss::parallel_stable_sort`. Order, permutation and stability are proved, but the arbitrary order of equal scores that the unstable concurrent-mode sort may produce is not modelled.
- `Link::operator<` is defined in `hierarchy.h`, which is not part of this model. Links are sorted by id, which the deduplicating loops at src/hierarchy.cpp:151-157 and 190-199 rely on.
- `pcg32` (`shuffle`, `advance`, `nextUInt`) is not part of this model. The colouring orders are the parameters `shuffle` and `draws`, and only their ranges are assumed.
- Floating point: the merge score (src/hierarchy.cpp:51-53), the area-weighted pooling with its `RCPOVERFLOW` fallbacks (src/hierarchy.cpp:92-100), and normalisation and projection are function parameters or real arithmetic. Rounding is not modelled.
- The transport operators `compat_orientation_extrinsic_*` and `compat_position_extrinsic_*` come from `field.h`, which is not part of this model. They are parameters. `inv_scale` is left to the position operator, which receives the scale.
- Propagation.PositionPin: requires non-negative position weights. The source divides by the sum of two non-zero weights, and with weights of opposite sign that sum can be zero.
- Integer widths: the 32-bit ids and counts are unbounded naturals. The model requires fewer than `INVALID` (2^32-1) vertices per level, so the sentinel never collides with an id. The 8-bit colour bytes are modelled exactly.
- `MAX_DEPTH` is defined in `hierarchy.h`, which is not part of this model. It is the parameter `maxDepth` of Build.
- Eigen's `resize` leaves new contents unspecified. Hierarchy.Resized keeps the contents when the size is unchanged and otherwise gives a zero-filled matrix.
- The `sizeof(Link) != 12` check in the constructor and the `reserve` calls have no counterpart in the model.
- Logging, `Timer`, progress callbacks and `printStatistics` are not modelled. Neither are `free`, `resetSolution`, `init_random_tangent` and `init_random_position`, which lie outside the modelled operations.
- Exceptions are `Result` values: `Failure(OutOfColors)` and `Failure(UnsupportedSymmetry)`.
- The parallel member vectors are grouped into value types: `mPhases`, `mAdj`, `mV`, `mN`, `mA`, `mToUpper`, `mToLower` and `mTotalSize` form `Levels`, and `mCQ`, `mCQw`, `mCO` and `mCOw` form `Constraints`. `levels()` is the number of position matrices, and `size(i)` is the vertex count of level i.
