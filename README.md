# TinyInfiniTensor planning core in Dafny

This project models the planning layer of TinyInfiniTensor, a small deep-learning inference
framework. It covers four pieces:

- the offset allocator (`Allocator`) that plans one arena for all tensors of a graph;
- the computation graph (`GraphObj`), with:
  - operator wiring;
  - the sweep-based topological sort;
  - the structural validity check;
  - the two rewrite rules of `optimize`: removing inverse Transpose pairs, and folding a
    last-two-axes Transpose into a MatMul's `transA`/`transB`;
  - shape inference;
  - memory planning (`dataMalloc`);
- output-shape inference of MatMul;
- output-shape inference of Concat.

Every operation is modelled twice:

- as a function on a state value, about which the lemmas are proved;
- in the form the source takes, where the source works by changing state: the classes
  `Allocation.Allocator` and `Graphs.Graph`, whose methods update fields in place. Each method
  is proved to perform exactly the value-level step, so every lemma about the step holds of the
  object.

Layout:

| file | module | contents |
|---|---|---|
| common.dfy | Common | `Option`, shapes, sequence helpers (first-occurrence removal, replace) |
| arena.dfy | Arena | allocator state as a value; `alloc`, `free`, `getPtr` steps; allocator invariants |
| allocator.dfy | Allocation | the `Allocator` class with its first-fit loop, tail-retreat loop and coalescing |
| net.dfy | Net | graph state (ID-keyed tensor and operator records, the `tensors`/`ops` lists); `checkValid`, `getTensor` |
| wiring.dfy | Wiring | `addTensor` and `addOperatorAndConnect` as functions, and what they wire |
| edits.dfy | Edits | the elementary record edits used by `optimize` (targets, sources, preds/succs, inputs) |
| topo.dfy | Topo | `topo_sort`: sweeps, success and failure, ordering |
| permute.dfy | Permute | transpose shapes, `shouldSwap`, the inverse-permutation test |
| pairs.dfy | Pairs | rule 1 of `optimize` (inverse Transpose pairs) |
| fusion.dfy | Fusion | rule 2 of `optimize` (Transpose into MatMul) and `optimize` as a whole |
| matmul.dfy | Matmul | `MatmulObj::inferShape` |
| concat.dfy | Concat | `ConcatObj::inferShape` (loop) against its declarative rule |
| planning.dfy | Planning | `shape_infer` and `dataMalloc` as functions |
| order.dfy | Order | what the rewrites of `optimize` do to the order of `ops`: a list in input order stays in input order, so the `sorted` flag they keep stays true of the list |
| validity.dfy | Validity | what the two rewrite rules do to `checkValid`: two graphs they leave invalid, and the conditions under which each keeps a valid graph valid |
| graph.dfy | Graphs | the `Graph` class: every graph operation as a method over its fields |

## Model

| member | source | states |
|---|---|---|
| Arena.AlignedSize | src/core/allocator.cc:124-126 | the aligned size is a multiple of 8, at least the request and less than 8 above it; it is 0 exactly for a zero request, as the `size_t` wrap-around makes it |
| Arena.LowerBound | src/core/allocator.cc:93-95 | the position of a key in the ordered free map: every entry before it has a smaller address, the entry at it does not |
| Arena.Put | src/core/allocator.cc:93 | `freeBlocks[addr] = size` places the block at its lower-bound position |
| Arena.FirstFitFrom | src/core/allocator.cc:35-39 | the first free block from position i whose size holds the request; every block before it is too small; None means no block from i fits |
| Arena.AllocStep | src/core/allocator.cc:22-57 | `alloc` fails exactly after realisation or for a zero request; otherwise `used` grows by the aligned size; when no free block fits, the offset is the old `peak`, which grows by the aligned size, and the free map is unchanged |
| Arena.AllocIsFirstFit | src/core/allocator.cc:35-49 | when some free block fits, `alloc` keeps `peak` and returns the address of a fitting free block that is the lowest of all fitting ones |
| Arena.CarveForm | src/core/allocator.cc:40-45 | the chosen block is removed when it fits exactly; otherwise its remainder stays free at `blockAddr + size` |
| Arena.FreeStep | src/core/allocator.cc:59-114 | `free` fails exactly after realisation, for a zero size, past `peak`, or when fewer bytes are in use; otherwise `used` drops by the aligned size; a tail free lowers `peak` to at most `addr`; any other free keeps `peak` |
| Arena.RetreatLowers | src/core/allocator.cc:75-87 | the tail retreat never raises `peak` |
| Arena.RetreatOnce | src/core/allocator.cc:78-86 | the retreat drops the last free block exactly when it ends at `peak`, and stops otherwise |
| Arena.CoalesceForm | src/core/allocator.cc:92-113 | a non-tail free replaces the new block, together with a touching successor and a touching predecessor, by one merged block |
| Arena.MergeNextForm | src/core/allocator.cc:97-102 | the new block absorbs its successor exactly when the successor starts where the block ends |
| Arena.MergePrevForm | src/core/allocator.cc:104-113 | the predecessor absorbs the block exactly when the predecessor ends where the block starts |
| Arena.StepsKeepAscending | src/core/allocator.cc:35-113 | `alloc` and `free` keep the free map's keys strictly ascending |
| Arena.AllocExtendTracks | src/core/allocator.cc:52-56 | with no fitting block, the new block at the old `peak` is disjoint from every live and free block, and the allocator invariant holds with it added to the live blocks |
| Arena.AllocFitTracks | src/core/allocator.cc:35-49 | carving a fitting free block keeps the allocator invariant, with the carved block added to the live blocks |
| Arena.AllocKeepsTracks | src/core/allocator.cc:22-57 | under correct use, `alloc` succeeds, returns an aligned offset, and keeps free blocks separated, disjoint from live ones, none ending at `peak`, with `used` equal to the live bytes |
| Arena.FreeInsideTracks | src/core/allocator.cc:92-113 | freeing a live block that is not the tail records it, coalesced, and keeps the invariant without that block |
| Arena.FreeTailTracks | src/core/allocator.cc:75-89 | freeing the live block at the tail retreats `peak` and keeps the invariant without that block |
| Arena.FreeKeepsTracks | src/core/allocator.cc:59-114 | under correct use, freeing any live block succeeds and keeps the invariant without that block |
| Arena.NothingUsedMeansEmpty | src/core/allocator.cc:59-114 | under the invariant, `used == 0` forces `peak == 0` and an empty free map |
| Arena.FreeEverything | src/core/allocator.cc:59-114 | freeing every live allocation, in any order, returns the allocator to its initial state |
| Arena.TailFreeRetreatsPastFreeBlocks | src/core/allocator.cc:75-89 | alloc 16, 16, 16, free the second (a free block), free the third: `peak` retreats past the free block to 16 and the free map empties |
| Arena.TailFreeThenAllocStartsOver | src/core/allocator.cc:52-56 | alloc 32, free it, alloc 16: the free is a tail free, so the arena is empty again and the new block starts at 0 by growing `peak` |
| Arena.FreedBlockIsReused | src/core/allocator.cc:35-49 | a freed block below a live one is reused first-fit and its remainder stays free |
| Allocation.Allocator.constructor | src/core/allocator.cc:5-14 | a new allocator has nothing used, `peak` 0, no free blocks, and is not realised |
| Allocation.Allocator.Alloc | src/core/allocator.cc:22-57 | the first-fit loop performs exactly `AllocStep`, returning its offset; on a failed assertion nothing changes |
| Allocation.Allocator.TakeBlock | src/core/allocator.cc:39-48 | taking the first fitting block performs exactly `AllocStep` |
| Allocation.Allocator.Free | src/core/allocator.cc:59-114 | the tail-retreat loop and the coalescing perform exactly `FreeStep`; on a failed assertion nothing changes |
| Allocation.Allocator.GetPtr | src/core/allocator.cc:116-122 | the first call requests `peak` bytes once and returns the runtime's base; later calls return the same base and request nothing; sizes are untouched |
| Allocation.InsertFree | src/core/allocator.cc:92-113 | writing and coalescing the block gives exactly `Reinsert` and keeps the keys ascending |
| Allocation.MergeWithNext | src/core/allocator.cc:97-102 | erasing the successor and rewriting the grown block merges the two exactly when they touch |
| Allocation.MergeWithPrev | src/core/allocator.cc:104-113 | erasing both blocks and writing the merged one under the predecessor's key merges them exactly when they touch |
| Allocation.PutOverwrite | src/core/allocator.cc:101 | writing to a key already in the map overwrites that entry in place |
| Allocation.MergeNextPut | src/core/allocator.cc:99-101 | erase-then-write of the successor merge equals merging the two entries |
| Allocation.MergePrevPut | src/core/allocator.cc:107-111 | erase-erase-write of the predecessor merge equals merging the two entries |
| Net.CheckValidMeans | src/core/graph.cc:317-351 | `checkValid` holds exactly when every listed tensor has a source or a target and names only listed operators, every listed operator's inputs, outputs, preds and succs are listed, and the fuids are pairwise distinct |
| Net.FuidsUnseenMeansDistinct | src/core/graph.cc:343-349 | the seen-set loop passes exactly when the remaining fuids are distinct and none was seen before |
| Net.GetTensorFromFinds | src/core/graph.cc:237-244 | `getTensor` returns the first listed tensor with the fuid, and nothing when no listed tensor has it |
| Net.GetTensorOwnFuid | src/core/graph.cc:237-244 | with distinct fuids, looking up a listed tensor's fuid finds that tensor |
| Wiring.AddNewTensor | src/core/graph.cc:294-296 | `addTensor(shape)` appends a new record and keeps every operator |
| Wiring.AddExistingTensorsAppends | src/core/graph.cc:298-311 | `addTensor(vec)` appends the tensors to the list in order and changes no record |
| Wiring.AddTensorsKeepClosed | src/core/graph.cc:294-311 | adding tensors keeps every reference naming a record |
| Wiring.AddOperatorRecords | src/core/graph.cc:11-32 | `addOperatorAndConnect` clears `sorted`, appends the op, and records its kind, inputs and outputs; each tensor's targets become the old list plus the op once per input slot that reads it; a tensor that is not an output keeps its source; every other operator gains at most the new op as predecessor or successor |
| Wiring.AddOperatorSymmetric | src/core/graph.cc:14-31 | every edge is recorded at both ends: when no listed operator names the new op, predecessor and successor caches that agreed before still agree |
| Wiring.AddOperatorWiresInputs | src/core/graph.cc:14-22 | every input gets the op as a target, and when it has a source, that source and the op become predecessor and successor of each other |
| Wiring.AddOperatorWiresOutputs | src/core/graph.cc:23-31 | every output gets the op as its source, and each target it already had becomes a successor of the op, with the op as its predecessor |
| Wiring.AddOperatorKeepsClosed | src/core/graph.cc:11-32 | adding an operator keeps every reference naming a record |
| Wiring.ConnectInputsWires | src/core/graph.cc:14-22 | the input loop only adds edges, and wires every input |
| Wiring.LinkAllWires | src/core/graph.cc:26-29 | the target loop links the op with every target in both directions |
| Wiring.ConnectOutputsWires | src/core/graph.cc:23-31 | the output loop only adds edges, sets every output's source and links every existing target |
| Edits.Relink | src/core/graph.cc:136-141 | for one consumer `c`: `c` drops the second Transpose from its preds and gains the first input's source, if any; that source trades the first Transpose for `c` among its succs; no other cache and nothing but caches changes |
| Edits.ReplaceInputKeepsClosed | src/core/graph.cc:143-147 | replacing an input by a listed-record tensor keeps the state closed |
| Edits.DropsKeepClosed | src/core/graph.cc:156-159 | dropping a tensor or an operator from its list keeps the state closed |
| Topo.Sweep | src/core/graph.cc:66-78 | a sweep only appends to the order built so far |
| Topo.TopoSort | src/core/graph.cc:55-85 | a graph already marked sorted is returned unchanged with success; on failure the graph is unchanged; on success it is marked sorted and only the `ops` list changes |
| Topo.SweepPartial | src/core/graph.cc:66-78 | a sweep appends only operators whose input sources are already placed, and never one twice |
| Topo.SortFromPartial | src/core/graph.cc:63-82 | when the sweeps finish, the order places every operator after the sources of its inputs and is at least as long as `ops` |
| Topo.TopoSortOrders | src/core/graph.cc:63-84 | a successful sort replaces `ops` with a permutation of it in which every operator comes after the source of each of its inputs |
| Topo.SortKeepsOrderedList | src/core/graph.cc:63-84 | when `ops` has no repeats and already places every operator after the sources of its inputs, the sweeps keep that list as it is and the sort succeeds |
| Topo.SweepOrdered | src/core/graph.cc:66-78 | when every operator is ready in list order, one sweep takes them in that order |
| Topo.SortIdempotent | src/core/graph.cc:55-85 | sorting a sorted result changes nothing |
| Topo.SweepTakes | src/core/graph.cc:66-78 | a sweep takes every operator of the swept part of the list whose input sources are all placed already |
| Topo.SortFromComplete | src/core/graph.cc:63-84 | when `ops` has no repeats and some permutation of it places every operator after the sources of its inputs, the sweeps never stall and the sort finds an order |
| Topo.TopoSortSucceedsIff | src/core/graph.cc:63-84 | on a graph not marked sorted, the sort succeeds exactly when `ops` has no repeats and some permutation of it places every operator after the sources of its inputs |
| Permute.ShouldSwapIsLastTwoSwap | src/core/graph.cc:169-178 | `shouldSwap` accepts exactly the identity of rank at least 2 with its last two entries swapped |
| Permute.SwapTransposeShape | src/core/graph.cc:169-178 | a Transpose that `shouldSwap` accepts swaps the last two axes of its input |
| Permute.FusionKeepsShape | src/core/graph.cc:193-195 | when `transA` was false, folding the Transpose into it gives the MatMul the same output shape |
| Permute.FusionKeepsShapeB | src/core/graph.cc:193-197 | when `transB` was false, folding the Transpose into it gives the MatMul the same output shape |
| Permute.FusionOverSetFlagChangesShape | src/core/graph.cc:194-197 | the flag is set, not toggled: with `transA` already set, folding turns a valid MatMul into one whose shape check fails |
| Permute.InversePairCancels | src/core/graph.cc:117-127 | when `perm2[perm1[i]] == i` for every i, the second Transpose restores every input shape of that rank |
| Permute.InverseHasNoRepeats | src/core/graph.cc:117-127 | a permutation that passes the inverse test has no repeated entry |
| Permute.InversePairExample | src/core/graph.cc:117-127 | `[1, 0]` is its own inverse and restores `[3, 4]` |
| Pairs.FindPairFinds | src/core/graph.cc:103-166 | the rule-1 scan finds the first listed Transpose whose output has exactly one target, a Transpose with the inverse permutation; none exactly when no listed operator qualifies |
| Pairs.PairRestoresShape | src/core/graph.cc:129-131 | for a found pair with consistent shapes, the second output has the first input's shape |
| Pairs.RewireConsumer | src/core/graph.cc:135-149 | rewiring one consumer keeps every record and every source |
| Pairs.RewireAllOps | src/core/graph.cc:135-149 | every consumer of the second output reads the first input instead; no other operator's inputs change |
| Pairs.RewireAllTensors | src/core/graph.cc:148 | the first input gains every consumer as a target, in order |
| Pairs.CutPairTensors | src/core/graph.cc:151-154 | both intermediate tensors lose their source and the first input loses the first Transpose as a target; other tensors keep their records |
| Pairs.CutPairLists | src/core/graph.cc:156-159 | both Transposes leave `ops` and both intermediate tensors leave `tensors`; nothing else leaves |
| Pairs.CutPairOps | src/core/graph.cc:135-159 | the consumers read the first input; every operator keeps its kind and outputs |
| Pairs.Rule1OnceKeepsClosed | src/core/graph.cc:103-166 | one rule-1 pass keeps the state closed, and changes nothing when no pair qualifies |
| Fusion.Rewire | src/core/graph.cc:193-197 | rewiring the MatMul keeps every tensor record and every list |
| Fusion.Retarget | src/core/graph.cc:206-209 | moving targets keeps every operator record and every list |
| Fusion.FindMergeNone | src/core/graph.cc:219-233 | the rule-2 scan finds nothing exactly when no listed MatMul has a fusable input |
| Fusion.FindMergeSome | src/core/graph.cc:222-231 | the scan returns the first listed MatMul with a fusable input, input 0 before input 1 |
| Fusion.RewireOps | src/core/graph.cc:192-204 | the MatMul reads the Transpose's input at position k and has `transA` (k = 0) or `transB` (k = 1) set to true; other operators keep their inputs and kind |
| Fusion.RetargetTensors | src/core/graph.cc:206-209 | the intermediate tensor loses its source and the MatMul as a target; the Transpose's input trades the Transpose for the MatMul as a target; no shape changes |
| Fusion.FuseLists | src/core/graph.cc:211-214 | the Transpose leaves `ops`; the intermediate tensor leaves `tensors` only when no target is left |
| Fusion.FuseKeepsClosed | src/core/graph.cc:181-216 | one fusion keeps the state closed |
| Fusion.MergeProgress | src/core/graph.cc:181-216 | one fusion keeps the state closed and removes exactly one tensor from those with a source |
| Fusion.Rule2StepProgress | src/core/graph.cc:219-233 | one rule-2 scan changes nothing when no input is fusable, and otherwise strictly reduces the tensors with a source |
| Fusion.Rule2LoopDone | src/core/graph.cc:219-233 | the rule-2 loop ends with no MatMul input produced by a last-two-axes Transpose |
| Fusion.Rule2LoopIdle | src/core/graph.cc:219-233 | the rule-2 loop changes nothing on a graph without a fusable input |
| Fusion.Rule2LoopShrinks | src/core/graph.cc:219-233 | the rule-2 loop keeps every record and only removes from the lists |
| Fusion.OptimizeDone | src/core/graph.cc:87-235 | `optimize` keeps the state closed and leaves no fusable input; it changes nothing when there is no pair and no fusable input |
| Order.MergeKeepsOrder | src/core/graph.cc:181-216 | one fusion keeps `ops` free of repeats and in input order, keeps every source the single producer of its tensor, and leaves `sorted` as it was |
| Order.Rule2LoopKeepsOrder | src/core/graph.cc:219-233 | the rule-2 loop keeps `ops` in input order and leaves `sorted` as it was |
| Order.EliminatePairKeepsOrder | src/core/graph.cc:129-159 | on a valid graph whose caches agree with the tensors, removing an inverse pair keeps `ops` free of repeats and in input order, with each consumer of the second output now reading the first input, made earlier still, and leaves `sorted` as it was |
| Order.Rule1OnceKeepsOrder | src/core/graph.cc:103-166 | one rule-1 pass on such a graph keeps `ops` in input order and leaves `sorted` as it was |
| Order.OptimizeKeepsOrder | src/core/graph.cc:87-235 | on such a graph with `ops` in input order, `optimize` keeps `ops` in input order and `sorted` as it was, and a fresh sort of the result would return the list unchanged: the early return of `topo_sort` in `dataMalloc` loses nothing |
| Validity.SharedOutputBreaksValidity | src/core/graph.cc:199-214 | a Transpose feeding a MatMul and a Relu, in a graph that passes `checkValid` with agreeing caches: rule 2 removes the Transpose while the Relu still names it as predecessor, so `checkValid` fails afterwards |
| Validity.UnreadPairBreaksValidity | src/core/graph.cc:135-159 | an inverse Transpose pair whose second output nothing reads, in a graph that passes `checkValid`: rule 1 removes the pair while the first input's source still names the first Transpose as successor, so `checkValid` fails afterwards |
| Validity.MergeKeepsValid | src/core/graph.cc:181-216 | on a valid graph whose caches agree with each other and with the tensors, a fusion whose Transpose exchanges tensors only with the MatMul and its own input's source keeps `checkValid` and the caches' agreement |
| Validity.CutPairKeepsValid | src/core/graph.cc:129-159 | on such a graph, removing an inverse pair whose second output is read, and whose Transposes exchange tensors only along the chain, keeps `checkValid` and the caches' agreement |
| Validity.Rule1OnceKeepsValid | src/core/graph.cc:103-166 | one rule-1 pass keeps `checkValid` and the caches' agreement when the pair it finds, if any, is such a pair |
| Matmul.SwapLastTwice | src/operators/matmul.cc:36-39 | swapping the last two axes twice restores the shape |
| Matmul.InferShape | src/operators/matmul.cc:22-64 | a successful inference returns a single shape of rank at least 2 |
| Matmul.LowRankFails | src/operators/matmul.cc:34 | inference fails when either input has rank below 2 |
| Matmul.FlagsSwapAxes | src/operators/matmul.cc:36-39 | `transA`/`transB` act as swapping the last two axes of that input |
| Matmul.ProductShape | src/operators/matmul.cc:36-63 | inference succeeds exactly when K of A equals K of B, and then returns the batch followed by M and N |
| Matmul.BatchAxes | src/operators/matmul.cc:45-57 | the batch is empty for two matrices, the other input's leading axes when one input is a matrix, and their broadcast otherwise |
| Matmul.Examples | src/operators/matmul.cc:22-64 | `[2,3,4] x [2,4,5]` gives `[2,3,5]`, as does `transA` with `[2,4,3]`; `[2,3,4] x [2,5,5]` fails |
| Concat.InferShape | src/operators/concat.cc:12-36 | the folding loop returns exactly the declarative rule: the first shape with axis `dim` replaced by the sum over all inputs, or failure on a rank or off-axis mismatch |
| Concat.AxisSumAppend | src/operators/concat.cc:32 | the axis sum over two lists of inputs is the sum of their sums |
| Concat.SingleInput | src/operators/concat.cc:22-35 | a single input yields its own shape, as the single result |
| Concat.TwoStages | src/operators/concat.cc:22-33 | concatenating in two stages gives the same result as at once, and a failure of a prefix is a failure of the whole |
| Concat.Examples | src/operators/concat.cc:26-32 | `[2,3]` and `[2,5]` on axis 1 give `[2,8]`; `[2,3]` and `[3,3]` on axis 1 fail |
| Planning.SetShape | src/core/graph.cc:259 | `setShape` changes only that tensor's shape |
| Planning.GetTensorListed | src/core/graph.cc:237-244 | what `getTensor` finds is a listed tensor |
| Planning.WriteShapes | src/core/graph.cc:253-261 | the write-back loop changes only tensor shapes |
| Planning.WriteShapesUnchanged | src/core/graph.cc:257 | when every inferred shape equals the output's shape, the write-back changes nothing |
| Planning.WriteShapesWrites | src/core/graph.cc:253-261 | with distinct fuids and distinct outputs, each output gets its inferred shape and every other tensor keeps its record |
| Planning.ShapeInfer | src/core/graph.cc:246-263 | a successful `shape_infer` changes only tensor shapes |
| Planning.ShapeInferSettled | src/core/graph.cc:246-263 | when every operator's inferred shapes already equal its outputs' shapes, `shape_infer` changes nothing |
| Planning.InferOpReadsInputs | src/core/graph.cc:248 | an operator's inference depends only on the shapes of its inputs |
| Planning.InferTurnWrites | src/core/graph.cc:248-261 | a listed operator's turn whose inference succeeds with the right number of shapes succeeds, gives its outputs exactly those shapes and leaves every other tensor unchanged |
| Planning.TurnKeepsSettled | src/core/graph.cc:247-261 | on a graph in input order with single producers, a successful turn of the `k`-th operator makes its inference match its outputs and keeps that match for every operator before it |
| Planning.ShapeInferSettles | src/core/graph.cc:246-263 | on a graph whose operator list has no repeats and is in input order, where each tensor's source is its single producer, fuids are distinct and outputs are listed once: after a successful run every listed operator's inference, from the final shapes of its inputs, gives exactly its outputs' shapes, and running `shape_infer` again changes nothing |
| Planning.InferUpTo | src/core/graph.cc:247-262 | the state a turn starts from differs from the graph the run started from only in tensor shapes |
| Planning.FailedTurn | src/core/graph.cc:247-251 | a failed run has a turn, reached by the run, at which the operator's inference gave no result or the wrong number of shapes |
| Planning.FailedTurnFails | src/core/graph.cc:247-251 | a reached turn whose inference gives no result or the wrong number of shapes fails the run |
| Planning.ShapeInferFails | src/core/graph.cc:247-261 | on a graph with distinct fuids and outputs listed once, `shape_infer` fails exactly when, at some operator's turn, its inference gives no result or the wrong number of shapes; the write-back never fails |
| Planning.AllocAllFails | src/core/graph.cc:278-281 | the allocation loop fails exactly when some size is zero, or when the allocator is realised and there is a tensor to place |
| Planning.AllocAllTracks | src/core/graph.cc:278-281 | under correct use, allocating every size keeps the allocator invariant with the new blocks live |
| Planning.FreshOffsets | src/core/graph.cc:278-281 | from a fresh allocator, the i-th offset is the sum of the aligned sizes before it and the arena is exactly their total |
| Planning.OffsetMapAt | src/core/graph.cc:280 | with no tensor listed twice, the offset map gives the i-th tensor the i-th offset |
| Planning.Bind | src/core/graph.cc:285-289 | binding keeps the lists and the operator records |
| Planning.BindOnlyBlobs | src/core/graph.cc:285-289 | binding changes only the blob of tensors |
| Planning.BindSets | src/core/graph.cc:286-288 | every bound tensor's blob is the base plus its offset |
| Planning.BindKeeps | src/core/graph.cc:285-289 | a tensor not in the list keeps its record |
| Planning.DataMallocFails | src/core/graph.cc:265-292 | `dataMalloc` fails exactly when the sort fails, when a listed tensor has zero bytes, or when the arena was realised before and there is a tensor to place |
| Planning.DataMallocIs | src/core/graph.cc:265-289 | on success, the result is the sorted graph bound at the base plus the allocation loop's offsets, with the arena realised once |
| Planning.DataMallocBinds | src/core/graph.cc:277-289 | on success, the i-th listed tensor is bound at the returned base plus the i-th offset, and nothing else changes beyond the sort |
| Planning.DataMallocFresh | src/core/graph.cc:265-289 | from a fresh allocator, `dataMalloc` succeeds, uses the runtime's base, realises an arena of the aligned total, and the offsets are prefix sums of the aligned sizes |
| Planning.DataMallocDisjoint | src/core/graph.cc:277-281 | under correct use, the planned blocks are pairwise disjoint and disjoint from every allocation still live |
| Graphs.Graph.AddNewTensor | src/core/graph.cc:294-296 | the method performs exactly `Wiring.AddNewTensor` and keeps the graph closed |
| Graphs.Graph.AddTensors | src/core/graph.cc:298-311 | the loop appends the tensors exactly as `AddExistingTensors` does |
| Graphs.Graph.AddOperatorAndConnect | src/core/graph.cc:11-32 | the method performs exactly `AddOperator` and keeps the graph closed |
| Graphs.Graph.ConnectInputsOf | src/core/graph.cc:14-22 | the input loop performs exactly `ConnectInputs` |
| Graphs.Graph.ConnectOutputsOf | src/core/graph.cc:23-31 | the output loop performs exactly `ConnectOutputs` |
| Graphs.Graph.LinkTargets | src/core/graph.cc:26-29 | the target loop performs exactly `LinkAll` |
| Graphs.Graph.TopoSort | src/core/graph.cc:55-85 | the sweep loops return and leave exactly what `Topo.TopoSort` gives |
| Graphs.Graph.InputsReady | src/core/graph.cc:67-73 | an operator is ready exactly when every input has no source or a placed one |
| Graphs.Graph.RemoveFirstPair | src/core/graph.cc:103-166 | the rule-1 scan performs exactly `Rule1Once` and reports whether a pair was found |
| Graphs.Graph.TransposePairFrom | src/core/graph.cc:105-128 | the pair test for one operator returns exactly `PairFrom` |
| Graphs.Graph.RemovePair | src/core/graph.cc:129-162 | removing a found pair performs exactly `EliminatePair` and keeps the graph closed |
| Graphs.Graph.CutPairM | src/core/graph.cc:133-159 | rewiring and removal perform exactly `CutPair` |
| Graphs.Graph.DetachPair | src/core/graph.cc:151-154 | clearing both sources and the first target performs exactly those edits |
| Graphs.Graph.RedirectConsumers | src/core/graph.cc:135-149 | the consumer loop performs exactly `RewireAll` |
| Graphs.Graph.RedirectConsumer | src/core/graph.cc:136-148 | one consumer is rewired exactly as `RewireConsumer` |
| Graphs.Graph.RelinkNeighbours | src/core/graph.cc:136-141 | the pred/succ edits for one consumer perform exactly `Relink` |
| Graphs.Graph.ReplaceInputs | src/core/graph.cc:143-147 | the input loop performs exactly `ReplaceInput` |
| Graphs.Graph.MergeTransposeIntoMatmul | src/core/graph.cc:181-216 | reports exactly whether input k is fusable, and then performs exactly `Merge`; otherwise nothing changes |
| Graphs.Graph.FusableInput | src/core/graph.cc:183-192 | the checks return exactly `Fusable`, with the tensors and Transpose `Merge` uses |
| Graphs.Graph.FuseInto | src/core/graph.cc:192-215 | the fusion edits perform exactly `Fuse` |
| Graphs.Graph.RewireMatmul | src/core/graph.cc:193-204 | the MatMul edits perform exactly `Rewire` |
| Graphs.Graph.MoveTargets | src/core/graph.cc:206-209 | the target edits perform exactly `Retarget` |
| Graphs.Graph.DropFused | src/core/graph.cc:211-214 | `input` leaves the tensor list exactly when nothing reads it any more, and the Transpose leaves the operator list |
| Graphs.Graph.MergeEitherInput | src/core/graph.cc:226-227 | input 0 is tried first, and input 1 only when input 0 is not fusable |
| Graphs.Graph.MergeFirst | src/core/graph.cc:222-232 | one rule-2 scan performs exactly `Rule2Step` and reports whether it merged |
| Graphs.Graph.Optimize | src/core/graph.cc:87-235 | the loops perform exactly `Fusion.Optimize`, one rule-1 pass then the rule-2 loop, and keep the graph closed |
| Graphs.Graph.FindTensor | src/core/graph.cc:237-244 | the loop returns exactly `GetTensor` |
| Graphs.Graph.WriteOutputShapes | src/core/graph.cc:253-261 | the write-back loop changes only shapes and gives exactly `WriteShapes` when it succeeds |
| Graphs.Graph.WriteOutputShape | src/core/graph.cc:254-260 | one write-back step fails only where `WriteShapes` fails, and otherwise advances it by one output |
| Graphs.Graph.ShapeInfer | src/core/graph.cc:246-263 | the loop changes only shapes, succeeds exactly when `Planning.ShapeInfer` does, and then gives its result |
| Graphs.Graph.DataMalloc | src/core/graph.cc:265-292 | the method succeeds exactly when `Planning.DataMalloc` does, and then leaves the graph, the allocator and its base exactly as that function gives |
| Graphs.Graph.AllocateAll | src/core/graph.cc:277-281 | the allocation loop succeeds exactly when `AllocAll` does and records its offsets per tensor |
| Graphs.Graph.BindAll | src/core/graph.cc:285-289 | the binding loop performs exactly `Bind` over the listed tensors |
| Graphs.Graph.BindOne | src/core/graph.cc:286-288 | one binding step extends `Bind` by one listed tensor |
| Graphs.SwapsLastTwo | src/core/graph.cc:169-178 | the loop returns exactly `ShouldSwap` |
| Graphs.ShouldInverse | src/core/graph.cc:117-127 | the composition loop returns exactly the inverse test `perm2[perm1[i]] == i` for all i |

## Left out

- `toString`, `info` and the `printf` in `getPtr` only format output, so they are not modelled.
- The runtime's `alloc`/`dealloc` and the allocator's destructor are foreign device calls. Realisation is a flag, and the runtime's answer is the parameter `runtimeBase`.
- `BlobObj` and `setDataBlob` are modelled as the tensor's `blob` field holding base plus offset as an integer. No pointer is modelled.
- Shared-pointer ownership is not modelled. Tensors and operators are integer IDs over two record maps, and a removed record stays in its map.
- `removeTensor` and `removeOperator` live in src/core/graph.h, which is not part of this model. They are modelled as removing the first occurrence from the list.
- `addTarget`, `removeTarget`, `addPredecessors` and the other edge helpers are not part of this model either. Targets are modelled as a list with append and remove-all. Predecessors and successors are modelled as sets.
- `infer_broadcast` is not part of this model, nor is `inferShape` of operator kinds other than MatMul and Concat. Both are parameters (`Planning.Rules`).
- `TransposeObj::inferShape` is not part of this model. The Transpose shape rule (output axis i is input axis `perm[i]`, `Permute.TransposeShape`) is taken as given.
- `getBytes` is a parameter `bytes: Tensor -> nat`.
- `get_real_axis` is not part of this model. The Concat axis is taken as already normalised.
- The fuid generator and the runtime-identity assertion in `addTensor` are left out. The fuid is a parameter and there is no runtime.
- `OperatorObj::checkValid` in the operator constructors is left out.
- Integer widths are not modelled, except that `getAlignedSize(0)` is 0, as the `size_t` wrap-around makes it. Sizes, offsets and shape extents are unbounded. `int` overflow in the Concat axis sum and `size_t` overflow of `peak` do not occur in the model.
- The source has undefined behaviour in several places; the model treats each as follows:
  - An out-of-range `perm1[i]` in rule 1 reads past `perm2`. The model makes the inverse test false instead.
  - A Transpose without an input, and a MatMul without two inputs, cannot be built by the source's constructors. The model's rules do not fire for them, or fail.
  - A `nullptr` from `getTensor` in `shape_infer` is dereferenced in the source. The model fails instead.
  - A Concat with no inputs reads `inputs[0]`, and one with two or more inputs whose axis is not below the rank of the first writes `dims[dim]` out of range (src/operators/concat.cc:13, 32). `Planning.InferOp` fails for both. With a single input the loop never runs, and the model returns that input's shape, as the source does.
- A failed `IT_ASSERT` throws in the source. The model reports failure (`None`, `ok == false`):
  - `Allocation.Allocator.Alloc` and `Allocation.Allocator.Free` promise that nothing changed;
  - `Graphs.Graph.ShapeInfer`, `Graphs.Graph.WriteOutputShapes` and `Graphs.Graph.DataMalloc` do not describe the partly updated state at the throw.
- Fusion.OptimizeDone: does not promise that `optimize` leaves a graph passing `checkValid`, because the code does not keep it in two cases. Rule 2 removes a Transpose that other operators still read, and they keep it among their predecessors (`Validity.SharedOutputBreaksValidity`). Rule 1 updates the first input's source only inside the loop over consumers, so with no consumer that source keeps the removed Transpose as a successor (`Validity.UnreadPairBreaksValidity`). Validity is proved only where neither case arises (`Validity.MergeKeepsValid`, `Validity.Rule1OnceKeepsValid`); the model follows the code rather than the intended behaviour that both rules keep `checkValid`. Neither rule touches `sorted`; that this is sound, because the rewritten list stays in input order, is proved separately (`Order.OptimizeKeepsOrder`).
- Order.OptimizeKeepsOrder and the other `Order` lemmas: take as hypotheses that a tensor's source is the one listed operator listing it among its outputs and that every Transpose has exactly one output (`Net.SourcesMatch`, `Order.OneOutputTransposes`). `addOperatorAndConnect` sets sources that way (src/core/graph.cc:11-32), and the source reads a Transpose's output with `getOutput()` (src/core/graph.cc:107, 131); the Transpose constructor is not part of this model, and the model does not derive either hypothesis from how the graph was built.
- Planning.ShapeInferSettles and Planning.ShapeInferFails: take their graph conditions as hypotheses (`Planning.InferReady`, `Planning.WriteReady`). `addOperatorAndConnect` sets sources to the single producer (src/core/graph.cc:11-32), and a successful `topo_sort` puts `ops` in input order (`Topo.TopoSortOrders`); distinct fuids are what `checkValid` asserts, and that each operator lists its outputs once is left to the operator constructors, which are not part of this model.
- Pairs.Rule1OnceKeepsClosed and Fusion.FuseKeepsClosed: state closedness for every graph; `checkValid` and cache agreement are stated separately, under the conditions above.
- A plausible reading of allocator reuse would have "alloc 32, free it, alloc 16" reuse a free block. In the code that free is a tail free: `peak` drops to 0 and no free block remains. The model follows the code (`Arena.TailFreeThenAllocStartsOver`), and first-fit reuse is shown where a live block sits above the freed one (`Arena.FreedBlockIsReused`).
