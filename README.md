# Profile inference, profile creation and change-log tools — a Dafny model

This project models the algorithmic core of a set of LLVM/Clang tools and libraries, with proofs about that model:

- **Profile inference** (`SampleProfileInference.cpp`). The `MinCostFlow` solver uses successive shortest paths with an SPFA search, over edge lists that pair each edge with its reverse edge. The model covers:
  - how the flow network is built from a function's blocks and jumps;
  - extracting block and jump counts from the solved network;
  - the `FlowAdjuster` repairs (joining isolated components, rebalancing dangling subgraphs);
  - the debug-mode `verifyWeights` check.
- **Profile creation** (`llvm-create-profile`):
  - `Symbol` and `SymbolMap`: merging, inline-stack traversal, split-function merging, address lookup;
  - the perf LBR sample parser: memory-mapping table, address resolution, range/address/branch counting;
  - the text sample reader/writer.
- **fbcc plugin** (`Options`, `FileState`): plugin argument parsing, and the include-stack bookkeeping fed by preprocessor callbacks.
- **Graph change log** (`GraphChangeLog.cpp`): per-pass tracking of blocks and instructions, their creation, movement and deletion.
- **CFG change log** (`CFGChangeLogManager.cpp`): node comparison and the before/after change report.
- **llvm-dwarfdump analysis** (`Analyze.cpp`): declaration-context ordering, section-name test, address ranges, the per-directory size tree.
- **llvm-memaccess**: the JSON string escaper in `LlvmMemaccess.cpp`, and the type table of `analyse.py` (merging type records, applying a load or store to the fields it overlaps, guessing type sizes, shortening names).
- **fix-repo.py**: the comment marker rewriter, the hunk-header parser, the hunk checker and file filtering.

State that the source changes in place is modelled by classes, for example:

- `MinCostFlow`, `FlowFunction`, `SymbolMap`, `PerfDataSampleReader`, `TextSampleReaderWriter`;
- `Options`, `FileState`, `ChangeLogger`, `DirTree`, `TypeTable`, `HunkChecker`.

Their methods are proved against specification functions, and the properties of those functions are proved as lemmas. Pure code is modelled by datatypes, functions and lemmas. Integers are unbounded except where noted below.

Two fixed-width conventions hold throughout:

- Profile counters that the source keeps as `uint64_t` and that can plausibly wrap are written out modulo 2^64. This covers the text reader's sums and weighted sums, and the DIE range total.
- Everything else is unbounded. See "## Left out".

## Model

| member | source | states |
|---|---|---|
| MinCostFlowSolver.MinCostFlow.Initialize | llvm/lib/Transforms/IPO/SampleProfileInference.cpp:90-96 | the network has the requested number of nodes, each with an empty edge list, and source/target as given |
| MinCostFlowSolver.MinCostFlow.AddEdge | llvm/lib/Transforms/IPO/SampleProfileInference.cpp:123-143 | appends a forward edge and a zero-capacity reverse edge with negated cost, each recording the other's index; the pairing invariant is kept |
| MinCostFlowSolver.MinCostFlow.AddInfEdge | llvm/lib/Transforms/IPO/SampleProfileInference.cpp:146-148 | the same as AddEdge with capacity INF |
| MinCostFlowSolver.MinCostFlow.AdjacentNodes | llvm/lib/Transforms/IPO/SampleProfileInference.cpp:151-159 | lists exactly the destinations of the node's edges that carry positive flow, in edge order |
| MinCostFlowSolver.MinCostFlow.GetFlow | llvm/lib/Transforms/IPO/SampleProfileInference.cpp:162-170 | sums the flow on all edges from src to dst |
| MinCostFlowSolver.MinCostFlow.FindAugmentingPath | llvm/lib/Transforms/IPO/SampleProfileInference.cpp:185-222 | the edges are untouched and every recorded parent is a residual edge; a found path means a completed search with a finite target distance, a completed search reports a path iff the target's distance is below INF, and after a completed search no residual edge out of a reached node could still lower its destination's distance |
| MinCostFlowSolver.MinCostFlow.RelaxEdges | llvm/lib/Transforms/IPO/SampleProfileInference.cpp:199-218 | relaxing all residual edges of the popped node restores the search invariant: parents are residual edges, the queue holds distinct reached nodes, and every node other than those queued has no residual edge that could still lower a distance |
| MinCostFlowSolver.MinCostFlow.FindPathCapacity | llvm/lib/Transforms/IPO/SampleProfileInference.cpp:227-235 | on success the walk from the target along parent edges reaches the source without repeating a node, every link has at least the returned residual capacity, and the capacity is INF or the residual capacity of one of the links, so it is the minimum over the chain; it lies in (0, INF] |
| MinCostFlowSolver.MinCostFlow.ParentLink | llvm/lib/Transforms/IPO/SampleProfileInference.cpp:230-233 | one step of the capacity walk: the parent of the node, reached with a finite distance, and the running minimum taken with the parent edge's residual capacity, which stays positive; following the link to a new node keeps the walk a chain with an attained minimum |
| MinCostFlowSolver.MinCostFlow.UpdateAugmentingPath | llvm/lib/Transforms/IPO/SampleProfileInference.cpp:225-250 | on success the source's net flow strictly increases by exactly what the target's drops, and every other node keeps its net flow; on failure the edges are unchanged; the shape is always kept |
| MinCostFlowSolver.MinCostFlow.AugmentPath | llvm/lib/Transforms/IPO/SampleProfileInference.cpp:238-249 | pushing the capacity along a parent chain raises the source's flow sum by exactly that amount, lowers the target's by the same, leaves every other node's flow sum, the nodes and the shape unchanged, and keeps the edge pairing |
| MinCostFlowSolver.MinCostFlow.PushToParent | llvm/lib/Transforms/IPO/SampleProfileInference.cpp:241-248 | one link of the augmenting path: the edge from the parent into the node gains the path capacity, its reverse edge loses it, no other edge and no node changes, and the walk moves on to the parent |
| MinCostFlowSolver.MinCostFlow.Run | llvm/lib/Transforms/IPO/SampleProfileInference.cpp:99-118 | the final network keeps its shape and pairing (so no edge exceeds its capacity), every node other than source and target keeps its net flow, the source's gain equals the target's loss, and the returned cost is the flow-weighted cost of all edges |
| MinCostFlowSolver.MinCostFlow.ComputeTotalCost | llvm/lib/Transforms/IPO/SampleProfileInference.cpp:104-116 | the cost is the sum of flow times cost over all edges |
| MinCostFlowSolver.PushKeepsLinked | llvm/lib/Transforms/IPO/SampleProfileInference.cpp:244-247 | adding d to an edge and removing d from its paired reverse edge keeps the pairing and the network's shape, and shifts the endpoints' flow sums by exactly d |
| MinCostFlowSolver.FlowSumBounded | llvm/lib/Transforms/IPO/SampleProfileInference.cpp:239-248 | if no edge of a list carries more than its capacity, the list's flow sum is at most its capacity sum |
| MinCostFlowSolver.SourceBound | llvm/lib/Transforms/IPO/SampleProfileInference.cpp:99-118 | in a paired network, a node's outgoing flow sum is at most the total capacity of its edges |
| MinCostFlowSolver.ZeroFlowZeroCost | llvm/lib/Transforms/IPO/SampleProfileInference.cpp:90-96 | a network carrying zero flow on every edge has total cost zero |
| FlowGraph.SuccJumpsSpec | llvm/lib/Transforms/IPO/SampleProfileInference.cpp:929-932 | the successor list of a block holds exactly the indices of the jumps leaving it, in increasing order |
| FlowGraph.PredJumpsSpec | llvm/lib/Transforms/IPO/SampleProfileInference.cpp:929-932 | the predecessor list of a block holds exactly the indices of the jumps entering it, in increasing order |
| FlowGraph.EntryExitLists | llvm/lib/Transforms/IPO/SampleProfileInference.cpp:55-58 | a block is an entry iff it has no predecessor jumps, and an exit iff it has no successor jumps |
| FlowGraph.FlowFunction.constructor | llvm/lib/Transforms/IPO/SampleProfileInference.cpp:70-75 | the function holds the given blocks, jumps and entry index |
| FlowNetwork.InitializeNetwork | llvm/lib/Transforms/IPO/SampleProfileInference.cpp:635-719 | raises a zero entry weight to 1 and builds exactly the network requested for every block (weight, end and auxiliary edges) and every non-self jump, plus the T→S edge, with S1/T1 as source and target |
| FlowNetwork.BuildNetwork | llvm/lib/Transforms/IPO/SampleProfileInference.cpp:644-719 | the network built by the loops equals the network described by the list of edge requests |
| FlowNetwork.NetworkBuilt | llvm/lib/Transforms/IPO/SampleProfileInference.cpp:644-719 | block edges, then jump edges, then the T→S edge compose to the declared request list |
| FlowNetwork.NetworkRequestsOk | llvm/lib/Transforms/IPO/SampleProfileInference.cpp:637-669 | every requested edge has positive capacity, distinct ends and ends inside the network |
| FlowNetwork.WeightEdges | llvm/lib/Transforms/IPO/SampleProfileInference.cpp:662-665 | a block with positive weight gets the S1→out and in→T1 edges with exactly that capacity and zero cost |
| FlowNetwork.JumpEdge | llvm/lib/Transforms/IPO/SampleProfileInference.cpp:706-715 | every non-self jump becomes an INF-capacity edge from its source's out node to its target's in node, costing 2^20 when unlikely and 0 otherwise |
| FlowNetwork.AuxCostsPenalise | llvm/lib/Transforms/IPO/SampleProfileInference.cpp:680-702 | the auxiliary costs are non-negative, zero for dangling blocks, make decreasing a count no cheaper than increasing it (no decrease cost with a self edge), and are highest at the entry block |
| FlowNetwork.AddBlockEdges | llvm/lib/Transforms/IPO/SampleProfileInference.cpp:654-703 | adds exactly the block's requested edges to the network |
| FlowNetwork.AddWeightEdges | llvm/lib/Transforms/IPO/SampleProfileInference.cpp:662-665 | adds exactly the block's weight edges |
| FlowNetwork.AddEndEdge | llvm/lib/Transforms/IPO/SampleProfileInference.cpp:667-674 | adds the S→in edge for an entry and the out→T edge for an exit |
| FlowNetwork.AddAuxEdges | llvm/lib/Transforms/IPO/SampleProfileInference.cpp:699-702 | adds the two auxiliary edges with the given costs |
| FlowNetwork.AddJumpEdge | llvm/lib/Transforms/IPO/SampleProfileInference.cpp:707-714 | adds the jump's edge, and nothing for a self jump |
| FlowNetwork.AddAllJumpEdges | llvm/lib/Transforms/IPO/SampleProfileInference.cpp:706-715 | the loop over jumps adds exactly every jump's requested edge, in jump order |
| FlowNetwork.AddAllBlockEdges | llvm/lib/Transforms/IPO/SampleProfileInference.cpp:654-703 | the loop over blocks adds exactly every block's requested edges, in block order |
| FlowExtraction.ExtractWeights | llvm/lib/Transforms/IPO/SampleProfileInference.cpp:748-785 | every block's and jump's flow is replaced by the flow read from the network, and nothing else in the function changes |
| FlowExtraction.ReadBlockFlow | llvm/lib/Transforms/IPO/SampleProfileInference.cpp:752-764 | a block's count is the sum, over the destinations of the positive-flow edges leaving its out node (in edge order), of the total flow from the out node to that destination; the out→aux edge counts only when the block has a self edge. A destination reached by several positive parallel edges is counted once per such edge, since adjacentNodes lists it once per edge and getFlow sums every edge to it |
| FlowExtraction.ReadJumpFlow | llvm/lib/Transforms/IPO/SampleProfileInference.cpp:767-784 | a jump's count is the flow on its out→in edge, or the block's self-edge flow for a self jump |
| FlowExtraction.BlockFlowNonNegative | llvm/lib/Transforms/IPO/SampleProfileInference.cpp:757-758 | in a linked network built from valid requests, the count read for a block is non-negative |
| FlowExtraction.JumpFlowNonNegative | llvm/lib/Transforms/IPO/SampleProfileInference.cpp:778-779 | the count read for a jump is non-negative |
| FlowExtraction.ExtractedFlowsNonNegative | llvm/lib/Transforms/IPO/SampleProfileInference.cpp:748-785 | after solving, every extracted block and jump count is non-negative |
| FlowVerify.VerifyWeights | llvm/lib/Transforms/IPO/SampleProfileInference.cpp:789-847 | returns true iff flow is conserved at every block, entry and exit totals agree, and every block with flow is reachable from the entry through positive jumps |
| FlowVerify.CheckConservation | llvm/lib/Transforms/IPO/SampleProfileInference.cpp:800-812 | reports conservation at every block and returns the entry and exit totals |
| FlowVerify.CheckReached | llvm/lib/Transforms/IPO/SampleProfileInference.cpp:819-846 | returns true iff no block with positive flow is unreachable from the entry through jumps with positive flow |
| FlowVerify.SumJumpFlows | llvm/lib/Transforms/IPO/SampleProfileInference.cpp:793-796 | the per-block in and out sums equal the summed flow of the jumps entering and leaving each block |
| FlowVerify.ReachedIsReachable | llvm/lib/Transforms/IPO/SampleProfileInference.cpp:819-846 | a visited set that is sound and closed under positive jumps is exactly the set of blocks reachable from the entry |
| FlowVerify.SumsAreJumpTotal | llvm/lib/Transforms/IPO/SampleProfileInference.cpp:793-796 | summing in-flows or out-flows over all blocks gives the total jump flow |
| FlowVerify.EntryExitFlows | llvm/lib/Transforms/IPO/SampleProfileInference.cpp:55-58 | an entry has no in-flow and an exit has no out-flow |
| FlowVerify.BlockNet | llvm/lib/Transforms/IPO/SampleProfileInference.cpp:800-812 | at a conserved block, out-flow minus in-flow is the block's count if it is an entry, minus it if it is an exit, and zero otherwise |
| FlowVerify.NetFlow | llvm/lib/Transforms/IPO/SampleProfileInference.cpp:800-812 | over conserved blocks, entry total minus exit total equals summed out-flow minus summed in-flow |
| FlowVerify.ConservationImpliesBalance | llvm/lib/Transforms/IPO/SampleProfileInference.cpp:810-812 | conservation at every block implies that the entry and exit totals are equal |
| FlowPaths.FindReachable | llvm/lib/Transforms/IPO/SampleProfileInference.cpp:345-362 | marks the source and everything reachable from it through positive jumps, keeps earlier marks, and marks nothing unreachable |
| FlowPaths.VisitSuccessors | llvm/lib/Transforms/IPO/SampleProfileInference.cpp:353-360 | visiting a block's positive successors keeps the search invariant and the termination measure |
| FlowPaths.PathFlowsIncrease | llvm/lib/Transforms/IPO/SampleProfileInference.cpp:318-341 | a positive path stays a positive path when jump flows only grow |
| FlowPaths.ClosedHoldsReached | llvm/lib/Transforms/IPO/SampleProfileInference.cpp:345-362 | a visited set closed under positive jumps contains every block reachable from a visited block |
| FlowPush.PushedJumpsCount | llvm/lib/Transforms/IPO/SampleProfileInference.cpp:330-337 | pushing a unit along a path adds to each jump exactly the number of times it occurs on the path |
| FlowPush.PushedBlocksCount | llvm/lib/Transforms/IPO/SampleProfileInference.cpp:330-337 | each block gains exactly the number of path jumps that end in it |
| FlowPush.FlowsPushed | llvm/lib/Transforms/IPO/SampleProfileInference.cpp:330-337 | a block's in-flow and out-flow grow by the number of path jumps entering and leaving it |
| FlowPush.JoinedBlockDelta | llvm/lib/Transforms/IPO/SampleProfileInference.cpp:329-337 | after joining along an entry-to-exit path, the entry gains 1, the chosen exit gains 1, inner blocks gain their path hits, and in- and out-hits agree at every inner block |
| FlowPush.JoinedBlockConserved | llvm/lib/Transforms/IPO/SampleProfileInference.cpp:329-337 | each block is conserved after the push iff it was conserved before |
| FlowPush.JoinedTotals | llvm/lib/Transforms/IPO/SampleProfileInference.cpp:329-337 | the push raises the entry total and the exit total by exactly one each |
| FlowPush.PushPathKeepsBalance | llvm/lib/Transforms/IPO/SampleProfileInference.cpp:329-337 | the function is balanced (conserved everywhere, equal totals) after the push iff it was before |
| FlowJoin.JoinIsolatedComponents | llvm/lib/Transforms/IPO/SampleProfileInference.cpp:318-341 | counts only grow and the ends of jumps are kept; when the search completes, every block with flow is reachable from the entry; when every block with flow lies on a path from the entry to an exit whose two halves are shorter than INF, the search does complete; when the entry is an entry block, balance holds after iff it held before |
| FlowJoin.JoinBlock | llvm/lib/Transforms/IPO/SampleProfileInference.cpp:324-338 | an unreached block with flow either gets joined through an exact entry-plus-path push, or the function is unchanged; the join fails only for such a block that lies on no path from the entry through it to an exit with both halves shorter than INF |
| FlowJoin.JoinAlong | llvm/lib/Transforms/IPO/SampleProfileInference.cpp:329-337 | joining along a path from the entry through the block to an exit is exactly the entry-plus-path push, only grows counts, marks every changed block as reached, keeps the reached set reachable, and leaves every earlier block with flow reached |
| FlowJoin.JoinableGrown | llvm/lib/Transforms/IPO/SampleProfileInference.cpp:318-341 | a block that lies on a short enough path from the entry through it to an exit still does after earlier joins have raised counts, because more flow only shortens a jump |
| FlowJoin.JoinableSearchable | llvm/lib/Transforms/IPO/SampleProfileInference.cpp:366-377 | for such a block, neither half of the search for a path through it can report that no path exists |
| FlowJoin.PushEntryAndPath | llvm/lib/Transforms/IPO/SampleProfileInference.cpp:329-337 | the new blocks and jumps are exactly the joined blocks and pushed jumps of the path |
| FlowJoin.PushUnitAlong | llvm/lib/Transforms/IPO/SampleProfileInference.cpp:332-337 | the loop adds one unit to each jump on the path and to each jump's target block |
| FlowJoin.BumpEntry | llvm/lib/Transforms/IPO/SampleProfileInference.cpp:331 | adds exactly one unit to the entry block, and leaves the jumps unchanged |
| FlowJoin.Bump | llvm/lib/Transforms/IPO/SampleProfileInference.cpp:333-334 | adds exactly one unit to the jump and to its target block, and nothing else |
| FlowJoin.PushUnit | llvm/lib/Transforms/IPO/SampleProfileInference.cpp:333-336 | one unit on a jump and its target block, after which the jump's target is marked reached and every marked block is still reachable from the entry |
| FlowJoin.PushAlong | llvm/lib/Transforms/IPO/SampleProfileInference.cpp:332-337 | pushing one unit along a path adds one to every jump on it and to each jump's target block, only grows counts, marks every target as reached and keeps the reachable set closed |
| FlowJoin.JoinedKeepsBalance | llvm/lib/Transforms/IPO/SampleProfileInference.cpp:318-341 | a sequence of joins keeps balance in both directions |
| FlowShortestPath.JumpDistance | llvm/lib/Transforms/IPO/SampleProfileInference.cpp:450-459 | the distance is 0 exactly for likely jumps with flow of at least 100; unlikely jumps, jumps with flow, and jumps into weighted blocks cost at most 2^20 |
| FlowShortestPath.PathLengthBound | llvm/lib/Transforms/IPO/SampleProfileInference.cpp:450-459 | a path of k jumps is at most k times the longest possible jump distance long |
| FlowPush.Telescope | llvm/lib/Transforms/IPO/SampleProfileInference.cpp:332-337 | along a path, the jumps entering each block and the jumps leaving it differ only at the path's two ends |
| FlowPush.FlowsBump | llvm/lib/Transforms/IPO/SampleProfileInference.cpp:333-334 | adding a unit to one jump adds one to its target's inflow and its source's outflow and changes no other sums |
| FlowShortestPath.FindShortestPath | llvm/lib/Transforms/IPO/SampleProfileInference.cpp:382-441 | when a path is returned it is a jump path from the source to the target, or to an exit when no target is given, and no other such path has a smaller total distance; no path is returned only when every such path is at least INF long |
| FlowShortestPath.Search | llvm/lib/Transforms/IPO/SampleProfileInference.cpp:394-417 | the source has distance 0 and every parent jump spans at least its length in distance; the parent links end at the source; either the search stopped at a reached goal with no shorter path to any goal, or no goal was reached and every path to a goal is at least INF long |
| FlowShortestPath.EmptyQueueNoGoalPath | llvm/lib/Transforms/IPO/SampleProfileInference.cpp:394-417 | once the queue is empty with no goal reached, every path from the source to a goal is at least INF long |
| FlowShortestPath.Relax | llvm/lib/Transforms/IPO/SampleProfileInference.cpp:408-416 | relaxing a block's successors keeps the search invariant and either lowers the distance sum or leaves distances and queue unchanged |
| FlowShortestPath.SearchRound | llvm/lib/Transforms/IPO/SampleProfileInference.cpp:396-416 | one round either stops with the search finished or keeps the search invariant and strictly lowers the distance sum or the queue size |
| FlowShortestPath.First | llvm/lib/Transforms/IPO/SampleProfileInference.cpp:397-398 | picks a queued block whose distance is least, ties broken by the lower index |
| FlowShortestPath.ClosestExit | llvm/lib/Transforms/IPO/SampleProfileInference.cpp:419-427 | picks a reached exit whose distance is least among reached exits, and none iff no exit was reached |
| FlowShortestPath.ParentChain | llvm/lib/Transforms/IPO/SampleProfileInference.cpp:428-438 | the walk over parent links from the target always reaches the source (each link goes to a block settled earlier) and yields a jump path from the source to the target no longer than the target's distance |
| FlowShortestPath.FindShortestPathThrough | llvm/lib/Transforms/IPO/SampleProfileInference.cpp:366-377 | the returned path goes from the entry through the block to an exit; its first part is a shortest path to the block and its rest a shortest path from the block to any exit; no path is returned only when one of the two halves has no path shorter than INF |
| FlowDangling.SharesSum | llvm/lib/Transforms/IPO/SampleProfileInference.cpp:605-615 | the integer shares handed to the successors add up exactly to the total |
| FlowDangling.SharesBounded | llvm/lib/Transforms/IPO/SampleProfileInference.cpp:605-615 | each share and each remainder lies between 0 and the total |
| FlowDangling.SplitFlow | llvm/lib/Transforms/IPO/SampleProfileInference.cpp:605-615 | only the block's outgoing jumps change, they get the shares in order, and their flow sums to the total when the block has successors |
| FlowDangling.SplitSum | llvm/lib/Transforms/IPO/SampleProfileInference.cpp:605-615 | the completed split loop distributes exactly the total |
| FlowDangling.RebalanceBlock | llvm/lib/Transforms/IPO/SampleProfileInference.cpp:592-616 | the block's count becomes its in-flow (or the source's count for the source), and its out-jumps split that count |
| FlowDangling.RebalanceDanglingSubgraph | llvm/lib/Transforms/IPO/SampleProfileInference.cpp:587-618 | every block of the topological order is rebalanced in order, and blocks and jumps outside the subgraph are unchanged |
| FlowDangling.RebalanceNonNegative | llvm/lib/Transforms/IPO/SampleProfileInference.cpp:592-616 | rebalancing one block keeps all counts non-negative |
| FlowDangling.InFlowUnchanged | llvm/lib/Transforms/IPO/SampleProfileInference.cpp:592-616 | a block's in-flow does not change when no jump into it changes |
| FlowSubgraph.FindDanglingSubgraph | llvm/lib/Transforms/IPO/SampleProfileInference.cpp:494-538 | on success, the returned destination and member set form a dangling subgraph rooted at the source: zero-weight inner blocks, entered only through the source, left only through the destination; conversely, the search finds such a subgraph whenever one is reachable |
| FlowSubgraph.HasExit | llvm/lib/Transforms/IPO/SampleProfileInference.cpp:534-537 | reports an exit exactly when some collected dangling block is an exit block |
| FlowSubgraph.ScanSuccessors | llvm/lib/Transforms/IPO/SampleProfileInference.cpp:507-521 | scanning a block's successors keeps the search invariant, or reports a rejection with its reason |
| FlowSubgraph.SearchFindsSubgraph | llvm/lib/Transforms/IPO/SampleProfileInference.cpp:494-538 | when a reached dangling subgraph exists, the finished search has found members and a destination, and none of its members is an exit |
| FlowSubgraph.IsAcyclicSubgraph | llvm/lib/Transforms/IPO/SampleProfileInference.cpp:544-582 | on success the order is distinct, complete for the subgraph and topological; conversely, any subgraph with a topological order that is entered only from inside is accepted |
| FlowSubgraph.KahnOrder | llvm/lib/Transforms/IPO/SampleProfileInference.cpp:560-579 | the ordering loop keeps its invariant: the order starts at the source and lists distinct subgraph blocks, each with no jump into it pending from a member not ordered before it; the degrees count exactly the jumps still pending; every block entered from the order with none pending is queued; and the loop ends with an empty queue or the destination at its front |
| FlowSubgraph.DrainJump | llvm/lib/Transforms/IPO/SampleProfileInference.cpp:572-578 | one jump leaving the dequeued block: its target loses one pending in-subgraph jump and is queued exactly when none is left, keeping the queue to distinct subgraph blocks (or the destination) that have no pending jump and are not yet ordered |
| FlowSubgraph.InitialDegrees | llvm/lib/Transforms/IPO/SampleProfileInference.cpp:546-554 | each block's count is its number of incoming jumps from inside the subgraph |
| FlowSubgraph.OrderBlock | llvm/lib/Transforms/IPO/SampleProfileInference.cpp:561-575 | ordering a block keeps Kahn's invariant with the block appended to the order: counts are the pending in-subgraph predecessors and the queue holds the ready blocks |
| FlowSubgraph.OrderComplete | llvm/lib/Transforms/IPO/SampleProfileInference.cpp:580-585 | a full-length order of the subgraph is distinct, topological and holds exactly the source and its members |
| FlowSubgraph.OrderIsTopological | llvm/lib/Transforms/IPO/SampleProfileInference.cpp:556-578 | blocks ordered by Kahn's rule (all in-subgraph predecessors first) form a topological order |
| FlowSubgraph.CountSuccessors | llvm/lib/Transforms/IPO/SampleProfileInference.cpp:546-555 | each block's count grows by the number of jumps from the given block to it |
| FlowSubgraph.KahnOrdersAll | llvm/lib/Transforms/IPO/SampleProfileInference.cpp:556-578 | for an acyclic subgraph entered from inside, Kahn's loop orders every member |
| FlowSubgraph.NothingEntersSrc | llvm/lib/Transforms/IPO/SampleProfileInference.cpp:556-557 | when the source has no incoming jump from the subgraph, it starts with count zero |
| FlowSubgraph.EmptyQueueOrdersAll | llvm/lib/Transforms/IPO/SampleProfileInference.cpp:558-578 | when the queue empties in a subgraph with a topological order entered only from inside, every member has been ordered |
| FlowSubgraph.StopAtDstOrdersAll | llvm/lib/Transforms/IPO/SampleProfileInference.cpp:565-567 | stopping at the destination leaves no member unordered |
| FlowAdjust.RebalanceDanglingSubgraphs | llvm/lib/Transforms/IPO/SampleProfileInference.cpp:465-490 | jump ends and every non-dangling block are left as they were, only dangling blocks' counts may change, and non-negative counts stay non-negative |
| FlowAdjust.Run | llvm/lib/Transforms/IPO/SampleProfileInference.cpp:297-311 | jump ends are kept and counts stay non-negative; without rebalancing, every block with flow is reachable after a complete join, the join completes when every block with flow lies on a path from the entry to an exit with halves shorter than INF, and balance holds after iff it held before, so a balanced solver output passes verification |
| FlowAdjust.GrownNonNegative | llvm/lib/Transforms/IPO/SampleProfileInference.cpp:318-341 | counts that only grow from non-negative values stay non-negative |
| AutofdoSymbol.Plus | llvm/tools/llvm-create-profile/SymbolMap.cpp:69-76 | adding profile infos adds the counts and instruction counts, and every call target's count, over the union of the targets |
| AutofdoSymbol.PlusIdentity | llvm/tools/llvm-create-profile/SymbolMap.cpp:69-76 | adding an empty profile info changes nothing |
| AutofdoSymbol.PlusCommutes | llvm/tools/llvm-create-profile/SymbolMap.cpp:69-76 | addition of profile infos is commutative |
| AutofdoSymbol.PlusAssociative | llvm/tools/llvm-create-profile/SymbolMap.cpp:69-76 | addition of profile infos is associative |
| AutofdoSymbol.TargetBeforeTotal | llvm/tools/llvm-create-profile/SymbolMap.cpp:78-86 | two distinct targets are always ordered one way or the other (higher count first, then greater name) |
| AutofdoSymbol.GetSortedTargetCountPairs | llvm/tools/llvm-create-profile/SymbolMap.cpp:88-94 | the result is sorted by the comparison, has one pair per target, and holds exactly the map's name/count pairs |
| AutofdoSymbol.InsertTarget | llvm/tools/llvm-create-profile/SymbolMap.cpp:88-94 | inserting a target with a new name into a sorted list keeps it sorted and adds exactly that target |
| AutofdoSymbol.CallsiteLessStrictTotal | llvm/tools/llvm-create-profile/SymbolMap.h:68-75 | the callsite comparison is a strict total order |
| AutofdoSymbol.Name | llvm/tools/llvm-create-profile/SymbolMap.h:105-110 | never empty: a missing or empty name is shown as "noname", any other name unchanged |
| AutofdoSymbol.Merge | llvm/tools/llvm-create-profile/SymbolMap.cpp:116-137 | keeps the name, adds totals and head counts, takes the other file name only when its own is empty, adds position infos pointwise, and keeps the union of callsites |
| AutofdoSymbol.MergeCallee | llvm/tools/llvm-create-profile/SymbolMap.cpp:126-136 | a callsite present only in the receiver keeps its callee; one present in the other symbol gets the recursive merge into the receiver's callee, or into a fresh callee named after the callsite |
| AutofdoSymbol.MergeEmpty | llvm/tools/llvm-create-profile/SymbolMap.cpp:116-137 | merging a fresh symbol with an empty file name changes nothing |
| AutofdoSymbol.MergeKeepsShape | llvm/tools/llvm-create-profile/SymbolMap.cpp:116-137 | merging keeps every callee named after its callsite and its nesting well formed |
| AutofdoSymbol.AddPositionsAt | llvm/tools/llvm-create-profile/SymbolMap.cpp:121-125 | each offset's info is the sum of both symbols' infos there |
| AutofdoSymbol.MergeAddsAlongPaths | llvm/tools/llvm-create-profile/SymbolMap.cpp:116-137 | the total count found along any callsite path of the merge is the sum of the totals found along that path in both symbols |
| AutofdoSymbol.SetMax | llvm/tools/llvm-create-profile/SymbolMap.cpp:384-396 | the maximum of a non-empty set of counts is one of them and bounds all of them |
| AutofdoSymbol.MaxPosBounds | llvm/tools/llvm-create-profile/SymbolMap.cpp:384-396 | the largest position count bounds every position count and every callee's largest count, and is zero or attained by one of them |
| AutofdoSymbol.MergeMaxPos | llvm/tools/llvm-create-profile/SymbolMap.cpp:384-396 | merging never lowers the largest position count of either symbol |
| AutofdoSymbol.ApplyLeaf | llvm/tools/llvm-create-profile/SymbolMap.cpp:303-314 | the leaf update changes only the position counts: name, file, totals, head count and callsites are kept |
| AutofdoSymbol.Descend | llvm/tools/llvm-create-profile/SymbolMap.cpp:258-288 | each symbol on the frame chain gains the count in its total, a missing callee is created, other callsites are untouched, and the position counts change only at the innermost frame |
| AutofdoSymbol.TraverseInlineStack | llvm/tools/llvm-create-profile/SymbolMap.cpp:258-288 | the root's total grows by the count, and the root takes the outermost frame's file name only when its own is empty and that one is not |
| AutofdoSymbol.TraverseAddsAlongChain | llvm/tools/llvm-create-profile/SymbolMap.cpp:258-288 | every symbol along the inline chain exists afterwards and has its total raised by exactly the count |
| AutofdoSymbol.LeafUpdated | llvm/tools/llvm-create-profile/SymbolMap.cpp:301-314 | at the innermost symbol, the count at the sample's offset becomes the maximum (MAX) or the sum (SUM) of the old count and the sample count, the instruction count grows by num_inst, and targets are kept |
| AutofdoSymbol.DescendKeepsShape | llvm/tools/llvm-create-profile/SymbolMap.cpp:258-288 | a traversal keeps every callee named after its callsite and the nesting well formed |
| AutofdoSymbolMap.UpperBound | llvm/tools/llvm-create-profile/SymbolMap.h:249 | returns the first symbol whose start lies after the location, with all before it at or below |
| AutofdoSymbolMap.Locate | llvm/tools/llvm-create-profile/SymbolMap.h:247-272 | the candidate is the greatest symbol start at or before the location; it is returned iff it is in the same object file, the location is at most its end, and it has a profile entry |
| AutofdoSymbolMap.OtherFileMeansNoCandidate | llvm/tools/llvm-create-profile/SymbolMap.h:257-260 | when the nearest start lies in another object file, no symbol of the location's file starts at or before it |
| AutofdoSymbolMap.WithSymbol | llvm/tools/llvm-create-profile/SymbolMap.cpp:173-182 | adds a fresh named symbol only when the location is new, and keeps existing ones |
| AutofdoSymbolMap.WithSymbolIdempotent | llvm/tools/llvm-create-profile/SymbolMap.cpp:173-182 | adding the same location twice is the same as adding it once |
| AutofdoSymbolMap.RegisteredSymbols | llvm/tools/llvm-create-profile/SymbolMap.h:164-166 | every ELF symbol start gets exactly one fresh symbol with its name |
| AutofdoSymbolMap.EmitsMonotone | llvm/tools/llvm-create-profile/SymbolMap.h:184 | a count at or above the threshold stays emitted when it grows |
| AutofdoSymbolMap.FirstProfiled | llvm/tools/llvm-create-profile/SymbolMap.cpp:143-152 | finds the first group member that has a profile entry, if any |
| AutofdoSymbolMap.MergeGroupTotal | llvm/tools/llvm-create-profile/SymbolMap.cpp:139-171 | the master's total after merging is the sum of the totals of all profiled group members |
| AutofdoSymbolMap.MergeGroupSymbols | llvm/tools/llvm-create-profile/SymbolMap.cpp:139-171 | merging removes the later profiled members, rewrites only the master, and changes nothing for groups of one or without a profiled member |
| AutofdoSymbolMap.MergeGroupSizes | llvm/tools/llvm-create-profile/SymbolMap.cpp:160-168 | the master's merged size is the sum of all members' sizes, and other members are unchanged |
| AutofdoSymbolMap.MergeGroups | llvm/tools/llvm-create-profile/SymbolMap.cpp:139-171 | one merged group per input group |
| AutofdoSymbolMap.SymbolMap.constructor | llvm/tools/llvm-create-profile/SymbolMap.h:164-166 | the map holds one fresh symbol per ELF symbol start, with the given groups and threshold |
| AutofdoSymbolMap.SymbolMap.AddSymbol | llvm/tools/llvm-create-profile/SymbolMap.cpp:173-182 | the symbol table becomes the table with the symbol added, and nothing else changes |
| AutofdoSymbolMap.SymbolMap.RemoveSymbol | llvm/tools/llvm-create-profile/SymbolMap.cpp:189-191 | the location's entry is removed and nothing else changes |
| AutofdoSymbolMap.SymbolMap.SetCountThreshold | llvm/tools/llvm-create-profile/SymbolMap.h:180 | sets the threshold and nothing else |
| AutofdoSymbolMap.SymbolMap.AddSourceCount | llvm/tools/llvm-create-profile/SymbolMap.cpp:290-315 | with no frames or no owning symbol nothing changes; otherwise the owning symbol becomes the result of the inline-stack traversal, and an invalid operation reports exit |
| AutofdoSymbolMap.SymbolMap.MergeGroupAt | llvm/tools/llvm-create-profile/SymbolMap.cpp:140-170 | merges one group as the specification prescribes |
| AutofdoSymbolMap.SymbolMap.ScanRange | llvm/tools/llvm-create-profile/SymbolMap.cpp:149-165 | one more range of the group keeps the scan's state: the size sum covers the ranges seen, the master is the first profiled range among them, and every later profiled one seen is merged into it and removed; groups and addresses are untouched |
| AutofdoSymbolMap.SymbolMap.MergeSplitFunctions | llvm/tools/llvm-create-profile/SymbolMap.cpp:139-171 | the symbols and groups become those of merging every group in turn |
| AutofdoPerfReader.IntersectsSymmetric | llvm/tools/llvm-create-profile/PerfSampleReader.h:52-57 | two mappings intersect iff the one starting first reaches the other's start, and the test is symmetric |
| AutofdoPerfReader.InsertMapping | llvm/tools/llvm-create-profile/PerfSampleReader.h:59-67 | inserting keeps the table sorted by start and non-empty, with the smaller of the two first starts at the front |
| AutofdoPerfReader.InsertMappingStarts | llvm/tools/llvm-create-profile/PerfSampleReader.h:59-67 | the starts after insertion are the old starts plus the new one |
| AutofdoPerfReader.InsertMappingContents | llvm/tools/llvm-create-profile/PerfSampleReader.h:59-67 | a mapping whose start is already present leaves the table unchanged; otherwise the table gains exactly that mapping |
| AutofdoPerfReader.LowerBound | llvm/tools/llvm-create-profile/PerfSampleReader.h:227-231 | every mapping before the returned index starts below the address and every one from it on starts at or above it |
| AutofdoPerfReader.ResolveBelowAll | llvm/tools/llvm-create-profile/PerfSampleReader.h:236-240 | an address below every mapping does not resolve |
| AutofdoPerfReader.ResolveAgainstPreceding | llvm/tools/llvm-create-profile/PerfSampleReader.h:241-255 | an address resolves against the nearest mapping starting strictly below it, to the offset within it plus the preferred load address, or fails when it lies past that mapping's end |
| AutofdoPerfReader.ResolveAtStartUsesPrevious | llvm/tools/llvm-create-profile/PerfSampleReader.h:227-255 | the address equal to a mapping's start is resolved against the mapping before it |
| AutofdoPerfReader.ResolveFirstStartFails | llvm/tools/llvm-create-profile/PerfSampleReader.h:227-240 | the first mapping's own start address does not resolve |
| AutofdoPerfReader.TallyAccounts | llvm/tools/llvm-create-profile/PerfSampleReader.h:409-450 | every branch-stack entry but the last is either counted as a branch or counted as dropped, and at most one range per entry is counted or dropped |
| AutofdoPerfReader.TallyRangesWellFormed | llvm/tools/llvm-create-profile/PerfSampleReader.h:426-434 | every counted range is the fall-through from one entry's target to the next entry's source, in the same object file, ordered and shorter than the maximum range length |
| AutofdoPerfReader.PerfDataSampleReader.constructor | llvm/tools/llvm-create-profile/PerfSampleReader.h:361-366 | a reader starts with no mappings, empty counters, zero drop counts and the given event-number limits |
| AutofdoPerfReader.PerfDataSampleReader.ParseSingleLine | llvm/tools/llvm-create-profile/PerfSampleReader.h:361-470 | a mapping line inserts its mapping into the address space and changes no counter or drop count; an unparsed line changes nothing; an event line raises the processed count by one, leaves every counter unchanged when its number is outside the event window, and otherwise adds the resolved IP (or one dropped IP) and exactly the tally of its reversed branch stack |
| AutofdoPerfReader.PerfDataSampleReader.ProcessEvent | llvm/tools/llvm-create-profile/PerfSampleReader.h:368-468 | an event outside the event-number limits changes no counter; otherwise a non-zero IP is counted or dropped, and the counters grow by the tally of the reversed branch stack |
| AutofdoPerfReader.PerfDataSampleReader.CountIp | llvm/tools/llvm-create-profile/PerfSampleReader.h:386-397 | a non-zero IP that resolves is counted at its location, one that does not resolve is counted as dropped, and nothing else changes |
| AutofdoPerfReader.PerfDataSampleReader.CountStack | llvm/tools/llvm-create-profile/PerfSampleReader.h:398-468 | the counters grow by exactly the stack's tally: each entry's branch and fall-through range, then the last entry's branch |
| AutofdoPerfReader.PerfDataSampleReader.CountEntry | llvm/tools/llvm-create-profile/PerfSampleReader.h:409-450 | the counters grow by the entry's tally: its branch when both ends resolve (else a dropped branch) and its fall-through range |
| AutofdoPerfReader.PerfDataSampleReader.CountRange | llvm/tools/llvm-create-profile/PerfSampleReader.h:426-449 | the fall-through range is counted when valid and in one object file, counted as dropped when out of order or too long, and otherwise ignored; branches are unchanged |
| AutofdoPerfReader.PerfDataSampleReader.CountLast | llvm/tools/llvm-create-profile/PerfSampleReader.h:453-468 | the last entry's branch is counted when both ends resolve; no range is counted and no drop is recorded |
| AutofdoTextReader.ReadSpec | llvm/tools/llvm-create-profile/SampleReader.cpp:44-104 | the three sections read from the lines are each made only of records of their own kind (range, address, branch) |
| AutofdoTextReader.ReadProfileLines | llvm/tools/llvm-create-profile/SampleReader.cpp:44-121 | reading the lines written for three record lists (each section's count followed by its records) gives back exactly those lists and success |
| AutofdoTextReader.RunLengthFits | llvm/tools/llvm-create-profile/SampleReader.cpp:61-67 | the records read in a section all have the section's form, and reading stops before the declared count only at the end of input or at a malformed record |
| AutofdoTextReader.RunLengthOfRecords | llvm/tools/llvm-create-profile/SampleReader.cpp:61-67 | a run of well-formed records is read in full |
| AutofdoTextReader.ReadTruncated | llvm/tools/llvm-create-profile/SampleReader.cpp:55-104 | any proper prefix of a well-formed profile fails to read, and the ranges read from it are a prefix of the written ones |
| AutofdoTextReader.AddAllAt | llvm/tools/llvm-create-profile/SampleReader.cpp:68 | after accumulating records, each key's count is its old count plus the counts of the records for that key, and the keys are the old keys plus the records' keys |
| AutofdoTextReader.AddAllValueSum | llvm/tools/llvm-create-profile/SampleReader.cpp:68 | accumulating records raises the sum of the map's counts by the sum of the records' counts |
| AutofdoTextReader.RangeEntriesAt | llvm/tools/llvm-create-profile/SampleReader.cpp:68-69 | the i-th range record becomes the key from base + from to base + to + 1 with its count |
| AutofdoTextReader.RangeKeysFromRecords | llvm/tools/llvm-create-profile/SampleReader.cpp:55-70 | every range key added to the map comes from some record |
| AutofdoTextReader.SumValues | llvm/tools/llvm-create-profile/SampleReader.cpp:29-42 | the loop's uint64_t accumulator ends as the sum of all counts modulo 2^64 |
| AutofdoTextReader.SumWeighted | llvm/tools/llvm-create-profile/SampleReader.cpp:108-113 | the loop's uint64_t accumulator ends as the sum of count times (end - begin) modulo 2^64, each product and addition wrapping |
| AutofdoTextReader.WeightedAtLeastPlain | llvm/tools/llvm-create-profile/SampleReader.cpp:108-113 | when every range covers at least one address, the weighted total is at least the plain total, and stays so after truncation when it does not wrap |
| AutofdoTextReader.ReadRanges | llvm/tools/llvm-create-profile/SampleReader.cpp:55-70 | reports whether the declared number of range records was read, and the map gains exactly the records read |
| AutofdoTextReader.SectionAt | llvm/tools/llvm-create-profile/SampleReader.cpp:55-104 | the records of a section are the lines of its kind that directly follow the count line, at most the declared number, and the section is complete iff all declared lines are there |
| AutofdoTextReader.ReadAddresses | llvm/tools/llvm-create-profile/SampleReader.cpp:72-87 | reports whether the declared number of address records was read, and the map gains exactly the records read |
| AutofdoTextReader.ReadBranches | llvm/tools/llvm-create-profile/SampleReader.cpp:89-104 | reports whether the declared number of branch records was read, and the map gains exactly the records read |
| AutofdoTextReader.TextSampleReaderWriter.constructor | llvm/tools/llvm-create-profile/SampleReader.cpp:44-46 | a reader starts with empty maps and a zero total for its object file and base address |
| AutofdoTextReader.TextSampleReaderWriter.ReadProfile | llvm/tools/llvm-create-profile/SampleReader.cpp:44-121 | a missing file fails and changes nothing; otherwise success is exactly a well-formed file, the maps gain the records read (also those read before a failure), and on success the total is the wrapped weighted range total, or the address total when there is no range |
| AutofdoTextReader.TextSampleReaderWriter.ReadSections | llvm/tools/llvm-create-profile/SampleReader.cpp:54-107 | the three sections succeed exactly when the file is well formed, and the range, address and branch maps gain exactly the records read (on a failure, those of the sections read before it and the records of the failing section read before the failing line), with the total count untouched |
| AutofdoTextReader.TextSampleReaderWriter.GetTotalSampleCount | llvm/tools/llvm-create-profile/SampleReader.cpp:29-42 | returns the sum of the range counts when any range exists, otherwise the sum of the address counts, modulo 2^64 |
| AutofdoTextReader.TotalSampleCountOfProfile | llvm/tools/llvm-create-profile/SampleReader.cpp:29-42 | for a profile read into empty maps, that sum equals the sum of the range records' counts, or of the address records' counts when there is no range record |
| FbccOptions.SplitArg | clang/tools/fbcc-plugin/Options.cpp:38-47 | an argument without "=" is the key with value "1"; otherwise it splits at the first "=" |
| FbccOptions.FindEq | clang/tools/fbcc-plugin/Options.cpp:38-47 | finds the first '=' at or after the position, or reports that there is none |
| FbccOptions.SplitArgUnique | clang/tools/fbcc-plugin/Options.cpp:38-47 | any "key=val" with an "="-free key splits back into that key and value |
| FbccOptions.Apply | clang/tools/fbcc-plugin/Options.cpp:11-31 | a known key is set (OutFile to the text, the others to val == "1") and every other key is kept; an unknown key changes nothing |
| FbccOptions.GetDetermines | clang/tools/fbcc-plugin/Options.h:12-17 | two settings that agree on every key are equal |
| FbccOptions.Untouched | clang/tools/fbcc-plugin/Options.cpp:33-50 | a key that no argument names keeps its value |
| FbccOptions.LastAssignmentWins | clang/tools/fbcc-plugin/Options.cpp:33-50 | a known key ends with the value of its last assignment |
| FbccOptions.UnknownIgnored | clang/tools/fbcc-plugin/Options.cpp:25-30 | arguments naming only unknown keys change nothing |
| FbccOptions.Options.constructor | clang/tools/fbcc-plugin/Options.h:12-17 | options start with the declared defaults |
| FbccOptions.Options.HandleArg | clang/tools/fbcc-plugin/Options.cpp:11-31 | the options become Apply of the old options, and a warning is issued iff the key is unknown |
| FbccOptions.Options.Parse | clang/tools/fbcc-plugin/Options.cpp:33-50 | the options become the result of applying every argument in order |
| FbccFileState.NewRecord | clang/tools/fbcc-plugin/FileState.h:38-65 | a new record has the given index and entry and every other field at its default |
| FbccFileState.DisplayName | clang/tools/fbcc-plugin/FileState.h:71-77 | a real file is shown by its path, anything else by its spelling |
| FbccFileState.Initial | clang/tools/fbcc-plugin/FileState.cpp:18-24 | the state starts with one main-file record on the stack |
| FbccFileState.AddFile | clang/tools/fbcc-plugin/FileState.cpp:44-48 | appends a new record indexed by its position and keeps the stack |
| FbccFileState.AfterInclude | clang/tools/fbcc-plugin/FileState.cpp:60-71 | appends a record one level below the current file, system if angled or included from a system header, and keeps the stack |
| FbccFileState.AfterPragmaSystemHeader | clang/tools/fbcc-plugin/FileState.cpp:73-75 | marks the current file as a system header and nothing else |
| FbccFileState.AfterExitFile | clang/tools/fbcc-plugin/FileState.cpp:77 | pops the stack and keeps the records |
| FbccFileState.AfterEnterFile | clang/tools/fbcc-plugin/FileState.cpp:79-84 | marks the last record entered with its file id and pushes it |
| FbccFileState.AfterFilenameChanged | clang/tools/fbcc-plugin/FileState.cpp:86-101 | appends a filename-change record that inherits depth and flags from the current file, and replaces the top of the stack with it |
| FbccFileState.GetRecord | clang/tools/fbcc-plugin/FileState.h:96-98 | a record exists iff the index is in range, and then it carries that index |
| FbccFileState.Replay | clang/tools/fbcc-plugin/FileState.cpp:44-101 | replaying callbacks keeps the state well formed; the replay stops (None) as soon as the stack is empty before a callback, whatever that callback is, since an empty stack means preprocessing has ended |
| FbccFileState.ReplayAccounting | clang/tools/fbcc-plugin/FileState.h:135-145 | records only grow; their number grows by the callbacks that add files, and the stack depth moves by enters minus exits |
| FbccFileState.FileState.constructor | clang/tools/fbcc-plugin/FileState.cpp:18-24 | the object's state is the initial state |
| FbccFileState.FileState.AddFileHere | clang/tools/fbcc-plugin/FileState.cpp:44-48 | the object's state becomes AddFile of the old state |
| FbccFileState.FileState.OnInclude | clang/tools/fbcc-plugin/FileState.cpp:60-71 | the object's state becomes AfterInclude of the old state |
| FbccFileState.FileState.OnPragmaSystemHeader | clang/tools/fbcc-plugin/FileState.cpp:73-75 | the object's state becomes AfterPragmaSystemHeader of the old state |
| FbccFileState.FileState.OnExitFile | clang/tools/fbcc-plugin/FileState.cpp:77 | the object's state becomes AfterExitFile of the old state |
| FbccFileState.FileState.OnEnterFile | clang/tools/fbcc-plugin/FileState.cpp:79-84 | the object's state becomes AfterEnterFile of the old state |
| FbccFileState.FileState.OnFilenameChanged | clang/tools/fbcc-plugin/FileState.cpp:86-101 | the object's state becomes AfterFilenameChanged of the old state |
| GraphChangeLog.InsertSorted | llvm/lib/IR/GraphChangeLog.cpp:106 | inserting into a sorted list keeps it sorted and adds exactly the element |
| GraphChangeLog.SortIndices | llvm/lib/IR/GraphChangeLog.cpp:106 | the result is a sorted permutation of the input |
| GraphChangeLog.SortedDistinct | llvm/lib/IR/GraphChangeLog.cpp:117 | a sorted list without repeats is strictly increasing |
| GraphChangeLog.AfterPassTracked | llvm/lib/IR/GraphChangeLog.cpp:69-120 | after a pass, exactly the blocks and instructions of the current body are tracked |
| GraphChangeLog.AfterPassDeleted | llvm/lib/IR/GraphChangeLog.cpp:99-119 | a block or instruction is reported deleted iff it was tracked before and is gone now, and the deletions are reported in increasing index order |
| GraphChangeLog.AfterPassBlocks | llvm/lib/IR/GraphChangeLog.cpp:76-83 | every block of the body is visited in order, a new block gets the next index and is reported created in this pass |
| GraphChangeLog.AfterPassInsts | llvm/lib/IR/GraphChangeLog.cpp:84-97 | every instruction is visited, new ones are reported created, and a move is reported exactly when an instruction's block changed |
| GraphChangeLog.FinalPassReports | llvm/lib/IR/GraphChangeLog.cpp:122-147 | the final report visits and reports every block and instruction without recording a pass |
| GraphChangeLog.FinalReported | llvm/lib/IR/GraphChangeLog.cpp:122-147 | the final walk's events, after the final marker, report every block and instruction |
| GraphChangeLog.NameCountAbsent | llvm/lib/IR/GraphChangeLog.cpp:70-72 | a name never run has instance count zero |
| GraphChangeLog.NameCountAppend | llvm/lib/IR/GraphChangeLog.cpp:70-72 | recording a pass raises its name's count by one and no other's |
| GraphChangeLog.PassListAppend | llvm/lib/IR/GraphChangeLog.cpp:70-72 | a pass's instance number is one more than the number of earlier runs of the same name |
| GraphChangeLog.TablesBounded | llvm/lib/IR/GraphChangeLog.cpp:69-120 | valid tables refer only to existing passes and indices |
| GraphChangeLog.SweepBlockTable | llvm/lib/IR/GraphChangeLog.cpp:100-105 | the sweep drops exactly the stale blocks and collects their indices |
| GraphChangeLog.SweepInstTable | llvm/lib/IR/GraphChangeLog.cpp:111-116 | the sweep drops exactly the stale instructions and collects their indices |
| GraphChangeLog.WriteBlocksDeleted | llvm/lib/IR/GraphChangeLog.cpp:107-108 | one deletion line per collected block index, in order |
| GraphChangeLog.WriteInstsDeleted | llvm/lib/IR/GraphChangeLog.cpp:118-119 | one deletion line per collected instruction index, in order |
| GraphChangeLog.MovesAfterSweep | llvm/lib/IR/GraphChangeLog.cpp:91-95 | every 'inst moved' line in the log names an instruction that really changed block |
| GraphChangeLog.StaleInstsDropped | llvm/lib/IR/GraphChangeLog.cpp:110-116 | the stale instruction indices found by the sweep are exactly the indices of tracked instructions no longer in the body |
| GraphChangeLog.StaleBlocksDropped | llvm/lib/IR/GraphChangeLog.cpp:99-105 | the stale block indices found by the sweep are exactly the indices of tracked blocks no longer in the body |
| GraphChangeLog.TrackedAfterSweep | llvm/lib/IR/GraphChangeLog.cpp:99-119 | after the walk and the sweep, a block or instruction is tracked iff it occurs in the body |
| GraphChangeLog.BodyReportedSpec | llvm/lib/IR/GraphChangeLog.cpp:75-97 | the body walk's events report every block and instruction of the body as their visits prescribe, every 'inst moved' line is a real move, and no pass header or deletion line appears |
| GraphChangeLog.BodyInstsSpec | llvm/lib/IR/GraphChangeLog.cpp:75-97 | after the body walk, every instruction of a well-formed body is visited and records the index of the block it is in |
| GraphChangeLog.BodyBlocksSpec | llvm/lib/IR/GraphChangeLog.cpp:75-97 | after the body walk, every block of a well-formed body is tracked and visited, and no other block entry changes |
| GraphChangeLog.BlockWalkSpec | llvm/lib/IR/GraphChangeLog.cpp:75-97 | walking a block tracks and stamps it, writes its 'new' and 'final' lines when due, and visits and reports each of its distinct instructions under the block's index |
| GraphChangeLog.InstsWalkSpec | llvm/lib/IR/GraphChangeLog.cpp:83-96 | after walking distinct instructions of a block, each of them is visited and reported as its visit prescribes, and the other entries are unchanged |
| GraphChangeLog.BlockEntrySpec | llvm/lib/IR/GraphChangeLog.cpp:76-82 | entering a block tracks it, keeps a tracked block's index or gives a new one an index from the counter on, stamps the pass, and reports 'new' only for an untracked block and 'final' only in the final pass |
| GraphChangeLog.VisitInstSpec | llvm/lib/IR/GraphChangeLog.cpp:84-96 | a visit adds the instruction to the table and changes no other entry; a new instruction gets an index from the counter on, the instruction records its current block and the pass; the events are 'new', 'moved' or none, plus 'final' in the final pass |
| GraphChangeLog.ChangeLogger.constructor | llvm/lib/IR/GraphChangeLog.cpp:31-65 | a logger starts with empty tables and pass list for the named function |
| GraphChangeLog.ChangeLogger.VisitInstruction | llvm/lib/IR/GraphChangeLog.cpp:85-96 | an untracked instruction gets a fresh index in the current block and an 'inst new' line; a tracked one found in another block gets an 'inst moved' line and its new block; the final pass adds an 'inst final' line; no other entry changes |
| GraphChangeLog.ChangeLogger.VisitInstructions | llvm/lib/IR/GraphChangeLog.cpp:84-97 | every instruction of the block is visited in order, with the events of each visit concatenated |
| GraphChangeLog.ChangeLogger.EnterBlock | llvm/lib/IR/GraphChangeLog.cpp:77-83 | an untracked block gets a fresh index and a 'block new' line, a tracked one keeps its index; a pass stamps its number, and the final pass adds a 'block final' line |
| GraphChangeLog.ChangeLogger.VisitBlock | llvm/lib/IR/GraphChangeLog.cpp:76-97 | entering the block and then visiting its instructions, with the entry's events before the instructions' events |
| GraphChangeLog.ChangeLogger.VisitBody | llvm/lib/IR/GraphChangeLog.cpp:76-98 | every block of the body is visited in order, each followed by its instructions |
| GraphChangeLog.ChangeLogger.SweepBlocks | llvm/lib/IR/GraphChangeLog.cpp:99-108 | every block not stamped by this pass is dropped from tracking, and the deleted list is their indices in increasing order |
| GraphChangeLog.ChangeLogger.SweepInstructions | llvm/lib/IR/GraphChangeLog.cpp:110-119 | every instruction not stamped by this pass is dropped from tracking, and the deleted list is their indices in increasing order |
| GraphChangeLog.ChangeLogger.StateBounded | llvm/lib/IR/GraphChangeLog.cpp:69-120 | the logger's invariant implies its state is bounded |
| GraphChangeLog.ChangeLogger.BeginPass | llvm/lib/IR/GraphChangeLog.cpp:70-73 | the pass is recorded with the next instance number for its name |
| GraphChangeLog.ChangeLogger.SweepTables | llvm/lib/IR/GraphChangeLog.cpp:99-119 | both tables are swept and the deletions are logged |
| GraphChangeLog.ChangeLogger.AfterPass | llvm/lib/IR/GraphChangeLog.cpp:69-120 | the logger's state and log become those of the after-pass specification |
| GraphChangeLog.ChangeLogger.FinalPass | llvm/lib/IR/GraphChangeLog.cpp:122-147 | the logger's state and log become those of the final-pass specification |
| GraphChangeLog.ChangeLogger.RunAfterPass | llvm/lib/IR/GraphChangeLog.cpp:161-165 | for the configured function before the final pass has run, the state and log become the after-pass result; otherwise nothing changes |
| GraphChangeLog.ChangeLogger.RunFinalPass | llvm/lib/IR/GraphChangeLog.cpp:183-188 | for the configured function before the final pass has run, the state and log become the final-pass result; afterwards the final pass counts as seen |
| CfgChangeLog.IsIdentical | llvm/lib/Passes/CFGChangeLogManager.cpp:77-96 | two nodes compare identical iff they agree on everything but the name |
| CfgChangeLog.IdenticalIgnoresOnlyName | llvm/lib/Passes/CFGChangeLogManager.cpp:77-96 | identical means equal after copying the other node's name |
| CfgChangeLog.IdenticalEquivalence | llvm/lib/Passes/CFGChangeLogManager.cpp:77-96 | the comparison is reflexive, symmetric and transitive |
| CfgChangeLog.NodesCfgKeys | llvm/lib/Passes/CFGChangeLogManager.cpp:179-267 | the CFG holds a node for exactly the pointers that occur |
| CfgChangeLog.NodesCfgFirst | llvm/lib/Passes/CFGChangeLogManager.cpp:179-267 | each pointer maps to its first occurrence |
| CfgChangeLog.InsertNodes | llvm/lib/Passes/CFGChangeLogManager.cpp:179-267 | the loop builds that CFG |
| CfgChangeLog.LogBefore | llvm/lib/Passes/CFGChangeLogManager.cpp:274-288 | lists exactly the changed and deleted nodes of the old CFG |
| CfgChangeLog.LogAfter | llvm/lib/Passes/CFGChangeLogManager.cpp:292-297 | lists exactly the nodes of the new CFG that were not in the old one |
| CfgChangeLog.PrintChangeLog | llvm/lib/Passes/CFGChangeLogManager.cpp:269-301 | "created" iff there is no old CFG; a node is reported changed, deleted or inserted iff it is; "no change" iff no change line appears, and then last; an unchanged CFG gives only "no change" |
| CfgChangeLog.ChangedWhenLines | llvm/lib/Passes/CFGChangeLogManager.cpp:269-301 | a change line appears iff either half of the report is non-empty |
| CfgChangeLog.PrintChangeLogLines | llvm/lib/Passes/CFGChangeLogManager.cpp:269-301 | the two halves together carry exactly the created, changed, deleted and inserted lines |
| CfgChangeLog.SelfLinesEmpty | llvm/lib/Passes/CFGChangeLogManager.cpp:269-301 | comparing a CFG with itself yields no lines |
| CfgChangeLog.EveryNameTargetIffWildcard | llvm/lib/Passes/CFGChangeLogManager.cpp:305-313 | every function is a target iff "*" is listed |
| CfgChangeLog.LogCallsMembers | llvm/lib/Passes/CFGChangeLogManager.cpp:419-455 | a log call is made exactly for each defined target function of the IR unit |
| CfgChangeLog.RunAfterPass | llvm/lib/Passes/CFGChangeLogManager.cpp:419-455 | pass managers and adaptors are ignored; otherwise exactly the target functions are logged |
| DwarfAnalyze.ContextEquals | llvm/tools/llvm-dwarfdump/Analyze.cpp:243-246 | two contexts compare equal iff they are equal |
| DwarfAnalyze.ContextLessStrictTotal | llvm/tools/llvm-dwarfdump/Analyze.cpp:247-251 | the context order is a strict total order |
| DwarfAnalyze.Popped | llvm/tools/llvm-dwarfdump/Analyze.cpp:335-342 | popping yields the first context, or the null context when empty, and the rest |
| DwarfAnalyze.PopFrontShifts | llvm/tools/llvm-dwarfdump/Analyze.cpp:335-352 | after popping, the context at i is the old one at i + 1 |
| DwarfAnalyze.PopManyInOrder | llvm/tools/llvm-dwarfdump/Analyze.cpp:335-352 | popping n times yields the first n contexts in order |
| DwarfAnalyze.DeclContextList.constructor | llvm/tools/llvm-dwarfdump/Analyze.cpp:256-334 | the list holds the given contexts |
| DwarfAnalyze.DeclContextList.Get | llvm/tools/llvm-dwarfdump/Analyze.cpp:348-352 | returns the context at the index, or the null context past the end |
| DwarfAnalyze.DeclContextList.PopFront | llvm/tools/llvm-dwarfdump/Analyze.cpp:335-342 | the object's list and result become those of Popped |
| DwarfAnalyze.TypeKeyEquals | llvm/tools/llvm-dwarfdump/Analyze.cpp:380-382 | two type keys compare equal iff they are equal |
| DwarfAnalyze.TypeKeyLessStrictTotal | llvm/tools/llvm-dwarfdump/Analyze.cpp:383-389 | the type-key order is a strict total order |
| DwarfAnalyze.SplitIsDwarfSectionName | llvm/tools/llvm-dwarfdump/Analyze.cpp:33-36 | a name splitting into a ".debug", "__debug", ".apple" or "__apple" prefix and a suffix is a DWARF section name |
| DwarfAnalyze.IsDwarfSectionNameSplits | llvm/tools/llvm-dwarfdump/Analyze.cpp:33-36 | every DWARF section name splits that way |
| DwarfAnalyze.FindRange | llvm/tools/llvm-dwarfdump/Analyze.cpp:502-508 | returns the first range from the start index on that contains the address, or the end when none does |
| DwarfAnalyze.ContainsTextAddress | llvm/tools/llvm-dwarfdump/Analyze.cpp:502-508 | true iff there are no text ranges or some range contains the address |
| DwarfAnalyze.RangeTotalAppend | llvm/tools/llvm-dwarfdump/Analyze.cpp:129-142 | the range total of a concatenation is the sum of the totals |
| DwarfAnalyze.NonEmpty | llvm/tools/llvm-dwarfdump/Analyze.cpp:134-140 | every range kept has its high PC above its low PC |
| DwarfAnalyze.RangeTotalIgnoresEmpty | llvm/tools/llvm-dwarfdump/Analyze.cpp:129-142 | empty ranges add nothing to the total |
| DwarfAnalyze.CalculateDieRangeSize | llvm/tools/llvm-dwarfdump/Analyze.cpp:129-142 | returns the total size of the non-empty ranges modulo 2^64 |
| DwarfAnalyze.InsertAt | llvm/tools/llvm-dwarfdump/Analyze.cpp:517-529 | inserting adds the size to the directory and to each directory along the path |
| DwarfAnalyze.InsertAtAlongPath | llvm/tools/llvm-dwarfdump/Analyze.cpp:517-529 | the child on the path receives the size, creating it when missing |
| DwarfAnalyze.NewDirConsistent | llvm/tools/llvm-dwarfdump/Analyze.cpp:517-529 | a new directory is consistent |
| DwarfAnalyze.ChildSumInsertAt | llvm/tools/llvm-dwarfdump/Analyze.cpp:517-529 | inserting into one child raises the children's sum by the size |
| DwarfAnalyze.InsertAtConsistent | llvm/tools/llvm-dwarfdump/Analyze.cpp:517-529 | insertion keeps every directory's size at least the sum of its children's sizes |
| DwarfAnalyze.InsertAllTotals | llvm/tools/llvm-dwarfdump/Analyze.cpp:762-764 | after all insertions, the root's size is the sum of the inserted sizes, and the tree stays consistent |
| DwarfAnalyze.LeadingSeparators | llvm/tools/llvm-dwarfdump/Analyze.cpp:553-564 | counts the leading separator components |
| DwarfAnalyze.LeadingSeparatorsUnique | llvm/tools/llvm-dwarfdump/Analyze.cpp:553-564 | the count is the unique index of the first non-separator component |
| DwarfAnalyze.DirTree.constructor | llvm/tools/llvm-dwarfdump/Analyze.cpp:551 | the tree starts as an empty root directory with size zero |
| DwarfAnalyze.DirTree.Insert | llvm/tools/llvm-dwarfdump/Analyze.cpp:553-564 | the root becomes InsertAt of the path with its leading separators dropped, so the size reaches every directory along it |
| JsonEscape.EscapeLength | llvm/tools/llvm-memaccess/LlvmMemaccess.cpp:49-64 | escaping adds one character per quote or backslash |
| JsonEscape.EscapeRoundTrip | llvm/tools/llvm-memaccess/LlvmMemaccess.cpp:49-64 | unescaping an escaped string gives it back |
| JsonEscape.QuotesEscaped | llvm/tools/llvm-memaccess/LlvmMemaccess.cpp:49-64 | every quote in the output is preceded by a backslash |
| JsonEscape.EscapeAppend | llvm/tools/llvm-memaccess/LlvmMemaccess.cpp:49-64 | escaping distributes over concatenation |
| JsonEscape.EscapePlain | llvm/tools/llvm-memaccess/LlvmMemaccess.cpp:49-64 | a string without quotes or backslashes is unchanged |
| JsonEscape.Find | llvm/tools/llvm-memaccess/LlvmMemaccess.cpp:52-53 | returns the first occurrence at or after the start, or none |
| JsonEscape.DumpJSONEscaped | llvm/tools/llvm-memaccess/LlvmMemaccess.cpp:49-64 | the loop writes exactly the escaped string |
| JsonEscape.SkipPlain | llvm/tools/llvm-memaccess/LlvmMemaccess.cpp:52-60 | copying a run without special characters writes it unchanged |
| JsonEscape.DumpJSONString | llvm/tools/llvm-memaccess/LlvmMemaccess.cpp:66-70 | writes the escaped string between quotes |
| FixRepoText.GetComment | llvm/utils/fb-scripts/fix-repo.py:99-112 | the comment marker is chosen by the file's extension, or by its name for text files |
| FixRepoText.ExtensionOf | llvm/utils/fb-scripts/fix-repo.py:103-109 | the extension is what follows the last dot of the last path component |
| FixRepoText.LastSeparator | llvm/utils/fb-scripts/fix-repo.py:103-109 | finds the last path separator |
| FixRepoText.LastDot | llvm/utils/fb-scripts/fix-repo.py:103-109 | finds the last dot after the last separator |
| FixRepoText.CommentForFile | llvm/utils/fb-scripts/fix-repo.py:99-112 | C-family files get "//", scripts "#", and the rest nothing |
| FixRepoText.TextFileComment | llvm/utils/fb-scripts/fix-repo.py:103-109 | CMake text files get "#" |
| FixRepoText.TextName | llvm/utils/fb-scripts/fix-repo.py:103-109 | identifies the text-file names that take a comment |
| FixRepoText.NoExtensionNoComment | llvm/utils/fb-scripts/fix-repo.py:103-109 | a file without an extension or known name gets no comment |
| FixRepoText.RStrip | llvm/utils/fb-scripts/fix-repo.py:275 | removes exactly the trailing whitespace |
| FixRepoText.LStrip | llvm/utils/fb-scripts/fix-repo.py:274 | removes exactly the leading whitespace |
| FixRepoText.ApplyMarkers | llvm/utils/fb-scripts/fix-repo.py:259-285 | the output is the input with each marker placed at its line: appended to the line when a single marker fits in 80 columns, otherwise on a line before |
| FixRepoText.RewrittenExpected | llvm/utils/fb-scripts/fix-repo.py:259-285 | every output line is the input line or the marker placement for it |
| FixRepoText.EmitExpected | llvm/utils/fb-scripts/fix-repo.py:268-284 | a line with a marker is emitted as described, one without unchanged |
| FixRepoText.MarkerAt | llvm/utils/fb-scripts/fix-repo.py:267-282 | finds the marker that applies at a line |
| FixRepoText.AnyMatch | llvm/utils/fb-scripts/fix-repo.py:440-447 | true iff some pattern matches the path |
| FixRepoText.ShouldProcessFile | llvm/utils/fb-scripts/fix-repo.py:436-448 | a file is processed iff it exists, matches no exclusion, and there is no inclusion list or it matches one |
| FixRepoHunks.ValueNat | llvm/utils/fb-scripts/fix-repo.py:298-301 | a digit string's value is a natural number |
| FixRepoHunks.ValueShow | llvm/utils/fb-scripts/fix-repo.py:298-301 | printing a number and reading it back gives the number |
| FixRepoHunks.ParseRange | llvm/utils/fb-scripts/fix-repo.py:298-302 | a successful range parse consumes at least one character, leaving a strictly shorter rest |
| FixRepoHunks.ParseHunkHeader | llvm/utils/fb-scripts/fix-repo.py:287-302 | a line that does not start with "@@ -" is rejected as a bad header |
| FixRepoHunks.ParseHeaderText | llvm/utils/fb-scripts/fix-repo.py:287-302 | printing a header and parsing it back gives the intervals |
| FixRepoHunks.MarkedRange | llvm/utils/fb-scripts/fix-repo.py:298-301 | a printed start with an optional count, followed by a space, parses back to the start, the count (1 when absent) and the rest |
| FixRepoHunks.HeaderParts | llvm/utils/fb-scripts/fix-repo.py:287-302 | a line made of "@@ -", a range, " +", a range and " @@" parses to the half-open intervals [a, a+b) and [c, c+d) |
| FixRepoHunks.WithSentinels | llvm/utils/fb-scripts/fix-repo.py:356-357 | two end markers are appended after the changes, which keep their order |
| FixRepoHunks.Check | llvm/utils/fb-scripts/fix-repo.py:365-389 | a successful scan stops no earlier than it started and still has a next change to look at |
| FixRepoHunks.CheckFinds | llvm/utils/fb-scripts/fix-repo.py:365-389 | each flag is set iff a change of that kind among those scanned lies inside the hunk; the scanned changes lie at or before the hunk's end and the next one after it |
| FixRepoHunks.CheckComplete | llvm/utils/fb-scripts/fix-repo.py:365-389 | on a sorted list with every earlier change before the hunk, each flag is set iff any change of that kind lies inside the hunk |
| FixRepoHunks.HunkChecker.constructor | llvm/utils/fb-scripts/fix-repo.py:353-363 | a checker holds the changes with sentinels and starts at the first one |
| FixRepoHunks.HunkChecker.CheckHunk | llvm/utils/fb-scripts/fix-repo.py:365-389 | on success the flags and the new position are those of the scan; running out of changes is an error |
| FixRepoHunks.CheckStep | llvm/utils/fb-scripts/fix-repo.py:370-388 | one step of the scan adds to the flags whether the current change of each kind lies inside the hunk, and moves on |
| FixRepoHunks.ClassifyAsWritten | llvm/utils/fb-scripts/fix-repo.py:414-419 | as written, the removal checker is never advanced |
| FixRepoHunks.ClassifyAsWrittenDropsRemovals | llvm/utils/fb-scripts/fix-repo.py:414-419 | a hunk whose only change is an external removal is dropped as written and kept by the corrected classification |
| FixRepoHunks.ClassifyKeepsExternalOnly | llvm/utils/fb-scripts/fix-repo.py:414-421 | a hunk is kept iff it has an external addition or removal and no internal one |
| MemaccessTypes.FieldBytesCoverBits | llvm/tools/llvm-memaccess/analyse.py:270-277 | a field's byte span covers its bit span |
| MemaccessTypes.TypeSizeOf | llvm/tools/llvm-memaccess/analyse.py:270-277 | a type's size is at least the end of each field |
| MemaccessTypes.Shorten | llvm/tools/llvm-memaccess/analyse.py:364-367 | the result is never longer; it is the input iff that fits, and otherwise the prefix, "..", and the suffix |
| MemaccessTypes.ShortenAsWrittenLengthens | llvm/tools/llvm-memaccess/analyse.py:364-367 | as written, a string just above the threshold gets longer |
| MemaccessTypes.ShortenAsWrittenExample | llvm/tools/llvm-memaccess/analyse.py:364-367 | a 49-character name with limits 10 and 40 grows to 52 characters |
| MemaccessTypes.MergeTypesCases | llvm/tools/llvm-memaccess/analyse.py:190-217 | a new type is added; a declaration never replaces a definition; a definition replaces a declaration |
| MemaccessTypes.MergeTypesKeyed | llvm/tools/llvm-memaccess/analyse.py:190-217 | merging keeps every type stored under its own identifier |
| MemaccessTypes.MergeTypesTotals | llvm/tools/llvm-memaccess/analyse.py:70-86 | merging into an existing type adds the read and write counts |
| MemaccessTypes.AccessOf | llvm/tools/llvm-memaccess/analyse.py:95-100 | "load" and "store" map to reads and writes, anything else is an error |
| MemaccessTypes.OverlapsIffSharedByte | llvm/tools/llvm-memaccess/analyse.py:103 | the overlap test holds iff the field and the access share a byte |
| MemaccessTypes.ClampAsWrittenMovesEnd | llvm/tools/llvm-memaccess/analyse.py:90-92 | as written, clamping a negative offset moves the end of the access right by the offset's magnitude |
| MemaccessTypes.ClampAsWrittenTouchesMemberPastAccess | llvm/tools/llvm-memaccess/analyse.py:90-92 | as written, clamping makes an access overlap a field it does not touch |
| MemaccessTypes.Clamp | llvm/tools/llvm-memaccess/analyse.py:90-92 | the corrected clamp keeps the end of the access and starts it at zero |
| MemaccessTypes.ClampKeepsOverlaps | llvm/tools/llvm-memaccess/analyse.py:102-103 | the corrected clamp overlaps a field iff the unclamped access does |
| MemaccessTypes.ApplyAtGrows | llvm/tools/llvm-memaccess/analyse.py:89-114 | applying an access never lowers a counter |
| MemaccessTypes.ApplyMember | llvm/tools/llvm-memaccess/analyse.py:104-114 | an overlapped field gets the count added to its counter and to its own type |
| MemaccessTypes.ApplyFields | llvm/tools/llvm-memaccess/analyse.py:102-114 | the field loop updates exactly the overlapped fields from the given index on |
| MemaccessTypes.ApplyAt | llvm/tools/llvm-memaccess/analyse.py:89-114 | applying an access to one type counts it on exactly the fields the access overlaps, recursing into their types, and leaves every type being visited unchanged |
| MemaccessTypes.ApplyOverlappingGrows | llvm/tools/llvm-memaccess/analyse.py:102-114 | each overlapped field's counter grows by the count |
| MemaccessTypes.ApplyOpAsWritten | llvm/tools/llvm-memaccess/analyse.py:89-114 | as written, the operation fails iff the size after clamping is below 1 or the kind is invalid |
| MemaccessTypes.ApplyOpSpecOutcome | llvm/tools/llvm-memaccess/analyse.py:89-114 | the corrected operation fails iff the access is empty or the kind is invalid, and otherwise adds the count to the type's counter |
| MemaccessTypes.ApplyOpAsWrittenCountsPastAccess | llvm/tools/llvm-memaccess/analyse.py:89-114 | on an 8-byte load at offset 0 of S{int a; B b}, the as-written operation counts a read of B.y and the corrected one does not |
| MemaccessTypes.ExampleReachesB | llvm/tools/llvm-memaccess/analyse.py:112-114 | the example's load reaches the nested B |
| MemaccessTypes.SizeAt | llvm/tools/llvm-memaccess/analyse.py:123-124 | sets one field's size and changes nothing else |
| MemaccessTypes.GuessAt | llvm/tools/llvm-memaccess/analyse.py:117-128 | a known size is returned unchanged; otherwise every unknown field size is filled in and the result is the largest field end |
| MemaccessTypes.GuessFieldsStep | llvm/tools/llvm-memaccess/analyse.py:121-127 | one field step keeps the running maximum |
| MemaccessTypes.GuessMember | llvm/tools/llvm-memaccess/analyse.py:122-123 | a field's size is filled in with a non-negative size and nothing else of the type changes |
| MemaccessTypes.GuessFields | llvm/tools/llvm-memaccess/analyse.py:121-127 | the loop fills in every unknown field size from the given index on, changes nothing else, and returns the largest field end |
| MemaccessTypes.TypeTable.constructor | llvm/tools/llvm-memaccess/analyse.py:389-400 | the table starts empty |
| MemaccessTypes.TypeTable.MergeTypes | llvm/tools/llvm-memaccess/analyse.py:190-217 | the table becomes the merge specification applied to the old table |
| MemaccessTypes.TypeTable.ApplyOp | llvm/tools/llvm-memaccess/analyse.py:89-114 | follows the corrected operation: on success the table becomes its result; on error the table is unchanged and the error is returned |
| MemaccessTypes.TypeTable.Apply | llvm/tools/llvm-memaccess/analyse.py:94-114 | the table becomes ApplyAt of the old table |
| MemaccessTypes.TypeTable.ApplyToMember | llvm/tools/llvm-memaccess/analyse.py:102-114 | the table becomes ApplyMember of the old table |
| MemaccessTypes.TypeTable.GuessTypeSize | llvm/tools/llvm-memaccess/analyse.py:117-128 | the size and the table are those of GuessAt |
| MemaccessTypes.TypeTable.GuessField | llvm/tools/llvm-memaccess/analyse.py:123-127 | one member of the loop: filling in its size when unknown and taking in its end continues the loop exactly as GuessFields describes, with no type added or removed and no field count changed |
| MemaccessTypes.TypeTable.GuessMemberSize | llvm/tools/llvm-memaccess/analyse.py:122-124 | the table becomes GuessMember of the old table |

## Left out

- MinCostFlowSolver.MinCostFlow.FindAugmentingPath: the SPFA search pops at most a fixed budget of nodes. When the budget runs out it reports an incomplete search, and MinCostFlow.Run then stops. The source loops until the queue is empty. So Run's result is not claimed to be the converged minimum-cost flow; only its conservation, capacity and cost facts are proved.
- MinCostFlowSolver.MinCostFlow.FindPathCapacity, MinCostFlowSolver.MinCostFlow.UpdateAugmentingPath, MinCostFlowSolver.MinCostFlow.Run: a parent chain that revisits a node stops the walk with failure (`ok` false), where the source would loop forever. Only a search over a residual graph with a negative-cost cycle can build such a chain. The solver starts from zero flow over non-negative costs (SampleProfileInference.cpp:173-181 and 712) and successive shortest paths keep negative cycles out, but that its residual graphs have no negative-cost cycle is not proved, so `ok` is not shown to hold.
- AutofdoLocation.LocLess: the order on instruction locations (object file name first, then offset) is assumed. InstructionLocation's `operator<` is not part of this model; only the comment at SymbolMap.h:257-258 supports this order. AutofdoSymbolMap.Locate, AutofdoSymbolMap.UpperBound and AutofdoSymbolMap.OtherFileMeansNoCandidate rely on it.
- MinCostFlowSolver.MinCostFlow.Run: flows, capacities and costs are unbounded integers, and INF is 2^40. The source's `uint64_t`/`int64_t` wrap-around is not modelled; the source relies on the counts staying far below it.
- FlowShortestPath.FindShortestPath, FlowShortestPath.FindShortestPathThrough, FlowJoin.JoinIsolatedComponents: distances are unbounded integers and INF is 2^40. A path is proved to be found whenever one shorter than INF exists; PathLengthBound shows this covers every path of fewer than INF / MaxJumpDistance jumps. When no such path exists the model returns no path and the join skips the block, where the source asserts that a path exists (SampleProfileInference.cpp:428).
- FlowVerify.VerifyWeights, FlowAdjust.Run: WeightsOk after the whole pipeline (solve, extract, adjust) is not proved outright. What is proved: extracted counts are non-negative; joining keeps balance in both directions; conservation implies equal totals; and reachability holds after a complete join. Conservation of the solver's extracted counts at every block is not connected to MinCostFlow.Run's node conservation.
- FlowAdjust.Run: with dangling-subgraph rebalancing enabled, only "jump ends kept" and "counts non-negative" are proved. Conservation and reachability after rebalancing are not. They depend on the dominance conditions that the source's comment at SampleProfileInference.cpp:305-308 assumes but the subgraph search does not check.
- FlowAdjust.RebalanceDanglingSubgraphs: the loop over all blocks is stated only as "jump ends and non-dangling blocks untouched, counts non-negative". Each single subgraph's rebalancing is stated exactly by FlowDangling.RebalanceDanglingSubgraph, but the composition of those steps over all blocks is not.
- FlowExtraction.ExtractedFlowsNonNegative: proved for blocks without a self edge. A self-edge block's count also adds the out→aux flow `getFlow(out, aux)` (SampleProfileInference.cpp:756-760), and proving that sum non-negative needs conservation at the block's out node, which is not modelled.
- The IR adapter that builds a FlowFunction from basic blocks, `findUnlikelyJumps` (invoke and unreachable terminators), and the final write-back of weights into the IR are not part of this model; they depend on LLVM IR.
- Floating point: the dangling-block probability and the symbol map's threshold fraction are not modelled as floating point. The threshold is a real number, and percentages are not printed.
- AutofdoSymbolMap.FindSymbolFromLocation: when no symbol matches, the model returns nothing. The source asserts (SymbolMap.h:263), and its `map_[]` lookup inserts a null entry for the location; that inserted key is not modelled.
- AutofdoSymbolMap.SymbolMap.MergeSplitFunctions: it requires the ranges of each group to start at distinct addresses. The groups come from the debug-table symbol loader, which is not part of this model, and hold the disjoint ranges of one split function.
- AutofdoSymbol.Merge: symbols are values, not shared `Symbol*` pointers, so aliasing between a callsite and the map is not modelled, and neither is the destructor's deletion set.
- AutofdoSymbolMap.SymbolMap.AddSourceCount: per-location counts and totals are unbounded. The source's `uint64_t` counters would wrap only after 2^64 samples.
- AutofdoTextReader.AddAllAt, AutofdoTextReader.RangeEntriesAt: per-key counts and the addresses `base + from`, `base + to + 1` are unbounded integers. The source adds them in `uint64_t` and would wrap only past 2^64; only the total sample count and the weighted sum are modelled with wrap-around.
- AutofdoTextReader.ReadSpec: the file is modelled as a sequence of lines, each already classified as a count, a range, an address, a branch or something else; the `fscanf` stream semantics are lost. In the source, the `"\n"` that ends each format (SampleReader.cpp:55, 62, 74, 81, 90, 97) matches any run of whitespace, including none, so a count and the next record may share a line (`3abc-def:1`) and a record may span lines; the model accepts neither. `%lu` and `%lx` also accept a leading sign (and `%lx` a `0x` prefix) and wrap a too-large value modulo 2^64, where the model's numbers are the non-negative values of well-formed lines.
- AutofdoPerfReader.PerfDataSampleReader.ParseSingleLine: an event line must carry a non-empty branch stack. For an empty stack the source computes `lbr.size() - 1`, which wraps, so the loop bound becomes huge. The perf script text is modelled as already classified records (mapping, event, other), not as the regular expressions that recognise them.
- `conflictingMemoryMapping` (PerfSampleReader.h:338-351) is not modelled. Nothing in these files calls it; `intersects`, which it uses, is.
- FixRepoText.RStrip, FixRepoText.LStrip: whitespace is the ASCII set. Python's `str.isspace` also accepts \x1c-\x1f, \x85 and Unicode spaces.
- FixRepoHunks.ParseHunkHeader: `\d` is taken as ASCII digits only. Python 3 also matches other Unicode decimal digits.
- Git and subprocess calls (`getDiff`, `commandOutput`, `getChanges`), temporary files, argument parsing and `matchMaster` in fix-repo.py are I/O and are not modelled. `buildPatch` is modelled as its hunk classification.
- MemaccessTypes.GuessAt, MemaccessTypes.ApplyOpAsWritten: recursion into a type already being visited stops there, and a missing nested type counts as size 0. In the source, a recursive type never terminates and a missing type raises an error.
- The reading of type and load/store files, ODR checks, response files and the command line of analyse.py, and the JSON writer of LlvmMemaccess.cpp apart from its string escaper, are I/O and are not modelled.
- DwarfAnalyze.InsertAt: directory sizes are unbounded integers, while DwarfAnalyze.CalculateDieRangeSize wraps mod 2^64. The directory sizes are sums of section sizes of one object file, far below 2^64; the DIE range total adds arbitrary address differences and can wrap.
- `DIEDeclContext`'s `==` and `<` (Analyze.cpp:353-357) are not modelled separately; they compare the list of DWARF contexts lexicographically, which the model covers through DwarfAnalyze.ContextLessStrictTotal. The DWARF reading, the inline tree and the report printing depend on LLVM's DWARF library and are not modelled.
- CfgChangeLog.RunAfterPass: the global cache of the previous CFG per function, the mutex that guards it, and the dot dump are not modelled. The previous CFG is a parameter. IR and MIR population is modelled as a list of nodes.
- GraphChangeLog.ChangeLogger.RunAfterPass: the source creates the logger only for a named function (GraphChangeLog.cpp:203-213); the model instead keeps the logger and branches on `functionToLog != ""`, doing nothing when no function is named. Output streams are modelled as lists of events.
- The fbcc plugin's Action, Consumer and Result files, its diagnostics and its output writing are not part of this model.

## Findings

| source | as written | input that shows it | evidently intended | confidence | as-written member | corrected member |
|---|---|---|---|---|---|---|
| llvm/tools/llvm-memaccess/analyse.py:90-92 | a negative offset is clamped with `size -= offset`, which moves the end of the access right by the offset's magnitude, and the clamp repeats at every nesting level | struct S {int a@0; B b@4}, B {int x@0; int y@4}, an 8-byte load at offset 0: at b the access is (-4, 8), clamped to (0, 12), so B.y is counted although the load ends at byte 8 of S | `size += offset`, keeping the end of the access | not executed; high | MemaccessTypes.ApplyOpAsWrittenCountsPastAccess | MemaccessTypes.ClampKeepsOverlaps |
| llvm/tools/llvm-memaccess/analyse.py:365 | the test `len(string) <= prefix_max + suffix_max - 2` shortens strings that are already short enough, making them longer | a 49-character string with limits 10 and 40 becomes 52 characters | `len(string) <= prefix_max + suffix_max + 2` | not executed; high | MemaccessTypes.ShortenAsWrittenExample | MemaccessTypes.Shorten |
| llvm/utils/fb-scripts/fix-repo.py:415 | the removal flags come from `Added.checkHunk(NewHunk)` instead of `Removed.checkHunk(OldHunk)` | one external addition at new line 20, in a later hunk (so `buildRevertPatch` goes on to `buildPatch`), and one external removal at old line 5, hunk -3,5 +3,4: as written that hunk is dropped; it should be kept | `Removed.checkHunk(OldHunk)` | not executed; high | FixRepoHunks.ClassifyAsWrittenDropsRemovals | FixRepoHunks.ClassifyKeepsExternalOnly |
