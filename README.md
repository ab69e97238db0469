# Multi-provider freight routing: a Dafny model

This project models the routing core of a freight-booking tool. The tool routes a shipment between
two postcodes across the networks of several carriers ("providers"). Each provider groups
postcodes into zones and prices zone-to-zone routes by weight. A route search moves through
vertices of two kinds:
- a postcode `PC(code)`;
- a provider zone `PZ(zone, provider)`.

It enters a provider's network at a zone listing the origin postcode, follows that provider's
priced routes, leaves the network at a member postcode, and may enter another provider's network
there.

The model covers three parts.
- **The data model** (`data_model.py`):
  - the route price formula;
  - the `GraphIndex` with its four lookup maps and its getters;
  - `PathNode` identity and priority;
  - the path record, whose providers are de-duplicated on construction.
- **The bidirectional engine** (`engine.py`):
  - edge generation and the A* search with its `visited` set;
  - the parent-pointer walk and the merge of the two search trees at postcodes;
  - `find_mltihop_path`, `create_default_path`, and the `RouteOptimizer` that sorts, scores and
    ranks paths.
- **The forward engine** (`engine_new.py`):
  - forward edge generation and the A* search that stops at the first pop of the destination;
  - path reconstruction, which records transit segments only;
  - `create_default_path` and the pass-through `RouteOptimizer`.

Modules, one per file:

| file | module | models |
|---|---|---|
| `common.dfy` | `Common` | infinity-aware costs (`ExtReal`), dict-of-lists and last-write dicts, `list(set(...))`, `reverse`, Option |
| `data_model.dfy` | `DataModel` | entities, `calculateCost`, `PathNode`, `MultiHopPath` |
| `graph_index.dfy` | `Index` | `GraphIndex`: the four `_build*` loops and the getters |
| `search_tree.dfy` | `SearchTree` | the heap, search-tree shape, parent chains, sums along them |
| `sorting.dfy` | `Sorting` | Python's stable `list.sort(key=...)` and slicing |
| `bidirectional.dfy` | `Bidirectional` | `_get_neighbors`, the heuristics, `_astar_search` |
| `bidirectional_paths.dfy` | `BidirectionalPaths` | `_unroll_path`, `_merge_paths`, `create_default_path`, `find_mltihop_path` |
| `optimizer.dfy` | `Optimizer` | `RouteOptimizer` of `engine.py` |
| `forward.dfy` | `Forward` | `FreightAStarEngine`'s heuristics and `_get_forward_neighbors` |
| `forward_search.dfy` | `ForwardSearch` | `_reconstruct_path` of `engine_new.py` |
| `forward_loop.dfy` | `ForwardLoop` | the main loop of `engine_new.py`'s `find_mltihop_path` |
| `forward_engine.dfy` | `ForwardEngine` | `find_mltihop_path`, `create_default_path` and `RouteOptimizer` of `engine_new.py` |

**How Python constructs are modelled**
- `float('inf')` is `PosInf` of `ExtReal`, and Python's comparisons with it are modelled exactly.
- An exception (`ValueError`, `ZeroDivisionError`) and a loop that never ends are both explicit
  outcomes.
- The state of each search (`g_score`, `came_from`, `edge_data`, the heap and the counter) lives
  in local dicts and lists. The model keeps it as map and sequence values, updated by methods
  whose loops mirror the source's loops.

## Model

| member | source | states |
|---|---|---|
| DataModel.ProviderZoneRoute.CalculateCost | data_model.py:71-77 | a non-positive weight costs exactly the minimum charge, with no levy; otherwise max(base + weight·rate, minimum) marked up by the levy percentage |
| DataModel.CostAtLeastMinCharge | data_model.py:73-77 | with a non-negative minimum charge and levy, no weight costs less than the minimum charge |
| DataModel.CostMonotoneInWeight | data_model.py:73-77 | with non-negative rate, minimum and levy, a heavier shipment never costs less |
| DataModel.CostStrictlyIncreasing | data_model.py:75-77 | above the minimum charge, with a positive rate, a strictly heavier shipment costs strictly more |
| DataModel.CostIncreasesWithLevy | data_model.py:75-77 | raising the fuel levy never lowers a positive-weight price, and strictly raises it when the minimum charge is positive |
| DataModel.CostExamples | data_model.py:71-77 | base 15, rate 0.5, minimum 2, no levy: 100 kg costs 65, and 0 kg costs the minimum 2 |
| DataModel.PathNode.FCost | data_model.py:115-118 | the priority minus the estimate is the cost so far, and is at least that cost when the estimate is non-negative |
| DataModel.SameAsIsIdentity | data_model.py:107-113 | node equality is an equivalence on the (type, id, provider) triple that ignores hops and costs |
| DataModel.NewMultiHopPath | data_model.py:121-139 | the providers list holds no repeats and the same providers as given; the other fields are as given or at their defaults |
| Common.Dedup | data_model.py:137-139 | the result holds no repeats, holds exactly the input's elements, and is no longer than the input |
| Common.DedupOfDistinct | data_model.py:137-139 | de-duplicating a repeat-free list leaves it unchanged |
| Common.GroupIsValuesAt | data_model.py:181-186 | a dict of lists filled by appending has a key exactly when some entry has it, listing that key's values in entry order |
| Common.LastWriteWins | data_model.py:169 | a dict filled by assignment has exactly the entry keys, each mapped to the value of its last entry |
| Common.InFlatten | data_model.py:242-244 | an element is in the concatenation exactly when it is in one of the lists |
| Common.CollectAllSpec | engine.py:303-336 | collecting succeeds exactly when every application does, and the i-th result is that of the i-th element |
| Common.Reverse | engine_new.py:158-159 | the i-th element is the i-th from the end |
| Common.ReversePermutes | engine_new.py:158-159 | reversing keeps the same elements, counted with repeats |
| Common.LeIsTotalPreorder | engine.py:68 | `<=` on finite-or-infinite costs is reflexive, transitive and total |
| Index.BuildRouteAdjacency | data_model.py:178-198 | the outgoing (or incoming) map groups every route under (provider, from-zone) (or to-zone), in input order |
| Index.BuildPCtoZoneMap | data_model.py:200-209 | postcode → the (provider key, zone code) of every zone listing it, in iteration order |
| Index.BuildZoneToPCMap | data_model.py:211-218 | (provider key, zone code) → the member list of the last zone with that key |
| Index.NewGraphIndex | data_model.py:168-176 | the built index satisfies its invariant, the postcode map keeps the last record per code, and the collections are kept |
| Index.OutgoingRoutesSpec | data_model.py:220-222 | outgoing(p, z) is exactly the routes with provider p and source zone z, in input order, and `[]` when there are none |
| Index.IncomingRoutesSpec | data_model.py:224-226 | incoming(p, z) is exactly the routes with provider p and target zone z, in input order, and `[]` when there are none |
| Index.OutgoingIncomingMirror | data_model.py:220-226 | r is outgoing from (r.providerId, r.fromZone) exactly when it is incoming to (r.providerId, r.toZone) |
| Index.ZonesForPostcodeSpec | data_model.py:228-230 | (p, zc) is listed for pc exactly when some zone under dict key p has code zc and lists pc |
| Index.InMembershipEntries | data_model.py:203-208 | a (postcode, zone key) pair is entered exactly when some zone under that key lists the postcode |
| Index.InZoneEntries | data_model.py:214-217 | a (zone key, members) entry is made exactly when some provider key files such a zone |
| Index.ZoneKeyKnown | data_model.py:211-218 | a zone key is in the zone → postcodes map exactly when some provider key lists a zone with that code |
| Index.PostcodesForZoneSpec | data_model.py:232-234 | an unlisted zone answers `[]`; a listed one answers the members of the last zone with that key |
| Index.PostcodeMapSpec | data_model.py:169 | a code is known exactly when some postcode record has it, and maps to a record with that code |
| Index.GraphIndex.GetProviders | data_model.py:236-238 | one provider key per entry of the zone dict, in insertion order, so exactly its keys |
| Index.GetAllZones | data_model.py:240-244 | every provider's zone list concatenated in insertion order, so a zone is returned exactly when some provider lists it (the argument is ignored) |
| SearchTree.MinIndex | engine.py:99 | the position `heappop` takes from holds an entry ordered before every entry of the heap by (f, counter) |
| SearchTree.PopMin | engine.py:99 | `heappop` returns the entry at `MinIndex`, ordered before every other by (f, counter), and leaves exactly the others in their order |
| SearchTree.TiesPopInPushOrder | engine_new.py:37-41 | with each entry's counter its own, the popped entry has the least f, and the earliest push among equal f |
| SearchTree.CountersPush | engine_new.py:79-80 | pushing under a counter above every one handed out keeps the counters distinct |
| SearchTree.HeapNodesPush | engine.py:137 | pushing an entry adds exactly its vertex to the queued vertices |
| SearchTree.HeapNodesPop | engine.py:99 | popping loses at most the popped entry's vertex |
| SearchTree.RelaxKeepsTree | engine.py:121-135 | recording a strictly cheaper parent within `maxCost` keeps the tree shape and raises no cost |
| SearchTree.ChainShape | engine_new.py:138-155 | the parent walk starts at its node, ends where `ChainEnd` says, and stops early only at a node without a parent |
| SearchTree.ChainFollowsParents | engine.py:287 | each node of a parent walk but the last has the next node as its parent |
| SearchTree.ReverseWalk | engine_new.py:158-159 | a walk up the parent pointers, reversed, is a walk down them |
| SearchTree.ChainCostBound | engine.py:269 | along a complete parent walk, the edge costs add up to at most the node's cost minus the root's |
| SearchTree.CompleteChainCost | engine_new.py:136-137 | a complete parent walk from a costed node ends at the start, costing at most that node's cost, and within `maxCost` unless it is the start |
| SearchTree.AcyclicRoot | engine.py:80-93 | the start alone, costed and without parents, is ordered by (cost, push counter) |
| SearchTree.AcyclicRelax | engine.py:128-138 | recording a strictly cheaper parent over an edge of non-negative cost, stamped with the next push counter, keeps the parent pointers ordered by (cost, push counter) |
| SearchTree.ChainDescends | engine.py:264-287 | along a parent walk of ordered pointers, each later node comes strictly before each earlier one in (cost, push counter) order |
| SearchTree.Pigeonhole | engine_new.py:136 | a walk longer than the set it is drawn from repeats a node |
| SearchTree.AcyclicChainsEnd | engine.py:264-287 | with ordered parent pointers, every walk of `|came_from|` steps up from a costed node stops at a node without a parent |
| SearchTree.RankedChainEnds | engine_new.py:136-155 | under a given ordering stamp, the walk from one costed node stops at a node without a parent |
| Sorting.SortByProperties | engine.py:68 | sorting gives the same elements in key order, and elements with equal keys keep their order |
| Sorting.SortByLength | engine.py:68 | sorting changes no length |
| Sorting.SortBySorted | engine.py:364 | a list already sorted by the key is left as it is |
| Sorting.InsertStable | engine.py:68 | inserting puts the new element after every element with an equal key and moves none of them |
| Sorting.Take | engine.py:69 | `s[:k]` is the first k elements, all of them for a large k, and all but the last -k for a negative k |
| Sorting.TakeSorted | engine.py:69 | a prefix of a sorted list is sorted |
| Bidirectional.NewEngine | engine.py:22-36 | the engine keeps its index and postcodes, with coordinates for exactly the eight states and territories |
| Bidirectional.HeuristicProperties | engine.py:197-220 | the estimate is symmetric, 0 for an unknown postcode or a state without coordinates, 0 or √0 between postcodes of one state, and never negative when the square root is not |
| Bidirectional.EmptyStateIsNSW | engine.py:209-210 | an empty state is estimated exactly as NSW |
| Bidirectional.HeuristicNodeProperties | engine.py:222-232 | a postcode's own estimate; a zone's is that of its first member postcode, 0 for a zone without members (so for a zone no provider lists) and 0 towards an unknown goal; never negative when the square root is not |
| Bidirectional.GetNeighbors | engine.py:146-195 | `_get_neighbors` returns the edges of `Neighbors` in index order |
| Bidirectional.PostcodeNeighbors | engine.py:157-162 | from a postcode the only edges are free entries into exactly the zones that list it |
| Bidirectional.ZoneNeighbors | engine.py:164-193 | from a zone: exactly its provider's outgoing (or incoming) routes, priced for the weight and timed by `deliveryHrs`, plus free exits to its members |
| Bidirectional.BackwardReversesRoutes | engine.py:165-186 | a route edge a → b exists forward exactly when the same route leads b → a backward, at the same price and time |
| Bidirectional.EdgeShapes | engine.py:157-193 | postcodes lead only to zones; routes stay inside one provider; only routes cost anything |
| Bidirectional.NeighborsInVertices | engine.py:146-195 | expansion never leaves the finite set of vertices the index names |
| Bidirectional.EdgeCostNonNegative | engine.py:164-193 | with no route priced below zero, no edge costs less than zero |
| Bidirectional.TakeEdgeKeepsSearchOk | engine.py:121-138 | recording an improving, admissible, genuine edge keeps the search state's shape, queues its target and, with no route priced below zero, keeps the parent pointers ordered by (cost, push counter) |
| Bidirectional.TakeEdgeKeepsAcyclic | engine.py:128-138 | with no route priced below zero, the recorded edge's target takes the pushed counter as its stamp and the parent pointers stay ordered |
| Bidirectional.TakeEdgeCosts | engine.py:128-129 | recording an improvement lowers no cost, adds at most the target, queues it and reaches it |
| Bidirectional.EdgeRelaxed | engine.py:115-138 | meeting one edge either leaves the state as it is or records exactly its target, at the expansion cost plus the edge, within `maxCost`, and strictly below any cost the target had |
| Bidirectional.EdgesRelaxed | engine.py:115-138 | meeting a list of edges only adds costed vertices |
| Bidirectional.EdgesRelaxedSnoc | engine.py:115 | the edges are met in list order: the first `i + 1` edges are the first `i`, then edge `i` |
| Bidirectional.RelaxEdge | engine.py:115-138 | one neighbour: the new state is `EdgeRelaxed` of the old, so it is unchanged when the neighbour is not strictly cheaper or is over `maxCost`/`maxETD`, and otherwise exactly the state with that edge recorded and its target pushed at cost plus estimate, the target's cost strictly dropping; the shape is kept and the neighbour ends reached |
| Bidirectional.Relax | engine.py:115-138 | after the inner loop the state is `EdgesRelaxed`, the neighbours met in list order; it keeps its shape, no cost rose, new vertices are queued, and every admissible neighbour is reached |
| Bidirectional.CloseVertex | engine.py:101-113 | lowering costs keeps expanded vertices closed, and a fully expanded vertex can join them |
| Bidirectional.PendingAfterPop | engine.py:99-103 | after a pop every costed, unvisited vertex is still queued |
| Bidirectional.AllVisited | engine.py:98 | once the heap is empty every costed vertex has been visited |
| Bidirectional.ExpandWithin | engine.py:103-110 | a vertex of the tree is expanded at its current cost, within `maxCost` unless it is the start at cost 0 |
| Bidirectional.PopKeepsSearching | engine.py:99-103 | popping keeps the state's shape; popping an already visited vertex keeps the whole loop invariant |
| Bidirectional.Expand | engine.py:103-138 | marking the popped vertex visited and expanding it (unless over `maxCost`) gives exactly `Visit`, keeps the loop invariant, and records the expansion cost, which is within `maxCost` or the start's 0 |
| Bidirectional.Iterate | engine.py:98-138 | one iteration is exactly `Step` (pop the least entry, skip a visited vertex, else `Visit`), keeps the invariant, and visits a new vertex or shortens the heap, so the loop ends |
| Bidirectional.StepPops | engine.py:99-103 | with a nonempty heap, an iteration takes off the least entry and either passes over a visited vertex or visits it |
| Bidirectional.ExploreSnoc | engine.py:98 | while entries are queued, one more iteration of the loop is one more step |
| Bidirectional.ExploreSettles | engine.py:98 | once the heap is empty the loop has stopped: further iterations change nothing |
| Bidirectional.ExploredUnique | engine.py:71-144 | the search is deterministic: any two runs to an empty heap return the same parents, costs and edges |
| Bidirectional.SearchLoop | engine.py:98-138 | the loop ends with the heap empty and the state of `steps` iterations of `Step` from the initial one; every costed vertex was expanded, within `maxCost` or as the start at 0, and every expansion within `maxCost` reached all admissible neighbours |
| Bidirectional.AStarSearch | engine.py:71-144 | the result is the one the main loop leaves from the initial state (`Explored`, so unique): a search tree from the start, within `maxCost`, of genuine edges within `maxETD`, over the finite vertex set, every vertex expanded, within `maxCost` or as the start at 0; with no route priced below zero, every parent walk in it ends |
| BidirectionalPaths.UnrollPath | engine.py:252-289 | `_unroll_path` equals `Unroll`: nodes from the end node up the parents, one segment per node with edge data, costs and times summed |
| BidirectionalPaths.UnrollFollowsParents | engine.py:263-287 | the unrolled walk starts at the end node, follows the parent pointers, and stops at a node without a parent |
| BidirectionalPaths.SegmentsSpec | engine.py:267-285 | a segment is recorded exactly for the nodes with edge data, and only a zone-route segment names a provider |
| BidirectionalPaths.SegmentsPerStep | engine.py:267-285 | in a search tree, a complete walk has one segment per step |
| BidirectionalPaths.UnrollFailsOnlyOnCycle | engine.py:264-287 | the walk gives up only when the parent pointers hold a cycle |
| BidirectionalPaths.UnrollInTree | engine.py:252-289 | unrolling a search tree from a costed node reaches the root at no more than the node's cost |
| BidirectionalPaths.MergeProperties | engine.py:316-334 | the merged path lists exactly the providers its segments name, each once, and counts them as its hops; cost and time are the two walks' sums; the node list, one shorter than the two walks together, starts at the forward root, passes the meeting node where the forward walk ends, and ends at the backward root |
| BidirectionalPaths.MergeShape | engine.py:308-319 | the merged path runs from the origin down the forward tree to the meeting node, then up the backward tree, at the walks' summed cost |
| BidirectionalPaths.MergedPathShape | engine.py:303-336 | a merged path runs origin → meeting postcode → destination and costs at most the two recorded costs added |
| BidirectionalPaths.DefaultPath | engine.py:343-345 | the fallback: nodes [origin, destination], no segments, infinite cost and time, no providers, no hops |
| BidirectionalPaths.MergePaths | engine.py:291-341 | one merged path per meeting postcode, the meetings being exactly the common postcodes; the fallback alone when there is none; failure only when some merge walks a cyclic parent chain |
| BidirectionalPaths.MergedFromMeetings | engine.py:303-339 | every returned path is the fallback or the merge at a meeting postcode, and there is one path per meeting postcode, or the fallback alone |
| BidirectionalPaths.MergeAtDefined | engine.py:303-336 | when every parent walk of both trees ends, every meeting postcode merges |
| BidirectionalPaths.SearchBothWays | engine.py:61-62 | forward from the origin towards the destination and backward from the destination towards the origin: exactly the trees `_astar_search` returns (`Explored`), each a search tree of genuine edges within both thresholds over the vertices the index names, every costed vertex expanded within `maxCost` (or the start at 0) and every admissible neighbour of such an expansion reached; with no route priced below zero, every parent walk ends |
| BidirectionalPaths.SearchExpandsStart | engine.py:80-138 | with `maxCost` at least 0, a search expands its start within `maxCost` and reaches every admissible neighbour of it |
| BidirectionalPaths.FindMultiHopPath | engine.py:38-69 | unknown origin, then unknown destination, are reported before searching; otherwise both searches run as `_astar_search` does, the meetings are exactly the common postcodes, and the result is the merged paths (the fallback alone without meetings) sorted by cost, first `topK`; divergence only when those two searches meet at a postcode whose merge walks a cyclic chain, never with no route priced below zero |
| BidirectionalPaths.SearchAndMerge | engine.py:61-69 | for known postcodes: both searches as `_astar_search` runs them, the merge at exactly the common postcodes, sorted by cost and cut to `topK`; divergence only when the two searches meet at a postcode whose merge walks a cyclic chain, never with no route priced below zero |
| BidirectionalPaths.FoundPathsRanked | engine.py:68-69 | the result is sorted by cost, has at most `topK` paths, at least one when `topK` ≥ 1, all from the merged list |
| Optimizer.Unoptimized | engine.py:353-354 | the fallback path without searching |
| Optimizer.OptimizedForCost | engine.py:356-359 | the merged list of the engine's two searches (without a cost bound) sorted by cost, first ten: at least one, sorted, from the merged list; divergence only when those searches meet at a postcode whose merge walks a cyclic chain, so never for known postcodes with no route priced below zero |
| Optimizer.OptimizedForTime | engine.py:361-365 | the ten cheapest paths of the engine's merged list (without a time bound) re-sorted by time, the same paths, equal times kept in cost order; divergence only when those searches meet at a postcode whose merge walks a cyclic chain, so never for known postcodes with no route priced below zero |
| Optimizer.Inverse | engine.py:374-375 | `1/(1 + x/scale)`: division by zero exactly at x = -scale, a value in (0, 1] for non-negative x, and 0 for infinite x |
| Optimizer.ScoreBounds | engine.py:372-379 | with non-negative cost and time and reliability in [0, 1], the score exists and lies in [0, 1] |
| Optimizer.CheaperScoresHigher | engine.py:374-379 | all else equal, the cheaper path scores at least as high |
| Optimizer.FasterScoresHigher | engine.py:375-379 | all else equal, the faster path scores at least as high |
| Optimizer.InverseAntitone | engine.py:374-375 | the inverse does not increase as its argument grows from 0 |
| Optimizer.ScorePaths | engine.py:372-379 | each path gets its score and nothing else changes; a division by zero is reported |
| Optimizer.AssignRanks | engine.py:382-383 | paths ranked 1, 2, ... in list order, nothing else changed |
| Optimizer.OptimizeMultiCriteria | engine.py:367-384 | the fifteen cheapest paths of the engine's merged list, scored, sorted by score highest first (stably), ranked from 1; a division by zero in the score is reported; the search diverges only when its two searches meet at a postcode whose merge walks a cyclic chain, so never for known postcodes with no route priced below zero |
| Optimizer.RankedByScore | engine.py:381-383 | the ranked list's scores never increase |
| Optimizer.RanksAreConsecutive | engine.py:382-383 | ranks run 1..N without gaps or repeats |
| Forward.NewFreightEngine | engine_new.py:15-25 | the engine keeps its index and postcodes, with coordinates for exactly the eight states and territories |
| Forward.HeuristicProperties | engine_new.py:115-127 | the estimate is symmetric, 0 for an unknown postcode, never negative when the square root is not, and equal to `engine.py`'s whenever both states are listed and non-empty |
| Forward.GetForwardNeighbors | engine_new.py:87-113 | `_get_forward_neighbors` returns the steps of `ForwardNeighbors` in index order |
| Forward.StepShapes | engine_new.py:92-111 | postcodes yield free entries tagged with the zone's provider; zones yield transits along their outgoing routes at `calculateCost` and `deliveryHrs`, and free exits to members |
| Forward.SameEdgesAsBidirectional | engine_new.py:87-113 | the forward expansion gives the same moves in the same order as `engine.py`'s forward expansion |
| Forward.HeuristicNodeProperties | engine_new.py:124-127 | a postcode's own estimate; a zone's is that of its first member postcode, 0 for a zone without members (so for a zone no provider lists) and 0 towards an unknown goal; never negative when the square root is not |
| Forward.StepCostNonNegative | engine_new.py:92-111 | with no route priced below zero, no step costs less than zero |
| ForwardSearch.ReconstructPath | engine_new.py:129-169 | `_reconstruct_path` equals `Reconstruct`, which gives up only on a cyclic parent chain |
| ForwardSearch.ReconstructGivesUp | engine_new.py:136 | a parent chain still going after `|came_from|` steps gives no path |
| ForwardSearch.ReconstructStep | engine_new.py:136-155 | each step up adds its edge's cost, time and (transit only) segment |
| ForwardSearch.ReconstructDone | engine_new.py:157-169 | when the walk stops at a node without parent, the path is the walk reversed with the sums and distinct providers |
| ForwardSearch.InTransitSegments | engine_new.py:143-152 | a segment is recorded exactly for the nodes reached by a transit step |
| ForwardSearch.InSegmentProviders | engine_new.py:145 | a provider is collected exactly when some transit segment names it |
| ForwardSearch.ReconstructProviders | engine_new.py:129-169 | segments are transit segments only; providers are exactly those the segments name, each once; hops are their number |
| ForwardSearch.ProvidersMatchSegments | engine_new.py:143-169 | with the segments reversed, each segment's provider is listed and each listed provider names a segment |
| ForwardSearch.ReconstructWalk | engine_new.py:155-159 | nodes run from the parentless root down the parent pointers to the goal; the cost is the sum along the chain |
| ForwardSearch.ReconstructInTree | engine_new.py:129-169 | from a costed vertex of a search tree: origin to vertex, at most the vertex's cost, within `maxCost` unless it is the origin |
| ForwardSearch.ReconstructAtRoot | engine_new.py:136-169 | a node without parent gives itself alone, no segments, zero cost and time, no hops |
| ForwardSearch.ReconstructFailsOnlyOnCycle | engine_new.py:136-155 | reconstruction gives up only when the parent chain meets a node twice |
| ForwardLoop.TakeStepKeepsSearchOk | engine_new.py:70-80 | recording an improving step within `maxCost` keeps the search state's shape, queues its target and, with no route priced below zero, keeps the parent pointers ordered by (cost, push counter) |
| ForwardLoop.TakeStepKeepsAcyclic | engine_new.py:70-80 | with no route priced below zero, the step's target takes the pushed counter as its stamp and the parent pointers stay ordered |
| ForwardLoop.TakeStepCosts | engine_new.py:70-72 | recording an improvement lowers no cost, keeps every queued vertex queued, queues every vertex whose cost changed, and reaches the target |
| ForwardLoop.TakeStepCounters | engine_new.py:79-80 | the pushed entry gets the next counter, above all others, keeping counters distinct |
| ForwardLoop.Relaxed | engine_new.py:66-80 | relaxing one neighbour either changes nothing or costs exactly one vertex more, the step's target |
| ForwardLoop.RelaxedAll | engine_new.py:65-80 | relaxing a list of neighbours in order never uncosts a vertex |
| ForwardLoop.RelaxStep | engine_new.py:65-80 | one neighbour: the state is unchanged over `maxCost` or when not strictly cheaper; otherwise it is exactly the state with that step recorded and its target pushed under the next counter, and the target's cost strictly drops; the shape is kept, changed costs are queued, and the neighbour ends reached |
| ForwardLoop.RelaxNeighbors | engine_new.py:63-80 | the inner loop leaves exactly the state of relaxing the neighbours one by one in list order (`RelaxedAll`); the expanded vertex is queued again or kept its cost and reached every neighbour |
| ForwardLoop.PendingAfterExpand | engine_new.py:49-80 | after a pop and its expansion, every costed vertex not queued has reached all its neighbours |
| ForwardLoop.ExpandNext | engine_new.py:59-80 | the new state is exactly `Expanded`: the popped entry removed and, unless the vertex is over `maxCost`, every neighbour relaxed in order; the loop invariant is kept |
| ForwardLoop.RunWith | engine_new.py:49-80 | the loop unrolled for a budget: it stops on an empty heap with the heap empty, and on the budget only with entries still queued |
| ForwardLoop.Run | engine_new.py:49-80 | `RunWith` with the source's own iteration: on the budget it stops only with entries still queued |
| ForwardLoop.RunExpands | engine_new.py:50-80 | popping a vertex other than the destination and expanding it is one iteration of `Run` |
| ForwardLoop.RunSettles | engine_new.py:49-57 | a run that stops within a budget, on the destination or an empty heap, stops in the same state and the same way under any larger budget |
| ForwardLoop.RunSplit | engine_new.py:49-80 | a run cut short after `a` iterations and resumed for `b` more is the run for `a + b` |
| ForwardLoop.Iterate | engine_new.py:50-80 | one iteration: either the destination is popped, ending the run as `Run` does, or the rest of the run continues from the expanded state with one iteration less; the invariant is kept |
| ForwardLoop.SearchLoop | engine_new.py:47-80 | ends at the first pop of the destination (costed), or with the heap empty, every costed vertex done and the destination never costed, or on the budget only while entries are still queued (at once for a budget of 0); a heap holding only the destination stops at once; the final state and the way it ended are exactly those of `Run` for the budget |
| ForwardLoop.WalksStayCosted | engine_new.py:47-80 | with every costed vertex done, any walk from the origin within `maxCost` ends at a costed vertex, at no more than the walk's cost |
| ForwardLoop.NoWalkToGoal | engine_new.py:82-83 | when the heap runs dry without the destination costed, no walk within `maxCost` reaches it |
| ForwardEngine.FallbackPath | engine_new.py:171-178 | the fallback: no nodes, no segments, infinite cost and time, no hops |
| ForwardEngine.InitialSearching | engine_new.py:35-45 | the initial state (origin at 0, queued with counter 0) satisfies the loop invariant |
| ForwardEngine.FindPath | engine_new.py:27-85 | unknown origin, then destination, reported; a search tree within `maxCost` of genuine steps; the fallback alone when the heap runs dry, no walk reaching the destination; else the one reconstructed path; the final state is that of `Run` from the initial state, and the budget runs out only while entries remain queued; with no route priced below zero every parent walk ends and the result never diverges; origin = destination gives [origin] at cost 0 with no hops |
| ForwardEngine.FindSettles | engine_new.py:49-57 | an answer reached within a budget is the answer under any larger budget: the budget only cuts the search short |
| ForwardEngine.FoundPathFacts | engine_new.py:49-57 | a found path runs origin → destination by genuine forward steps, within `maxCost`, with consistent providers and hop count |
| ForwardEngine.SamePostcodePath | engine_new.py:35-57 | origin = destination gives the single path [origin], cost and time 0, no segments, no hops |
| ForwardEngine.Unoptimized | engine_new.py:184-185 | the fallback path without searching |
| ForwardEngine.OptimizedForCost | engine_new.py:187-188 | the engine's result unchanged, with no cost bound; never a divergence with no route priced below zero |
| ForwardEngine.OptimizedForTime | engine_new.py:190-191 | the engine's result unchanged, within `maxCost`; never a divergence with no route priced below zero |
| ForwardEngine.OptimizeMultiCriteria | engine_new.py:193 | the engine's result unchanged, with every default; never a divergence with no route priced below zero |

## Left out

- I/O and loading: the database loader, the UI and the connection script are not part of this
  model. The core reads only in-memory collections.
- Square root: the heuristics' `math.sqrt` is a parameter of the engine (`sqrt`). Properties
  that need it non-negative assume so explicitly.
- Floating point: costs and times are exact reals. Rounding, overflow to infinity and NaN are
  not modelled. `float('inf')` is the explicit `PosInf`.
- `asDict`, the uuid `id` fields, `createdAt` and unused `Shipment` fields (suburbs, states,
  items): identity and serialisation only.
- `SearchState`: a record that neither engine uses.
- `engine.py`'s `_reconstruct_path`: a method that nothing calls.
- Optimality: shortest-path optimality is not claimed. The heuristic is not shown admissible.
- `maxHops`: never consulted by either engine, so it is taken and ignored. So are `maxETD` and
  `topK` in the forward engine.
- Set iteration order: Python iterates `common_nodes` and the provider sets in an unspecified
  order.
  - The merge loop follows an arbitrary order of the common vertices.
  - `list(set(...))` keeps first occurrences.
  - Properties are stated up to that order.
- Updates in place: the search maps, the heap and the path lists are values reassigned by
  methods, not shared mutable objects. `RouteOptimizer` writes `totScore` and `rank` on path
  records that it returns, so the model returns updated copies. Aliasing of those records with
  the caller is not captured.
- `f_score` in `engine.py`: written and never read, so it is not kept.
- `'START'` in `_unroll_path`: the from-zone for a node without a parent, which that walk
  never meets.
- `ForwardEngine.FindPath`: termination of the main loop is not proved. It can re-expand a
  vertex whenever its cost strictly drops, so it is run for a step budget, and
  `BudgetExhausted` is the result when the budget is spent. A larger budget never changes an
  answer already reached (`FindSettles`), but the model does not say which budget suffices.
- `BidirectionalPaths.UnrollPath` and `ForwardSearch.ReconstructPath`: these walks are bounded
  by the number of parent pointers. A cyclic parent map makes the source loop forever, and the
  model answers `None` (`Diverges`). The search trees are proved free of cycles only when no
  route is priced below zero for the weight (`NonNegativePrices`, which also takes the index to
  be a built one); a negative price can close a cycle, and then `Diverges` is a possible answer.
- `Index.GetPostcodesForZone` and the other getters: a `KeyError` cannot occur, because every
  lookup uses `.get` with a default. Direct indexing in the engines (`g_score[current]`,
  `edge_data[curr]`, `came_from[curr]`) is proved always to find its key. `Bidirectional.Step`,
  the specification of one iteration, passes over a popped vertex without a cost instead of
  failing; the loop invariant shows that no such vertex is ever queued.
- `Optimizer.Inverse`: `ZeroDivisionError` is modelled as a `None` result. `Optimizer.ScorePaths`
  passes it on, and `Optimizer.OptimizeMultiCriteria` reports it as `ScoreDivisionByZero`,
  as the exception would leave `optimize_multi_criteria`.
- Heuristics: the two engines differ on unknown states. `engine.py` returns 0; `engine_new.py`
  places the state at (0, 0). Both are modelled as written.
- `Index.GraphIndex`: `providerZones` is a list of (provider key, zones) pairs standing for a
  dict. Repeated keys, which a dict cannot hold, are not excluded, and the getters then report
  each pair.
