# fastvec, modelled and proved in Dafny

This project models the vector index of fastvec: the layered proximity graph
(`internal/index/hnsw.go`), its file format (`internal/index/store.go`), the
bounded heap and candidate queue that drive its searches, exact search, and the
squared-distance kernel. It proves what they promise. `dafny verify
dfyconfig.toml` checks all of it.

## How it is laid out

| module | what it holds |
|---|---|
| `TopK`, `Frontier`, `Scratch` | the bounded max-heap, the candidate min-heap and the epoch-stamped workspace, each a class over its arrays, with the sorted list or set it stands for |
| `Distance` | the scalar sum and the blocked kernel |
| `Graph`, `Heuristic`, `LayerSearch`, `Descent` | datasets, layered lists, neighbour selection, one layer's search and the greedy walk, as functions |
| `Completeness`, `BestFirst`, `EfMonotone` | what a layer search finds, in which order it works, and how runs of different width compare |
| `Build`, `BuildInvariant`, `Wiring`, `Locking`, `Exactness` | inserting a node, what a sequential build keeps, an insertion layer by layer, the merge under a lock, and exactness of small indexes |
| `Querying`, `Hnsw`, `Packing`, `Connectivity`, `FlatSearch`, `Steps` | the index object, updated in place and proved against the functions; the packed bottom layer; component counting; serial and parallel exact search |
| `ParallelBuild`, `EdgesOnce`, `SmallParallel`, `Progress` | the parallel build as a state machine over its atomic steps, in every schedule: safety, why no edge is recorded twice, exactness of small indexes, and why it finishes |
| `SoloRun`, `InOrder` | one worker left to itself, and runs whose insertions do not overlap |
| `LittleEndian`, `Streams`, `Format`, `IndexFile`, `RoundTrip`, `Layout`, `Saving`, `Loading`, `Store` | bytes and words, the buffered reader and writer, the format, which bytes load as which index, the format byte by byte, and the save and load code |
| `EndToEnd` | building, saving, loading and searching together |

Methods on classes follow the source's loops and are proved to compute the
functions; the theorems are about the functions. An index is `Sound` when every
edge stays among the nodes that occupy its layer and the entry is on the top
level; every query theorem needs no more, so each holds of built and loaded
indexes alike.

## Where the code is not what one might expect

- **Equal distances.** A full search drops a neighbour as far as the worst
  (`internal/index/hnsw.go:545`). So general results are stated by distance, and
  "more effort never hurts" is proved where no two nodes the search can reach are
  equally far; `EfMonotone.TiesCanHurt` is an input with a tie where it fails.
- **Trailing bytes.** A comment (`internal/index/store.go:390-392`) says a short
  read at the end is fine when it is a whole number of words. The reader does
  not know where the index ends, so one to three odd bytes *after* a complete
  index also make it unreadable, unless the words end on a buffer boundary or
  the extra bytes fill a buffer first. `RoundTrip.TrailingBytes` says exactly when.
- **Edges recorded twice.** `link` appends without a membership check
  (`internal/index/hnsw.go:424`), and a node is visible to others before it has
  linked, so two overlapping insertions that found each other on one layer would
  record an edge twice, and a list could then outgrow the node count, which the
  loader refuses (`internal/index/store.go:262`). It never happens:
  `EdgesOnce.NoEdgeTwice` and `NeverMutual` hold of every interleaving, so every
  finished parallel build within the bounds of the format can be loaded again.
  Nor does a search ever meet the node it is for.
- **What saving checks.** `Save` checks five settings and the level counts
  (`internal/index/store.go:42-52`, `89-92`) but not the sizes the loader insists
  on; larger values are written truncated to 32 bits. `RoundTrip.SavedLoadsBack`
  states which indexes come back.
- The comment at `internal/index/hnsw.go:23` says neighbour selection is still
  nearest-M; the heuristic is there, and is modelled, with nearest-M as the
  switch it has become.

## Model

| member | source | states |
|---|---|---|
| `BestFirst.SearchIsBestFirst` | `internal/index/hnsw.go:513-557` | A layer search declared without its queues: there is an order of expansions in which each node is seen, fewer than ef nodes seen are closer, and nothing else seen and unexpanded outranks it unless ef nodes seen are as close; it ends when only such hopeless nodes are left; the results are the ef closest of all seen, the skipped one left out |
| `Completeness.SearchIsComplete` | `internal/index/hnsw.go:513-557` | Sublevel-set completeness on any graph whose lists stay in range, any query, entry and ef >= 1: the end of every path from the entry whose intermediate nodes beat the final worst is returned, unless it is the skipped node or does not beat the worst itself |
| `Completeness.CloserThanWorstIsFound` | `internal/index/hnsw.go:513-557` | The same for a full answer in the caller's terms: strictly closer than the worst hit along the path means found |
| `Completeness.UnfilledIsReachableSet` | `internal/index/hnsw.go:513-557` | When the result is not full it holds exactly the nodes reachable from the entry, but for the skipped one |
| `Completeness.SeenIsReachable` | `internal/index/hnsw.go:513-557` | Nothing is marked that the entry does not lead to |
| `Completeness.NeighboursOfResults` | `internal/index/hnsw.go:533-554` | Local optimality: every neighbour of any returned node, those at the worst distance included, is returned, is the skipped node, or is no closer than the worst of a full result |
| `Completeness.SearchAnswers` | `internal/index/hnsw.go:513-557` | A layer search returns one to ef sorted, distinct, in-range nodes at their true distances, never the skipped one, the first no farther than the entry |
| `LayerSearch.ExpandWork` | `internal/index/hnsw.go:533-554` | Termination: unmarked nodes plus queued candidates strictly fall with every expansion |
| `LayerSearch.VisitKeepsWellFormed` | `internal/index/hnsw.go:539-553` | One neighbour's visit keeps both queues sorted, distinct, truly scored, within ef and marked |
| `EfMonotone.WiderIsNoWorse` | `internal/index/hnsw.go:528-554` | Two-run simulation, whatever node is skipped: if distances are distinct within some set that holds the entry and is closed under the lists, a wider run sees a superset and is no worse at any rank |
| `EfMonotone.RunsInStep` | `internal/index/hnsw.go:528-554` | Two runs in step, one wider: when both have ended the wide one is no worse at any rank and has seen no less |
| `EfMonotone.TiesCanHurt` | `internal/index/hnsw.go:545` | Ties can make the claim false: a six-node graph where ef 1 finds the nearest node and ef 2 misses it |
| `Descent.WalkStaysInside` | `internal/index/hnsw.go:492-506` | The greedy walk never leaves a set closed under the lists |
| `Descent.Walk` | `internal/index/hnsw.go:492-506` | The greedy walk stops no farther than it began and at a node none of whose neighbours is nearer |
| `Descent.NearerShrinks` | `internal/index/hnsw.go:492-506` | Termination: every hop leaves fewer nodes that are nearer still |
| `Descent.LayerIsClosed` | `internal/index/hnsw.go:492-506` | A layer of a well-linked index never leads outside its own occupants |
| `Descent.SearchStaysInLayer` | `internal/index/hnsw.go:513-557` | A layer search started on a layer returns only nodes that occupy it |
| `Descent.DownDescends` | `internal/index/hnsw.go:492-506` | The descent is a chain of greedy walks, one per layer: each move goes to the first of the nearest in the list just read, strictly nearer; each walk ends where nothing listed is nearer, and the next begins there |
| `Descent.DescentIsDown` | `internal/index/hnsw.go:492-506` | Every such chain of walks ends where the descent does |
| `Querying.LandingIsDescent` | `internal/index/hnsw.go:580-584` | A query's bottom search starts where the chain of greedy walks from the entry down to layer 1 ends |
| `Querying.LandingIsLocal` | `internal/index/hnsw.go:580-584` | With layers above the bottom, the query lands on a node of layer 1 that has no nearer neighbour there |
| `Querying.QueryErrors` | `internal/index/hnsw.go:564-571` | A query is refused for its dimension, or else for k below 1, and for nothing else |
| `Querying.QueryIsAnswered` | `internal/index/hnsw.go:564-593` | On any sound index a well-posed query gets between one and k distinct nodes, sorted, at true distances, the first no farther than the entry |
| `Querying.MoreEffortIsNoWorse` | `internal/index/hnsw.go:572-584` | Raising efSearch never worsens any rank of a query's answer when no two nodes the landing point leads to are equally far |
| `Querying.QueryIsComplete` | `internal/index/hnsw.go:564-593` | When the bottom search fills: completeness carried through the descent and the cut to k |
| `Exactness.UnfilledQueryIsExact` | `internal/index/hnsw.go:564-593` | When it does not fill: the answer is exactly the k best of the nodes the landing point leads to |
| `Exactness.UnfilledIsExact` | `internal/index/hnsw.go:513-557` | A layer search that does not fill is the sorted scan of what its entry leads to |
| `Hnsw.HNSW.Neighbours` | `internal/index/hnsw.go:396-408` | The packed slice and the list are the same neighbours, so callers cannot tell them apart |
| `Hnsw.HNSW.VisitOne` | `internal/index/hnsw.go:539-553` | The heap-and-stamp code for one neighbour performs exactly the specified visit |
| `Hnsw.HNSW.ExpandNearest` | `internal/index/hnsw.go:533-554` | One turn of the main loop: stops exactly when the nearest candidate cannot help, otherwise expands it |
| `Hnsw.HNSW.SearchLayer` | `internal/index/hnsw.go:513-557` | The imperative search returns the specified result whatever workspace it is handed, recycled or not |
| `Hnsw.HNSW.Descend` | `internal/index/hnsw.go:492-506` | The greedy loop reaches the specified node and terminates |
| `Hnsw.HNSW.Search` | `internal/index/hnsw.go:564-593` | The whole query, with both argument errors, equals its specification on every valid index |
| `TopK.BoundedIsBruteForce` | `internal/topk/topk.go:62-92` | Offering any sequence to a collector of capacity k leaves the first k of the sorted multiset |
| `TopK.CollectedAreBest` | `internal/topk/topk.go:62-92` | In the open: a collector holds as many as offered, at most k, by distance and then ID, and nothing left out comes before its last |
| `TopK.OffersCommute` | `internal/topk/topk.go:62-77` | The order of offers does not matter |
| `TopK.TakeInsert` | `internal/topk/topk.go:62-77` | Cutting to k before or after an insertion is the same for the first k |
| `TopK.SortAllSorts` | `internal/topk/topk.go:16-28` | The reference sort is sorted by Before and a permutation of its input |
| `TopK.SortedUnique` | `internal/topk/topk.go:16-28` | Before orders strictly enough that a multiset has one sorted order |
| `TopK.RootIsLast` | `internal/topk/topk.go:55-60` | The heap root is the last of the sorted contents |
| `TopK.ReplaceWorst` | `internal/topk/topk.go:71-76` | Replacing the root with a better item is dropping the worst and inserting |
| `TopK.SiftDownStep` | `internal/topk/topk.go:108-124` | One swap of the downward sift restores the heap around the moved item |
| `TopK.SiftUpStep` | `internal/topk/topk.go:97-106` | One swap of the upward sift restores the heap below the moved item |
| `TopK.Collector.Worst` | `internal/topk/topk.go:55-60` | Full exactly at k items, and then the k-th best distance |
| `TopK.Collector.Add` | `internal/topk/topk.go:62-77` | The in-place heap's sorted contents change exactly as offering says; heap order kept |
| `TopK.Collector.Results` | `internal/topk/topk.go:79-92` | The sorted contents, without disturbing the heap |
| `TopK.Collector.Reset` | `internal/topk/topk.go:44-46` | Empties the collector and keeps its capacity |
| `Frontier.PopIsTail` | `internal/index/candidates.go:32-55` | Popping the root takes the head of the sorted contents |
| `Frontier.Candidates.Push` | `internal/index/candidates.go:18-30` | The queue's sorted contents gain exactly the item |
| `Frontier.Candidates.Pop` | `internal/index/candidates.go:32-55` | Returns the nearest and leaves the rest, heap order kept |
| `Scratch.Workspace.Begin` | `internal/index/workspace.go:30-52` | After begin nothing is seen, every array fits, and the collector is empty with the asked width, across epoch wrap, growth and shrinking |
| `Scratch.Workspace.Clear` | `internal/index/workspace.go:42-49` | The wrap loop zeroes every stamp |
| `Scratch.Workspace.Mark` | `internal/index/workspace.go:55` | Marks exactly one node and keeps stamps no larger than the epoch |
| `Distance.L2SquaredAVX2` | `internal/distance/l2_amd64.s:14-85` | 16-blocks in two 8-lane accumulators, an optional 8-block, the lane reduction and the 0-7 tail total exactly the scalar sum, for every length |
| `Distance.L2SquaredScalar` | `internal/distance/distance.go:27-36` | The running sum is the sum of squared differences |
| `Distance.Measure` | `internal/distance/distance.go:14-25` | Dispatch on the kernel changes no value |
| `Distance.OneCoordinateMore` | `internal/distance/distance.go:27-36` | No coordinates are no distance apart; one more adds its squared difference |
| `Distance.Symmetric` | `internal/distance/distance.go:27-36` | Distance is symmetric |
| `Graph.WindowAt` | `internal/index/hnsw.go:258-261` | Vector i is the i-th window of the flat slice |
| `Graph.WindowCount` | `internal/index/hnsw.go:258-261` | A whole number of windows fills the slice |
| `Heuristic.SelectNeighbours` | `internal/index/hnsw.go:462-488` | The double loop with its early break makes the specified selection |
| `Heuristic.SelectionIsSpread` | `internal/index/hnsw.go:462-488` | At most m picks, a subsequence starting with the nearest; no pick closer to an earlier pick than to the centre; everything examined and turned down is covered |
| `Heuristic.SelectIsSelection` | `internal/index/hnsw.go:462-488` | Selecting at most m of ranked candidates keeps some of them in rank order; whatever is dropped is outranked by m kept ones or, with the heuristic, nearer to a kept one that outranks it than to the centre; nothing kept is nearer to an earlier pick than to the centre |
| `Heuristic.SelectionIsUnique` | `internal/index/hnsw.go:462-488` | Those conditions leave one selection only |
| `Heuristic.SelectionIsStable` | `internal/index/hnsw.go:462-488` | Selecting again from a selection changes nothing |
| `Heuristic.SelectedIds` | `internal/index/hnsw.go:462-488` | In either mode distinct candidates give distinct picks, at most m, the nearest first |
| `Build.PruneFacts` | `internal/index/hnsw.go:431-443` | Pruning keeps a non-empty subset within the cap, without repeats if there were none |
| `Build.PrunedIsSelection` | `internal/index/hnsw.go:426-443` | A list over its cap becomes the selection, by distance from its owner, of MMax0 on the bottom layer and MMax above |
| `Build.UnprunedIsKept` | `internal/index/hnsw.go:426-429` | A list within that cap is left as it is |
| `Build.PrunedIsBest` | `internal/index/hnsw.go:431-443` | In the open: distance order, nearest first; with the heuristic spread, and whatever is dropped is nearer to something kept than to the owner or ranks after the last of a full list; without it the list is full and nothing dropped is closer than anything kept |
| `Build.LinkedFacts` | `internal/index/hnsw.go:418-443` | Linking back keeps within the cap, adds nothing but the new node, and below the cap appends it and loses nothing |
| `Build.LinkStepKeeps` | `internal/index/hnsw.go:418-443` | Linking back keeps edges inside occupied layers and every node on its levels |
| `BuildInvariant.FoundFacts` | `internal/index/hnsw.go:305-312` | What an insertion's search proposes is never empty, without repeats and never the node itself |
| `BuildInvariant.ConnectLayerTidy` | `internal/index/hnsw.go:305-324` | Connecting one layer keeps caps, no repeats and no self-loops, and touches no other layer |
| `BuildInvariant.ConnectLayerWires` | `internal/index/hnsw.go:305-324` | List by list: the new node gets the neighbours kept, each of them has it linked in, no other list changes, and the nearest found is handed down |
| `Wiring.FoundIsRanked` | `internal/index/hnsw.go:306` | What an insertion finds is ranked by distance from the node, one to efConstruction of them, the first no farther than the entry point |
| `Wiring.FewFoundIsAll` | `internal/index/hnsw.go:306` | Fewer found than efConstruction, and than there are nodes, are all that the entry point leads to on the layer, but for the node itself |
| `Wiring.ManyFoundIsComplete` | `internal/index/hnsw.go:306` | Otherwise every node at the end of a path of nodes closer than the last found is found |
| `Wiring.KeepIsSelection` | `internal/index/hnsw.go:311-317` | A new node keeps the selection of at most M of what was found |
| `Wiring.InsertIsWired` | `internal/index/hnsw.go:280-327` | A whole insertion, layer by layer: it descends to the lower of its level and the old top; from there down each layer is searched from the nearest found above, the node lists what it keeps, each of those has it linked in, no other list changes; above, nothing does |
| `BuildInvariant.InsertKeepsTidy` | `internal/index/hnsw.go:280-327` | A whole insertion keeps them |
| `BuildInvariant.InsertKeepsFirstTallest` | `internal/index/hnsw.go:340-354` | The entry stays the lowest-numbered node of maximal level |
| `BuildInvariant.BuildUpTo` | `internal/index/hnsw.go:148-160` | After every insertion of a sequential build: edges within occupied layers, lists within caps, no repeats, no self-loops, nodes on the levels drawn, entry lowest of the tallest |
| `BuildInvariant.EntryDrewTheTop` | `internal/index/hnsw.go:149-160` | The entry drew the top level and no earlier node did |
| `Locking.MergeFacts` | `internal/index/hnsw.go:365-376` | The merge under the lock keeps the new list first, adds every reverse link not in it once, and nothing else |
| `Locking.LockedOwnFacts` | `internal/index/hnsw.go:356-389` | The locked setOwn loses an entry only if the merged list exceeded the cap, and never ends empty |
| `Locking.MergeOrder` | `internal/index/hnsw.go:365-376` | Behind the new list come the existing links it does not name, in their order |
| `Locking.LockedOwnIsSelection` | `internal/index/hnsw.go:377-388` | Merged beyond its cap, the own list becomes the selection, by distance from its owner, of MMax0 or MMax of both lists |
| `Locking.LockedOwnIsBest` | `internal/index/hnsw.go:377-388` | In the open, over the members of both lists: distance order, nearest first, spread, and whatever is dropped covered by something kept or ranking after a full list |
| `Locking.LockedOwnKeepsAll` | `internal/index/hnsw.go:377` | Within its cap the merged list stays whole |
| `Locking.LockedOwnFresh` | `internal/index/hnsw.go:356-389` | On an empty list the locked and the sequential setOwn agree |
| `Hnsw.HNSW.Link` | `internal/index/hnsw.go:418-444` | Append and maybe prune, on the object, is the specified step |
| `Hnsw.HNSW.SetOwn` | `internal/index/hnsw.go:356-389` | Sets exactly one list, merging while building |
| `Hnsw.HNSW.RaiseTop` | `internal/index/hnsw.go:340-354` | Entry and height change together, only for a taller node |
| `Hnsw.HNSW.Connect` | `internal/index/hnsw.go:305-324` | Search, select, set and link back on one layer refine the specified layer step, and hand down the nearest |
| `Hnsw.HNSW.InsertAt` | `internal/index/hnsw.go:280-327` | An insertion takes the object from one sound index to the specified next one |
| `Hnsw.HNSW.CompactBottom` | `internal/index/hnsw.go:168-180` | Fills the packed layer from the lists and leaves the lists, hence every search and saved byte, unchanged |
| `Hnsw.HNSW.Seed` | `internal/index/hnsw.go:148-152` | Node 0 alone, on the level it drew, is a valid index |
| `Hnsw.CheckAccepts` | `internal/index/hnsw.go:93-128` | A build is accepted exactly when dim * n values make n vectors, 1 <= n < 2^31, 2 <= M <= efConstruction, and given caps are at least M; M, efConstruction and mode as given, caps as given or M and 2 * M |
| `Hnsw.CheckRefuses` | `internal/index/hnsw.go:93-128` | Each refusal is given exactly when its condition holds and none before it does |
| `Hnsw.Check` | `internal/index/hnsw.go:93-128` | Accepted settings are valid and describe a whole number of vectors within the ID range |
| `Hnsw.BuildHNSW` | `internal/index/hnsw.go:93-164` | A build is refused with the first failing check, or yields the packed, sound, specified index |
| `Packing.SliceIsList` | `internal/index/hnsw.go:168-180` | Each slice is in range and equals its node's list |
| `Packing.SlicesTile` | `internal/index/hnsw.go:168-180` | Every packed position lies in exactly one slice, and the slices cover the array |
| `Exactness.SmallBuild` | `internal/index/hnsw.go:157-162` | With at most MMax0 + 1 vectors every stage of a sequential build leaves the bottom layer symmetric and in one piece |
| `Exactness.SmallIndexIsOnePiece` | `internal/index/hnsw.go:157-162` | Any node of such an index leads to any other |
| `Exactness.FullWidthIsExact` | `internal/index/hnsw.go:513-557` | A search as wide as the index, from an entry that leads everywhere, is the full sorted scan |
| `Exactness.SmallIndexIsExact` | `internal/index/hnsw.go:564-593` | Such an index answers every query exactly as exact search does, errors, IDs and distances, once its width covers the index |
| `Connectivity.Walk` | `internal/index/hnsw.go:632-653` | One walk adds exactly what its start reaches to a set closed under the lists, and counts what is new |
| `Connectivity.Components` | `internal/index/hnsw.go:617-629` | Walks cover every node, sizes add up to n, the largest is reported, and the count is 1 exactly when node 0 leads to every node |
| `Connectivity.OneWalk` | `internal/index/hnsw.go:617-629` | One walk suffices exactly when the first start reaches everything |
| `FlatSearch.SearchSerial` | `internal/index/flat.go:30-38` | The serial scan is sort and truncate, with both argument errors |
| `FlatSearch.NearestIsBest` | `internal/index/flat.go:30-38` | In the open: exact search refuses a wrong dimension, then k below 1, and otherwise returns min(k, n) vectors, each once at its true distance, by distance and then ID, none left out coming before any of them |
| `FlatSearch.ChunksPartition` | `internal/index/flat.go:64-75` | The chunks tile the vectors, the first n mod workers hold one more than the rest, and none is empty when there are no more workers than vectors |
| `FlatSearch.ChunkBestSuffices` | `internal/index/flat.go:76-93` | The best of the chunk bests are the best of the whole |
| `FlatSearch.SearchN` | `internal/index/flat.go:50-94` | For every n, k, worker count and finishing order, the parallel scan returns what the serial scan does |
| `ParallelBuild.StepKeepsInv` | `internal/index/hnsw.go:192-224` | Every atomic step of any worker keeps the protocol's invariant |
| `ParallelBuild.EveryInterleavingIsSafe` | `internal/index/hnsw.go:192-224` | In every run from the start, whatever is listed, held or made entry is published on the layer it is used at, lists are within caps, no node lists itself, the entry has the top level |
| `ParallelBuild.EdgesLeaveOnlyByPruning` | `internal/index/hnsw.go:356-444` | In any step an edge leaves a list only when the merged or appended list exceeded the cap |
| `ParallelBuild.OwnMove` | `internal/index/hnsw.go:356-389` | The setOwn step keeps the shared invariant and leaves the node a non-empty list |
| `ParallelBuild.LinkMove` | `internal/index/hnsw.go:418-444` | The link step keeps the shared invariant |
| `ParallelBuild.RaiseMove` | `internal/index/hnsw.go:340-354` | The raise step keeps the entry at the top level |
| `ParallelBuild.FinishedIsSound` | `internal/index/hnsw.go:192-224` | A finished parallel build is a sound index within caps, every node on its levels with neighbours wherever it linked |
| `EdgesOnce.NoEdgeTwice` | `internal/index/hnsw.go:361-444` | In every run and at every moment no list names a node twice or its owner, although link appends without looking; lists within caps |
| `EdgesOnce.NeverMutual` | `internal/index/hnsw.go:305-324` | In every run two insertions never find each other on the same layer: once one has found b there, the insertion of b, then or at any later time, neither meets nor has found the finder on that layer |
| `EdgesOnce.SearchNeverMeetsItself` | `internal/index/hnsw.go:305-312` | In every run an insertion's search never meets the node being inserted, though it is already visible |
| `EdgesOnce.StepOnce` | `internal/index/hnsw.go:192-224` | Every step keeps each layer's pieces apart: a node yet to search a layer is the root of its own piece, its search stays in another, and the starting points lead in no circle |
| `SoloRun.InsertLeads` | `internal/index/hnsw.go:280-327` | One worker's steps for one node, undisturbed, perform exactly a sequential insertion |
| `InOrder.NonOverlappingIsSequential` | `internal/index/hnsw.go:192-224` | Every run in which at most one worker is busy at any moment, and which finishes, has built the very graph of a sequential build |
| `InOrder.SomeRunDoesNotOverlap` | `internal/index/hnsw.go:192-224` | There is such a run for every assignment of nodes to workers |
| `SmallParallel.SmallParallelIsExact` | `internal/index/hnsw.go:192-224` | With at most MMax0 + 1 vectors a build finished by any interleaving answers every query exactly as exact search does, once its width covers the index |
| `SmallParallel.FinishedIsOnePiece` | `internal/index/hnsw.go:361-444` | ... because every finished build of that size has a symmetric bottom layer in one piece |
| `SmallParallel.StepWhole` | `internal/index/hnsw.go:361-444` | Every step keeps: each bottom edge is matched by its reverse or owed by a worker, no cut goes through a piece, each piece is named after a member still to search |
| `Progress.TurnLowers` | `internal/index/hnsw.go:280-327` | Every turn of a busy worker lowers the bound on the turns its node still needs, however the graph changes under it |
| `Progress.StepLowers` | `internal/index/hnsw.go:192-224` | Every step lowers the bound for the whole build, unless its worker rests and no node is left |
| `Progress.FairRunsFinish` | `internal/index/hnsw.go:192-224` | Every parallel build finishes: more rounds in which each worker has some turn than the bound at the start are enough |
| `LittleEndian.WordOfBytes` | `internal/index/store.go:361-362` | A word survives its four bytes |
| `LittleEndian.BytesOfWord` | `internal/index/store.go:408` | Four bytes survive their word |
| `LittleEndian.StartsWith` | `internal/index/store.go:351-411` | Bytes begin with an encoding exactly when their words begin with what was encoded |
| `LittleEndian.SeedRoundTrip` | `internal/index/store.go:85-87` | Every signed 64-bit seed survives |
| `Streams.WordWriter.Put` | `internal/index/store.go:361-368` | Written bytes grow by exactly the word's, whether or not the buffer filled |
| `Streams.WordWriter.Flush` | `internal/index/store.go:370-377` | Everything written reaches the output |
| `Streams.Refill` | `internal/index/store.go:394-406` | A refill loses no word and invents none; it fails exactly at the end or inside a word |
| `Streams.WordReader.Next` | `internal/index/store.go:393-411` | Yields the next deliverable word across any number of refills, or fails exactly when none is left |
| `Format.IdsExact` | `internal/index/store.go:276-288` | Reading a list's IDs succeeds exactly on what writing them yields |
| `Format.ListExact` | `internal/index/store.go:258-289` | A list is accepted exactly when within node count and cap, admitted by the pass and all of its IDs exist on its layer |
| `Format.GraphExact` | `internal/index/store.go:254-291` | The graph parser and the graph writer are exact inverses, for each kind of pass |
| `IndexFile.CheckHeader` | `internal/index/store.go:169-199` | The chain of header checks passes exactly when every bound holds |
| `IndexFile.LevelsChecked` | `internal/index/store.go:205-212` | The level checks pass exactly when every count is in range and the entry is on top |
| `RoundTrip.FrontExact` | `internal/index/store.go:144-212` | Header, seed and level counts are read exactly when the bytes begin with what is written for them and they agree |
| `RoundTrip.BodyExact` | `internal/index/store.go:252-307` | Graph and vectors are read exactly when the words begin with them and they fit the front |
| `Layout.EncodingIsLayout` | `internal/index/store.go:13-22` | What is written is the format, byte by byte: eight literal bytes, each header field at its place with the low byte first, flags 1 and 2, the seed in two's complement, one byte per level count, each list as its length and IDs, then the vectors; a byte string begins with the encoding exactly when it is so laid out |
| `Layout.EncodingLength` | `internal/index/store.go:13-22` | How long a saved index is |
| `Layout.FileFormat` | `internal/index/store.go:143-307` | Exactly the byte strings that load: an index within the bounds, in numbers, laid out at their beginning, all of whose words arrive in whole words or whole blocks |
| `Layout.HeaderRefuses` | `internal/index/store.go:169-199` | Each header error is given exactly when its check fails and none before it does |
| `Layout.LevelsRefuse` | `internal/index/store.go:205-212` | The first node with a bad level count is reported, or else an entry that is not on top |
| `Layout.FrontRefuses` | `internal/index/store.go:146-162` | Other files, other versions and files that end too soon are told apart |
| `Layout.GraphRefuses` | `internal/index/store.go:254-291` | A graph is refused at the first list that is, everything before it having been read |
| `Layout.ListRefuses` | `internal/index/store.go:258-288` | A list is refused for its end, its length, the pass, or its first ID that does not fit |
| `RoundTrip.LoadExact` | `internal/index/store.go:143-307` | Which byte strings load as which index: well formed and in bounds, encoding a prefix, every word delivered; both directions |
| `RoundTrip.SavedLoadsBack` | `internal/index/store.go:38-126` | Load after save is the identity on an index exactly when it is well formed and within bounds |
| `RoundTrip.LoadedSavesBack` | `internal/index/store.go:143-307` | Re-saving what was loaded reproduces how the input began |
| `RoundTrip.EncodingsDiffer` | `internal/index/store.go:38-126` | No input begins with the encodings of two different storable indexes |
| `RoundTrip.TrailingBytes` | `internal/index/store.go:390-406` | Exactly which trailing bytes are harmless; the others make the file unreadable |
| `RoundTrip.LoadTwiceExact` | `internal/index/store.go:235-291` | Which index two passes load when the second read differs arbitrarily from the first; both directions |
| `RoundTrip.TwoPassesAgree` | `internal/index/store.go:235-291` | On an unchanging input two passes load exactly what one does, below the allocation limit |
| `RoundTrip.TwoPassesSayTheSame` | `internal/index/store.go:235-291` | ... and return the same error, or stop at that limit |
| `RoundTrip.MeasuringFits` | `internal/index/store.go:311-343` | The measuring pass accepts what the plain one does, within its limit |
| `RoundTrip.RepeatingFits` | `internal/index/store.go:266-272` | The second pass accepts what the plain one does when bottom lengths repeat |
| `Saving.CheckSettings` | `internal/index/store.go:38-52` | Refuses at the first setting that does not fit 32 bits, and only then |
| `Saving.MisfitIs` | `internal/index/store.go:42-52` | The settings in the order they are looked at, and when each is the one refused |
| `Saving.SavableIs` | `internal/index/store.go:42-92` | Which indexes can be saved: five settings of 32 bits, at most 255 levels a node |
| `Saving.WriteLevels` | `internal/index/store.go:89-96` | One byte a node, failing exactly at the first node with more than 255 levels |
| `Saving.PutGraph` | `internal/index/store.go:103-114` | The nested loops write exactly the graph's words |
| `Saving.Save` | `internal/index/store.go:38-126` | Succeeds exactly when settings and level counts fit, and then appends exactly the encoding |
| `Loading.ReadHeader` | `internal/index/store.go:144-212` | The reading loops reach the specified verdict and stop where the graph begins |
| `Loading.ReadIds` | `internal/index/store.go:276-288` | Writes one slice of the array and nothing outside it |
| `Loading.ReadGraph` | `internal/index/store.go:254-291` | Parses as specified; with offsets known, every bottom list lands in its slice and the array packs the lists |
| `Loading.ScanBottomOffsets` | `internal/index/store.go:311-343` | The measuring loops agree with the parser and yield the prefix sums |
| `Store.LoadImage` | `internal/index/store.go:143-307` | Either strategy reaches the specified verdict; two passes leave the packed layer complete |
| `Store.LoadHNSW` | `internal/index/store.go:143-307` | Anything loaded is a valid, packed index standing for the image read, ready to search |
| `Store.SaveHNSW` | `internal/index/store.go:38-126` | Saving an index object appends the encoding of what it holds |
| `Store.StorableIsSound` | `internal/index/store.go:169-212` | Whatever the format holds is an index every search can be trusted on, however words decode |
| `Store.LoadedIndexAnswers` | `internal/index/store.go:143-307` | Any accepted bytes, by either strategy, give an index whose queries stay in range and are answered: one to k distinct sorted hits at true distances |
| `Store.PackingIsUnique` | `internal/index/store.go:303-305` | Given lists have one packed layer, so both strategies build the same |
| `EndToEnd.BuiltIndexSurvivesDisk` | `internal/index/store.go:38-126` | Every sequential build within the format's bounds comes back from its file unchanged |
| `EndToEnd.SmallIndexFromDiskIsExact` | `internal/index/hnsw.go:564-593` | A small index saved and loaded, in one pass or two, still answers exactly as exact search |
| `EndToEnd.ParallelBuildAnswers` | `internal/index/hnsw.go:192-224` | Any finished run of a parallel build answers every well-posed query |
| `EndToEnd.ParallelBuildSurvivesDisk` | `internal/index/store.go:235-291` | Any finished run of a parallel build, within the format's bounds, comes back from its file unchanged by one pass, and by two exactly when its packed layer can be allocated |

## Left out

- Floating point: coordinates and distances are reals, so rounding, overflow and
  NaN are not modelled; how 32 stored bits become a coordinate is a parameter of
  loading, and every loading theorem holds for each choice of it.
- `randomLevel` and `math/rand`: the levels drawn are an input, one per node in
  ID order; recall and speed are not claimed.
- Goroutines, mutexes, channels and the Go memory model: a parallel build is a
  set of workers taking atomic steps (receive an ID, publish its levels, read the
  top, copy and expand one list, set the own list, link one neighbour, raise the
  top) in any order; parallel exact search takes its workers in any order.
- Hnsw.Check: takes `int` to be 64 bits wide, so M is too large for a default MMax0
  above 2^62 - 1.
- Hnsw.BuildHNSW: covers `BuildWorkers` of at most 1; with more workers the
  insertions overlap, and `ParallelBuild` and its companions are the model.
- Slice aliasing: `links` and the packed array share storage in the source; here
  lists are values and `Packing.Packed` states that they agree.
- Hnsw.HNSW.Neighbours: the scratch copy made during a build is a value here.
- `sync.Pool`: a search is proved for any valid workspace it might be handed.
- The library sort in `Results`: taken to sort by `Before`, which
  `TopK.SortedUnique` shows leaves it no choice.
- A nil dataset, error message texts, and which of several I/O errors a failed
  read reports: all short reads are `Truncated`.
- Files, `bufio` and OS errors: a reader is bytes and a position, the position
  already net of read-ahead; a writer is a growing byte string. Failing writes,
  and a seek that fails, are not modelled.
- General connectivity of built graphs: pruning can split them, so connectivity
  is claimed only where nothing can be pruned.
- `Degrees`, `LevelSizes`, `Reachable`, the distance counter, `Dot`, CPU feature
  detection, `fvecs`, the compatibility checks, commands, benchmarks and Python
  tools: straightforward counting, comparison or plumbing.
