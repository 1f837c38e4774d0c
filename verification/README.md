# Verified models of the linear BVH, the tree map, the hash tables and the lock-free protocols

The project models the pointer, hash and lock-free structures under `include/zensim` and proves
properties of them. `dafny verify dfyconfig.toml` checks everything.

**Linear BVH.** `MortonCodes` has the common prefix of two codes. `BvhTrees`, `BvhSplits` and
`BvhSearch` have the trees over a sorted code sequence and the range and split searches that
compute every trunk node on its own; `BvhBuild` runs these bodies over the scratch arrays in any
order. `BvhChains` and `BvhPreOrder` relate left-chain lengths to pre-order places, `BvhLayout` runs
the layout passes, `Boxes` and `BvhTraversal` have the stackless queries, `BvhFront` the
front-maintaining query and `BvttFront`, `BvhFrontPass` the pass over a whole front. `BvhRefit` and
`BvhBottomUp` are state machines over the atomic steps of the leaf threads of `refit` and
`buildRefit`; `BvhShape` has the tree that the latter build. `BvhPipeline` and `BvhBuildRefit` go
from the codes to the queries.

**Tree map.** `RbTrees` has trees, one-hole contexts and red-black laws, direction-symmetric;
`RbMemory`, `RbRotations`, `RbRepairs` and `RbSwap` say how a heap of nodes with parent pointers and
a header shows such a tree, and what pointer assignments do to it; `RbMap` is the class,
`RbIterators` the iterators and bounds, `RbRuns` whole runs.

**Hash tables.** `Buckets` has what the bucketed tables share. `BhtInsert` and `BhtTable` are `bht`,
`BchtChains` (module `Cuckoo`), `BchtTable` (`CuckooTables`), `BchtInsert` (`CuckooBatch`) and
`BchtProgress` (`CuckooProgress`) are `bcht`, `HashTables` and `HashRebuilds` are `HashTable`,
`SpatialHash` and `SpatialTable` are the spatial hash on top of `bht`. Each has a state machine of
concurrent insertions (filling passes for the spatial hash) and an object used by one thread.

**Protocols.** `SpscSizes` and `SpscQueue` are the chunked ring, `SharedPointers` the strong and weak
counts, `AsyncEvents` completion, callbacks and waiters.

A functor run by `policy(range(n), functor)` is a method called in an arbitrary order of the indices
where its body touches shared data only by commuting or disjoint writes, and a state machine over
its atomic steps where threads synchronise with each other. A schedule is an arbitrary sequence of
thread numbers, memory is sequentially consistent. Hash functions, random slots, the orders of
parallel loops and the busy state of locks are arbitrary parameters. A key vector stands as one
integer. Counters of the queue wrap at 2^64, codes are 32-bit words; other integers are unbounded.

Findings, where code and intent part:

- `bcht::insert` looks for a key in its first bucket only: one that an eviction has moved elsewhere is
  not refused but written again, and may then stand twice (`CuckooTables.StandsTwice`), or come back
  to where it was with a number used up (`CuckooTables.RoundTrip`). Exactly the keys in their first
  bucket are refused with nothing changed (`CuckooTables.Bcht.Insert`); with a given number the second
  outcome changes nothing either (`CuckooTables.StemReturns`).
- A failed numbered insertion into `bcht` uses up a number and leaves the list of keys incomplete for
  good. It fails exactly if all buckets its chain visits are full before the call
  (`CuckooTables.Bcht.Insert`, `Cuckoo.FailsIff`). As numbers run ahead of the keys, a later insertion
  that finds room may write `_activeKeys[no]` past the end (`CuckooTables.NumbersRunOut`): exactly if
  `_cnt` has reached the capacity and not all buckets of its trail are full. With a complete list
  this cannot happen.
- `bht::insert` may write `_activeKeys[localno]` past the end (`BhtTable.ListRunsOut`): exactly if the
  counter has reached the table size, the key is not stored and one of its buckets has room
  (`BhtTable.Bht.Insert`). Then a rebuild has lost more keys than there are buckets
  (`BhtInsert.CounterBound`); in a batch it takes more new keys than the list has entries left
  (`BhtInsert.BatchFits`). About a table after such a write only what its slots hold is claimed.
- `bht::resize` to a size that is not larger leaves a cleared success flag as it is, and a pass never
  sets it (`SpatialTable.StaysCleared`), so the first retry of `SpatialHash::build` for a single
  primitive cannot succeed (`SpatialTable.RetryInVain`; `SpatialTable.SixteenCells` is an input); for
  two or more the table always grows (`SpatialTable.RetryGrows`).
- `BvttFront::push_back` counts entries past the capacity, and `node(i)` gives all bits set for them:
  `reorder` and the front query then index arrays with it. All accesses are in bounds exactly if the
  counter is at most the capacity, given entries that name nodes (`BvhFront.Front.Reorder`,
  `BvhFront.IterFront`; `BvhFront.Overfull` is an input).
- The layout passes take trunk node 0 for the root. In the numbering of `buildRefit` the root is the
  largest split, so unless that is the first one (`BvhBuildRefit.RootFirst`) they read in front of
  `tDst`, and node 0 gets no parent; with such codes (`BvhBuildRefit.RootSecond`) the parents are wrong
  whatever is read there, the arrays that queries use are right (`BvhBuildRefit.BuildRefit`).
- `HashTable::query` steps from a slot to the table size itself without reducing it
  (`HashTables.MissedKey`): exactly if the search for the key passes the slot 127 before the end
  (`HashTables.HashTable.Query`). `entry` has the same loop.
- `AsyncEventState::complete` takes any status; with one that is not terminal a terminal status can be
  undone (`AsyncEvents.StatusUndone`, `AsyncEvents.UndoneRun`).
- `HashTable::insert` loops forever on a table full of other keys, and only then
  (`HashTables.ProbingEnds`; `HashTables.FillUp` is such a table).
- A loop over `Collapse` treats an extent of 0 as 1 in every direction but the first, so a box that
  lies flat in a grid plane has cells in some directions and none in the first; boxes that only touch
  in a grid plane need not share a cell (`CellRanges.TouchingMissed`; exact condition in
  `CellRanges.SharedIff`).
- `next_power_of_two` returns 0 above 2^63 (`SpscSizes.NextPowerOfTwo`), and with it
  `balanced_chunk_capacity`; the queue is laid out properly exactly for capacities and chunk sizes up
  to 2^63 (`SpscSizes.Construct`).
- `bht::insert` reports failure for a key it has placed if the number is within 20 of the table size;
  on tables of fewer than 20 slots the unsigned difference wraps and the test never fires
  (`BhtTable.Bht.InsertAt`; an input is `BhtTable.FailsThoughStored`).

## Model

| member | source | states |
|---|---|---|
| MortonCodes.CommonTop | include/zensim/execution/Intrinsics.hpp:335-356 | two 32-bit codes share at least 32 - n leading bits exactly if they agree above their n low bits; equal codes share 32 |
| MortonCodes.CommonOrdered | include/zensim/container/Bvh.hpp:222-227 | in sorted order the outer prefix is the shorter of the two inner ones, and equal inner prefixes mean three equal codes: the direction test of the range search never errs |
| BvhSplits.RangeCommon | include/zensim/container/Bvh.hpp:340-350 | the prefix shared over a range is fixed by the largest split inside it |
| BvhSplits.LeftmostUnique | include/zensim/container/Bvh.hpp:340-350 | the first maximum of a stretch of splits is unique |
| BvhSplits.KarrasIds | include/zensim/container/Bvh.hpp:270-283 | the node numbers of `build` below a range are distinct and are exactly the numbers of the range but one |
| BvhSplits.BuildersAgree | include/zensim/container/Bvh.hpp:198-424 | `build` and `buildRefit` make trees of one shape; only the node numbers differ |
| BvhTrees.ParentIsOwner | include/zensim/container/Bvh.hpp:274-285 | every trunk node but the root has exactly one parent, and is exactly one of its two children |
| BvhTrees.LeafParentIsOwner | include/zensim/container/Bvh.hpp:274-281 | every leaf has exactly one parent |
| BvhSearch.FarthestHit | include/zensim/container/Bvh.hpp:229-239 | doubling, then halving steps end at the exact boundary: the last leaf in the direction whose prefix is longer than the limit |
| BvhSearch.FindRange | include/zensim/container/Bvh.hpp:204-250 | the range of one node found from the codes alone, runs of equal codes included |
| BvhSearch.NodeRange | include/zensim/container/Bvh.hpp:204-250 | the ranges so found, each on its own, are the ranges of the nodes of one binary tree rooted at node 0 |
| BvhSearch.SplitTest | include/zensim/container/Bvh.hpp:265-265 | the prefix test of the split search holds exactly up to the first largest split |
| BvhSearch.FindSplit | include/zensim/container/Bvh.hpp:254-269 | the rounding-up halving search, with its skipped steps, terminates at the first largest split of the range |
| BvhBuild.RootTree | include/zensim/container/Bvh.hpp:198-287 | the numbered tree of a sorted code sequence: root 0, consecutive ranges, trunk numbers 0 to n - 2 each used once |
| BvhBuild.Topology.InitDepths | include/zensim/container/Bvh.hpp:188-197 | depth counters start at one for each leaf, the extra one at zero |
| BvhBuild.Topology.BuildTopo | include/zensim/container/Bvh.hpp:198-287 | what one body writes: range, children, the two parent links and one depth increment of its node, and nothing else |
| BvhBuild.Topology.BuildAll | include/zensim/container/Bvh.hpp:898-912 | bodies in any order leave the arrays describing that one tree: ranges, children, parents, and left-chain lengths |
| BvhChains.ChainLength | include/zensim/container/Bvh.hpp:251-251 | the increments a leaf's depth counter gets are the left steps below the topmost node that starts at the leaf |
| BvhChains.LinkIs | include/zensim/container/Bvh.hpp:294-301 | every trunk node is met on the climb from its first leaf, at the step given by its left depth |
| BvhPreOrder.PlaceOf | include/zensim/container/Bvh.hpp:292-293 | the scan of the chain lengths gives every node its place in pre-order, and the place after its subtree |
| BvhPreOrder.Block | include/zensim/container/Bvh.hpp:319-338 | a subtree is one block of the pre-order |
| BvhLayout.Layout.Scan | include/zensim/container/Bvh.hpp:914-914 | the exclusive scan, as the offsets of the chains |
| BvhLayout.Layout.SuppTopo | include/zensim/container/Bvh.hpp:288-303 | one leaf's body: topmost node of its chain, places and levels along the chain, nothing outside it |
| BvhLayout.Layout.ReorderLeaf | include/zensim/container/Bvh.hpp:304-318 | one leaf's body: primitive, parent, level 0 and leaf index at its place, earlier leaves untouched |
| BvhLayout.Layout.ReorderTrunk | include/zensim/container/Bvh.hpp:319-338 | one trunk's body: the escape index is the place after the subtree, -1 at the end, and the parent's place; all accesses are in bounds unless it is a root with another number than 0 |
| BvhLayout.Layout.Reorder | include/zensim/container/Bvh.hpp:914-938 | all passes, each in any order, on any numbering: the arrays are the pre-order of the tree, so the places are a bijection onto 0 to 2n - 2; levels are left depths, escapes are place plus size; the parents are right exactly if the root has number 0 |
| BvhLayout.Build | include/zensim/container/Bvh.hpp:898-938 | from sorted codes to finished arrays, whatever the orders inside the passes |
| Boxes.MergeIsUnion | include/zensim/geometry/AnalyticLevelSet.h:280-290 | merging both corners of a box is the union: it contains both and lies in every box that does |
| Boxes.OverlapsIff | include/zensim/geometry/AnalyticLevelSet.h:261-267 | two boxes overlap exactly if they have a point in common, a shared face or corner included |
| BvhTraversal.ScanIsBruteForce | include/zensim/container/Bvh.hpp:674-693 | scanning the places from a node on is the brute-force scan from its first leaf on |
| BvhTraversal.Descend | include/zensim/container/Bvh.hpp:677-680 | down the left chain level and node stay in sync: level 0 exactly at a leaf, and no matching leaf is passed |
| BvhTraversal.Walk | include/zensim/container/Bvh.hpp:674-693 | the stackless loop terminates at its end place and calls exactly for the matching leaves before it, in order |
| BvhTraversal.IterNeighbors | include/zensim/container/Bvh.hpp:662-694 | the calls are those of a brute-force scan over all primitives, cut after the first call that asks to stop |
| BvhTraversal.SelfIterNeighbors | include/zensim/container/Bvh.hpp:696-730 | the same from the given leaf onward, with that leaf's box |
| BvhTraversal.IterTreelet | include/zensim/container/Bvh.hpp:731-751 | exactly the overlapping leaves below the given node |
| BvhTraversal.ReportedOnce | include/zensim/container/Bvh.hpp:662-694 | each overlapping primitive is reported once, no other at all |
| BvhFront.IterFront | include/zensim/container/Bvh.hpp:752-786 | reports the overlapping leaves below the entry and replaces the entry by the nodes its walk visits, which tile its leaves; in bounds exactly if the entry is within the capacity and names a node |
| BvhFront.ReplacementTiles | include/zensim/container/Bvh.hpp:766-784 | the nodes at which the descents of the walk end tile the leaves of the entry, whatever the query |
| BvhFrontPass.StepKeepsInv | include/zensim/container/Bvh.hpp:752-786 | every step of every thread of a pass over a whole front: entries taken by different recordings are different, and hold what their thread recorded once it has written |
| BvhFrontPass.StepProgress | include/zensim/container/Bvh.hpp:752-786 | every step of a thread takes it on by one, until it has recorded all its nodes |
| BvhFrontPass.PassRefines | include/zensim/container/Bvh.hpp:752-786 | in every interleaving of the threads of a pass over recorded nodes that tile: every entry of the new front comes from exactly one old entry, and those that come from one tile its leaves, if the capacity is enough; the counter says how much is needed |
| BvhFrontPass.FrontRefined | include/zensim/container/Bvh.hpp:752-786 | the pass over a whole front with a query for each entry: the threads record what their walks visit, in any interleaving, and every entry has been replaced by nodes that tile its leaves |
| BvhFront.Front.PushBack | include/zensim/container/Bvtt.hpp:142-148 | the counter always advances, an entry past the capacity is dropped |
| BvhFront.Front.Assign | include/zensim/container/Bvtt.hpp:161-169 | replaces the node of an entry within capacity |
| BvhFront.Front.Reorder | include/zensim/container/Bvtt.hpp:72-107 | counting sort in any order of its passes: a permutation of the entries, in node order; all accesses in bounds exactly if the counter has not passed the capacity and all entries name nodes |
| BvhFront.Overfull | include/zensim/container/Bvtt.hpp:142-148 | an input for the access out of bounds: two entries pushed into a front for one |
| BvhRefit.StepKeepsInv | include/zensim/container/Bvh.hpp:467-491 | every step of every thread keeps: flags, arrivals, written boxes are final ones |
| BvhRefit.RefitFinal | include/zensim/container/Bvh.hpp:467-491 | in every interleaving each node is written exactly once and ends with its final box |
| BvhRefit.FinalContains | include/zensim/container/Bvh.hpp:482-485 | a final box contains the final boxes below it |
| BvhRefit.FinalIsLeast | include/zensim/container/Bvh.hpp:482-485 | a final box lies inside every box that contains the primitive boxes below it |
| BvhRefit.StepProgress | include/zensim/container/Bvh.hpp:476-489 | every step of an unfinished thread makes progress: refit terminates under any schedule |
| BvhPipeline.RefittedServes | include/zensim/container/Bvh.hpp:1203-1234 | after `build` and any complete interleaving of `refit` the arrays are what the queries rely on |
| BvhShape.ParentRule | include/zensim/container/Bvh.hpp:398-410 | comparing the splits on both sides of a range names the parent in the Cartesian tree, and the side |
| BvhShape.ShapeLinked | include/zensim/container/Bvh.hpp:358-421 | the links the threads follow from leaf to root are those of the Cartesian tree of the splits |
| BvhBottomUp.StepKeepsInv | include/zensim/container/Bvh.hpp:351-424 | every step of every leaf thread (between two arrivals: one for the merge, one for the chain link, one for handing on) keeps the protocol of first and second arrival |
| BvhBottomUp.StepProgress | include/zensim/container/Bvh.hpp:377-422 | every step of an unfinished thread makes progress |
| BvhBottomUp.BuildRefitDone | include/zensim/container/Bvh.hpp:351-424 | in every interleaving: one tree, the Cartesian tree of the splits, each trunk merged exactly once by its second arrival, its box the union of the leaf boxes of its range, chain tops and lengths recorded |
| BvhBottomUp.BoxOfIsUnion | include/zensim/container/Bvh.hpp:384-387 | the merged box lies inside a box exactly if all leaf boxes of the range do |
| BvhBuildRefit.BuildRefit | include/zensim/container/Bvh.hpp:1173-1198 | `buildRefit` from a complete run of its threads on: whatever the interleaving and the orders of the layout passes, the arrays are what the queries rely on; parents right and accesses in bounds exactly if no split is larger than the first |
| BvhBuildRefit.NeighborsAfterBuildRefit | include/zensim/container/Bvh.hpp:662-694 | after `buildRefit`, in every interleaving, the calls of a query are those of a brute-force scan |
| BvhBuildRefit.RootFirst | include/zensim/container/Bvh.hpp:458-463 | trunk node 0 is the root exactly if no split is larger than the first |
| BvhBuildRefit.RootSecond | include/zensim/container/Bvh.hpp:458-463 | an input with another root: the codes 0, 1 and 4 |
| RbTrees.PlugItems | include/zensim/container/RBTreeMap.hpp:1174-1194 | entries of a whole tree are those before, in and after any subtree |
| RbTrees.PlugRedBlack | include/zensim/container/RBTreeMap.hpp:721-1012 | the whole tree is red-black with a black root exactly if the subtree is and fits its context: repairs may be judged locally |
| RbTrees.HeightBound | include/zensim/container/RBTreeMap.hpp:721-1012 | height at most 2 log2(n + 1) |
| RbRotations.RotatedByHand | include/zensim/container/RBTreeMap.hpp:637-701 | the pointer assignments of a rotation, in the code's order, header and root included |
| RbRotations.RotatedShows | include/zensim/container/RBTreeMap.hpp:637-701 | after them the memory shows the turned tree in the same context |
| RbRotations.TurnItems | include/zensim/container/RBTreeMap.hpp:637-701 | a turned tree has the same entries in the same order |
| RbMap.RBTreeMap.RotateLeft | include/zensim/container/RBTreeMap.hpp:637-668 | the subtree is turned to the left in place, the rest of the tree and the cached ends are as before |
| RbMap.RBTreeMap.RotateRight | include/zensim/container/RBTreeMap.hpp:670-701 | the mirror image |
| RbMap.RBTreeMap.MaintainAfterInsert | include/zensim/container/RBTreeMap.hpp:721-809 | a red node under any context that fits it: afterwards the whole tree is red-black, root black, entries unchanged |
| RbMap.RBTreeMap.LinkNew | include/zensim/container/RBTreeMap.hpp:874-898 | a new node is linked, the cached end moves if it must, and the tree is repaired |
| RbMap.RBTreeMap.Insert | include/zensim/container/RBTreeMap.hpp:866-899 | the recursive insertion: the sorted entries with the pair put in or its value replaced, all invariants kept |
| RbMap.RBTreeMap.GetNodeOrProvide | include/zensim/container/RBTreeMap.hpp:811-848 | the node of the key, a new one linked and repaired if there was none |
| RbMap.RBTreeMap.GetNode | include/zensim/container/RBTreeMap.hpp:850-864 | the node of the key, or null exactly if the key is absent |
| RbMap.RBTreeMap.MaintainAfterRemove | include/zensim/container/RBTreeMap.hpp:901-1012 | the full fix-up: the context fits one black node less, entries unchanged, and the root stays the root |
| RbMap.RBTreeMap.UpdateEnds | include/zensim/container/RBTreeMap.hpp:1040-1057 | the cached least and greatest nodes after the node goes |
| RbMap.RBTreeMap.SwapWithSuccessor | include/zensim/container/RBTreeMap.hpp:1065-1116 | the node trades places with its successor by pointers alone: same shape, same colours, entries as without the node |
| RbSwap.TradeShows | include/zensim/container/RBTreeMap.hpp:1065-1116 | exchanging two nodes in memory shows the tree with the two nodes exchanged |
| RbSwap.Rewired | include/zensim/container/RBTreeMap.hpp:1082-1115 | the code's assignments, also when the successor is the right child, are that exchange |
| RbSwap.TradedPlace | include/zensim/container/RBTreeMap.hpp:1065-1116 | after the exchange the doomed node has no left child, and all other entries are in order |
| RbMap.RBTreeMap.Unlink | include/zensim/container/RBTreeMap.hpp:1118-1168 | a node with at most one child is taken out, black heights repaired first |
| RbMap.RBTreeMap.RemoveHere | include/zensim/container/RBTreeMap.hpp:1039-1171 | ends, exchange, unlinking and release of the node found, the last node included |
| RbMap.RBTreeMap.Remove | include/zensim/container/RBTreeMap.hpp:1014-1172 | the recursive removal with its re-linking on the way back: the sorted entries without the key, and whether it was there |
| RbMap.RBTreeMap.Clear | include/zensim/container/RBTreeMap.hpp:334-343 | nothing but the header is left |
| RbMap.RBTreeMap.constructor | include/zensim/container/RBTreeMap.hpp:287-291 | an empty map around a header that is its own ends |
| RbMap.RBTreeMap.Set | include/zensim/container/RBTreeMap.hpp:399-410 | the contents are the old map with the key set |
| RbMap.RBTreeMap.GetOrDefault | include/zensim/container/RBTreeMap.hpp:373-385 | `operator[]`: the node of the key, entries unchanged if it was there |
| RbMap.RBTreeMap.Erase | include/zensim/container/RBTreeMap.hpp:497-503 | the contents are the old map without the key; returns the number removed |
| RbContents.PutIsUpdate | include/zensim/container/RBTreeMap.hpp:399-410 | putting a pair into the sorted entries is a map update |
| RbContents.DropIsRemoval | include/zensim/container/RBTreeMap.hpp:497-503 | dropping a key from the sorted entries removes it from the map |
| RbRuns.Run | include/zensim/container/RBTreeMap.hpp:399-503 | every run of `insert`, `operator[]` and `erase(key)` keeps all invariants, equals the plain map, keeps `cnt` the number of nodes and the height bound |
| RbIterators.Increment | include/zensim/container/RBTreeMap.hpp:119-131 | the next entry in key order, the header after the last, the root-with-no-right-child case included |
| RbIterators.Decrement | include/zensim/container/RBTreeMap.hpp:132-146 | the entry before, from the header the last one; undoes the increment |
| RbIterators.Walk | include/zensim/container/RBTreeMap.hpp:300-301 | from begin to end: every node once, in key order, `cnt` of them |
| RbIterators.LowerBound | include/zensim/container/RBTreeMap.hpp:510-549 | the first entry not less than the key, the header if there is none |
| RbIterators.UpperBound | include/zensim/container/RBTreeMap.hpp:556-591 | the first entry greater than the key |
| RbIterators.Bound | include/zensim/container/RBTreeMap.hpp:510-591 | the descent of both bounds with its climb back to the successor |
| RbIterators.EraseAt | include/zensim/container/RBTreeMap.hpp:420-430 | the entry is gone, and the iterator returned is the next key's node, still in the map although nodes were relinked |
| RbIterators.InorderTraversal | include/zensim/container/RBTreeMap.hpp:1174-1194 | the explicit stack visits every entry once, in key order |
| BhtTable.EvaluateTableSize | include/zensim/container/Bht.hpp:154-158 | a whole number of buckets, more than twice the entries expected |
| BhtTable.Roomy | include/zensim/container/Bht.hpp:154-158 | the entries expected fit even if every bucket keeps its last slot free |
| BhtInsert.NotStored | include/zensim/container/Bht.hpp:617-642 | a key whose swap may succeed is nowhere in the table |
| BhtInsert.NearEnd | include/zensim/container/Bht.hpp:648-648 | the numbers near the end: the last twenty of the table and those past it, none of a table of fewer than twenty slots |
| BhtInsert.CasTable | include/zensim/container/Bht.hpp:633-642 | a successful swap keeps: occupied slots a prefix of at most B - 1, keys unique, each in the first of its buckets that had room |
| BhtInsert.StepKeepsInv | include/zensim/container/Bht.hpp:612-664 | every atomic step of every inserting thread keeps the invariant |
| BhtInsert.StepProgress | include/zensim/container/Bht.hpp:612-664 | every step of a thread that has not returned makes progress, failed swaps included |
| BhtInsert.CounterBound | include/zensim/container/Bht.hpp:643-652 | at any time the counter is at most the table size less the buckets plus the keys lost, so no key is noted past the end of the list unless a rebuild has lost more keys than there are buckets |
| BhtInsert.BatchFits | include/zensim/container/Bht.hpp:643-652 | in every interleaving the counter goes up by one for each key placed, different keys that were neither stored nor without room; a key is noted past the end of the list exactly if the counter passes it, so never if those keys fit into the list |
| BhtInsert.InsertBatch | include/zensim/container/Bht.hpp:612-664 | in every interleaving, when all have returned: nothing moved, every key that did not fail is there under the number its winner drew, a failed key has three full buckets, numbers without gaps, nothing else; a key that an earlier rebuild lost fails again; an outcome of its own for a number past the end of the list; the success flag is set exactly if it was and no insertion found its buckets full or its number near the end |
| BhtInsert.SucceedsIff | include/zensim/container/Bht.hpp:612-664 | told from the tables before and after: a set flag stays set exactly if every key is stored in the end and no number drawn is near the end of the table, but for those past the end of the list |
| BhtInsert.OneWinner | include/zensim/container/Bht.hpp:612-664 | of several insertions of a key at most one wins, and all agree whether there was room |
| BhtInsert.StoredIffRoom | include/zensim/container/Bht.hpp:612-664 | an insertion reports no room exactly if its key is not in the table in the end |
| BhtInsert.RebuildBatch | include/zensim/container/Bht.hpp:320-340 | after a concurrent rebuild, in every interleaving, every listed key has its number, but for the lost ones, whose three buckets are full of other keys; the success flag is set exactly if it was, nothing is lost and no number of the list is near the end |
| BhtTable.Bht.Query | include/zensim/container/Bht.hpp:666-698 | on any table at rest: the number of a key, and the key is listed under it; -1 exactly if it is absent, as a lost key is |
| BhtTable.Bht.Insert | include/zensim/container/Bht.hpp:612-664 | one insertion at rest, keys lost or not: next number, or -1 and nothing changed, or failure with nothing changed exactly if its three buckets are full; noted past the end of the list exactly if the counter has reached it, the key is new and one of its buckets has room |
| BhtTable.Bht.InsertAt | include/zensim/container/Bht.hpp:612-664 | the same on any table, with any number given or drawn, and the flag for numbers near the end of the table |
| BhtTable.FailsThoughStored | include/zensim/container/Bht.hpp:647-652 | an input for the failure reported for a stored key: the thirteenth key of a table made for eight |
| BhtTable.ListRunsOut | include/zensim/container/Bht.hpp:643-647 | an input for the write past the end of the list: nine keys, a resize that loses six of them, and twelve more keys |
| BhtTable.PartialMap | include/zensim/container/Bht.hpp:666-698 | at rest the listed keys, but for those lost, are the map: number n is given to exactly the nth listed key |
| BhtTable.Bht.Resize | include/zensim/container/Bht.hpp:328-340 | every noted key has its number, keys lost before included, but for those lost now, whose three buckets are full of other keys; the flag stays set exactly if none is lost and no number is too near the end |
| BhtTable.Bht.Reorder | include/zensim/container/Bht.hpp:342-400 | gather or scatter by any permutation, in any order: keys, indices and list agree again under the permuted numbers; the flag is cleared exactly if a key is lost |
| Cuckoo.Written | include/zensim/container/Bcht.hpp:1445-1502 | writing a key into the first free slot, or over another key, keeps the table sound without the other key, and full buckets full |
| Cuckoo.MovesOn | include/zensim/container/Bcht.hpp:1504-1517 | from a full bucket an evicted key goes on to a bucket where a lookup will look for it |
| Cuckoo.Visits | include/zensim/container/Bcht.hpp:1510-1512 | evictions of a key with three different candidates lead from each to the next, round all three |
| Cuckoo.OneMove | include/zensim/container/Bcht.hpp:1483-1519 | if the key drawn from a full bucket has room in its candidate after that bucket, round the three, one eviction ends the chain: that key is there with its number, the new one in its slot, nothing else has changed |
| Cuckoo.EarlyExit | include/zensim/container/Bcht.hpp:1551-1564 | a lookup may stop at the first bucket that is not full |
| Cuckoo.EvictSound | include/zensim/container/Bcht.hpp:1483-1519 | one link of the chain conserves table and pair in hand together |
| Cuckoo.ChaseSound | include/zensim/container/Bcht.hpp:1434-1522 | the whole chain conserves them, refuses no new key, and ends with every pair in a slot or one pair in hand |
| Cuckoo.FailsIff | include/zensim/container/Bcht.hpp:1434-1522 | whether an insertion fails can be told before the call: exactly if all buckets that its chain visits are full, and then the chain has its full length |
| CuckooTables.TrapFails | include/zensim/container/Bcht.hpp:1434-1522 | whatever the random numbers and the length of chains, it fails in a trap: full buckets whose keys, and the new one, have all their buckets among them |
| Cuckoo.ChaseFromList | include/zensim/container/Bcht.hpp:1434-1522 | a chain makes up no pairs: all stay pairs of the list |
| Cuckoo.RefusedAtOnce | include/zensim/container/Bcht.hpp:1424-1438 | `insert` finds a stored key at once exactly if it stands in its first bucket |
| Cuckoo.NumberFits | include/zensim/container/Bcht.hpp:1470-1482 | with a complete list, an insertion that finds room draws a number of the list |
| Cuckoo.ListedIffPlaced | include/zensim/container/Bcht.hpp:1470-1482 | a failed insertion uses up a number, and the list of keys is not complete any more; a placed one leaves it complete |
| CuckooTables.Bcht.Pursue | include/zensim/container/Bcht.hpp:1434-1522 | the loop of `insert` on any table is the chain taken step by step, and terminates |
| CuckooTables.Bcht.Insert | include/zensim/container/Bcht.hpp:1417-1523 | any table: a drawing insertion is refused with nothing changed exactly for a key in its first bucket; a new pair joins the contents, or does so and exactly one pair is lost, exactly if all buckets of its trail are full before; its list entry lies past the end exactly if its number does and it finds room; a complete list never overruns, and stays complete exactly if the insertion does not fail; a drawn key with room in its candidate after the full first bucket means that nothing is lost |
| CuckooTables.NumbersRunOut | include/zensim/container/Bcht.hpp:1480-1480 | an input for the write past the end of the list: one slot a bucket, two buckets |
| CuckooTables.StandsTwice | include/zensim/container/Bcht.hpp:1435-1445 | an input for a stored key that is placed a second time |
| CuckooTables.RoundTrip | include/zensim/container/Bcht.hpp:1434-1522 | an input for a refused insertion that restores every slot and still uses up a number |
| CuckooTables.Bcht.Query | include/zensim/container/Bcht.hpp:1525-1569 | the number of every stored key, -1 for every other |
| CuckooTables.Bcht.Resize | include/zensim/container/Bcht.hpp:410-426 | a larger table filled again by number: any list leaves only pairs of the list; from a complete one each failure costs one pair, no other is changed, without failure the same map |
| CuckooBatch.StepKeepsInv | include/zensim/container/Bcht.hpp:1580-1718 | every step of every thread of the locking version keeps the invariant: no key in two places, every key in play in the table or in one hand |
| CuckooBatch.ChainStep | include/zensim/container/Bcht.hpp:1672-1716 | the chain length counts the pairs a thread has evicted: one more with every change of its hand, which only a swap in a full bucket makes |
| CuckooBatch.LockStep | include/zensim/container/Bcht.hpp:1674-1714 | with the lock of a full bucket a thread takes up the pair of the drawn slot, leaves its own there and goes on to the next candidate of the key it took; a lock that stays busy changes nothing but the round |
| CuckooProgress.StepProgress | include/zensim/container/Bcht.hpp:1602-1717 | every step of an unfinished thread that finds the lock free makes progress: a take fails only if a slot has been filled meanwhile, an eviction lengthens a bounded chain |
| CuckooBatch.BatchConserves | include/zensim/container/Bcht.hpp:1580-1718 | in every interleaving, when all have returned: the old pairs and the new ones, each under its number, less exactly one pair, each another one, for each failure, and a failure only after a chain of full length; a key is left unlisted exactly if the number drawn is past the end of the list |
| CuckooBatch.BatchListed | include/zensim/container/Bcht.hpp:1656-1671 | a batch of new keys that loses no pair leaves every key listed under its number |
| CuckooBatch.BatchFits | include/zensim/container/Bcht.hpp:1656-1671 | no number lies past the end of the list if the numbers to be drawn fit into it, or if the list was complete and no pair is lost |
| CuckooBatch.BatchRebuilds | include/zensim/container/Bcht.hpp:410-426 | after a concurrent rebuild the table holds the listed pairs, less exactly one, each another one, for every insertion that failed; list and counter are as before |
| HashProbes.Residue | include/zensim/container/HashTable.hpp:383-383 | `(hash % n + n) % n` with the remainder of C++ is the residue of a possibly negative hash |
| HashProbes.ProbesDistinct | include/zensim/container/HashTable.hpp:386-386 | in a table of a power of two slots, stride 127 visits no slot twice within one round |
| HashProbes.ProbesAll | include/zensim/container/HashTable.hpp:386-386 | and visits every slot |
| HashTables.ProbingEnds | include/zensim/container/HashTable.hpp:385-388 | the probing loop ends exactly if the table has a free slot or the key, then within one round |
| HashTables.FillUp | include/zensim/container/HashTable.hpp:380-398 | an input for the loop that does not end: a table filled to the last slot by insertions |
| HashTables.OneSlot | include/zensim/container/HashTable.hpp:380-398 | a key has at most one slot |
| HashTables.StepKeepsInv | include/zensim/container/HashTable.hpp:380-398 | every step of every inserting thread keeps the invariant |
| HashTables.StepProgress | include/zensim/container/HashTable.hpp:380-398 | with a slot for every insertion still probing, every step makes progress: all insertions return |
| HashTables.RoomAtStart | include/zensim/container/HashTable.hpp:380-398 | a table at rest has that slot for every insertion if the keys fit |
| HashTables.BatchOutcome | include/zensim/container/HashTable.hpp:380-398 | in every interleaving: each new key has exactly one winner, numbers without gaps, keys listed, old keys as before |
| HashTables.EvaluateTableSize | include/zensim/container/HashTable.hpp:88-91 | sixteen slots an entry, a power of two |
| HashTables.HashTable.Insert | include/zensim/container/HashTable.hpp:380-398 | a new key gets the next number and joins the list, a known key changes nothing |
| HashTables.HashTable.Resize | include/zensim/container/HashTable.hpp:285-296 | one thread: no key and no number changes |
| HashRebuilds.ResizeRests | include/zensim/container/HashTable.hpp:285-296 | the concurrent rebuild, in every interleaving: the table is at rest with the same keys, list and numbers |
| HashRebuilds.StepProgress | include/zensim/container/HashTable.hpp:428-442 | every step of a reinserting thread makes progress |
| HashTables.HashTable.Query | include/zensim/container/HashTable.hpp:447-456 | the number of a key, -1 if it is absent; in bounds exactly if the search does not step from a slot to the table size itself |
| HashTables.MissedKey | include/zensim/container/HashTable.hpp:453-454 | an input for the lookup out of bounds: the second of two keys with hash 1 in a table of 128 slots |
| CellRanges.IncrementRank | include/zensim/ZpcIterator.hpp:529-537 | an increment with carry is the next offset in lexicographic order |
| CellRanges.Collapse | include/zensim/ZpcIterator.hpp:519-543 | the loop visits every offset inside the extents exactly once; a zero extent counts as one, but not in the first direction |
| CellRanges.CellsOf | include/zensim/container/SpatialHash.hpp:97-104 | the cells of a box: half-open rounded intervals, each cell once |
| CellRanges.CoversIff | include/zensim/container/SpatialHash.hpp:97-102 | for a box that is flat in no direction these are the cells that its half-open intervals meet |
| CellRanges.SharedIff | include/zensim/container/SpatialHash.hpp:97-104 | two boxes share a cell exactly if their rounded intervals meet in every direction |
| CellRanges.Overlapping | include/zensim/container/SpatialHash.hpp:96-112 | boxes that overlap in every direction, and have some length in the first, share a cell |
| CellRanges.TouchingMissed | include/zensim/container/SpatialHash.hpp:96-112 | touching in a grid plane is not enough, and a box flat in a grid plane across the first direction has no cell |
| SpatialTable.KeysNumbered | include/zensim/container/SpatialHash.hpp:157-171 | in every interleaving, a pass of insertions after which the success flag is set has numbered exactly the cells inserted, without gaps, also on a table that has lost listed keys to a rebuild: success then means that none is lost; the one exception, a cell noted past the end of the list, takes more cells than slots and more keys lost than buckets |
| SpatialTable.PassSucceeds | include/zensim/container/SpatialHash.hpp:157-171 | a pass leaves a set flag set exactly if in the end every cell is stored and no number drawn is near the end of the table, but for those past the end of the list |
| SpatialTable.UncrowdedSucceeds | include/zensim/container/SpatialHash.hpp:157-171 | whatever the interleaving, a pass succeeds and ends the loop if every cell has a candidate bucket for which fewer than B - 1 other cells compete, and the numbers of as many cells are not near the end |
| SpatialTable.FirstPass | include/zensim/container/SpatialHash.hpp:152-171 | so with such cells `build` is through with its first pass, for which the new table has the flag set |
| SpatialTable.ResizeRests | include/zensim/container/SpatialHash.hpp:174-181 | the resize after a failure keeps the list; if the table grows the flag is set exactly if nothing is lost and no number listed is near the end, otherwise nothing changes |
| SpatialTable.LoopNumbers | include/zensim/container/SpatialHash.hpp:157-181 | however many passes and resizes the do-while loop takes, whatever their interleavings and whatever rebuilds lose, it ends with exactly the cells numbered, unless its last pass notes a cell past the end of the list, which takes more cells than slots |
| SpatialTable.RetryGrows | include/zensim/container/SpatialHash.hpp:179-180 | the retry gets a larger table exactly from two primitives on |
| SpatialTable.RetryInVain | include/zensim/container/SpatialHash.hpp:157-181 | for a single primitive the loop never ends with its first retry |
| SpatialTable.CrowdedFails | include/zensim/container/SpatialHash.hpp:157-173 | with more different cells than the buckets take keys, a pass leaves the success flag cleared |
| SpatialTable.SixteenCells | include/zensim/container/SpatialHash.hpp:157-181 | an input for the retry in vain: a box with sixteen cells needs at least three passes, whatever the hash and the interleavings |
| SpatialTable.BuildHash | include/zensim/container/SpatialHash.hpp:144-232 | `build` as a whole, from the boxes, if no cell is noted past the end of the list: loop, lookups, counting, scan and filling; in the end the table answers the number of every cell and holds nothing else, and each segment holds exactly the primitives that have its cell, each once |
| SpatialTable.Finish | include/zensim/container/SpatialHash.hpp:90-94 | what `build` leaves is a structure on which the queries are right |
| SpatialTable.CellsNumbered | include/zensim/container/SpatialHash.hpp:158-171 | so every covered cell has its own number below the count |
| SpatialHashes.NumbersOf | include/zensim/container/SpatialHash.hpp:191-202 | the numbers of one primitive's cells, without repeats |
| SpatialFill.CountedTotals | include/zensim/container/SpatialHash.hpp:187-203 | in every interleaving each counter ends as the number of primitives that have the cell |
| SpatialFill.CountProgress | include/zensim/container/SpatialHash.hpp:187-203 | every step of a thread of the counting pass takes it on by one, until it is through |
| SpatialFill.FillStepKeeps | include/zensim/container/SpatialHash.hpp:211-229 | every atomic step of the filling pass keeps: numbers drawn in a cell are its top ones, each once |
| SpatialFill.SlotApart | include/zensim/container/SpatialHash.hpp:225-227 | every slot is written once |
| SpatialFill.Filled | include/zensim/container/SpatialHash.hpp:211-229 | in every interleaving the segment of a cell holds exactly the primitives that have it, each once |
| SpatialFill.FillProgress | include/zensim/container/SpatialHash.hpp:211-229 | every step of a thread of the filling pass takes it on by one, until it is through |
| SpatialHashes.BuildGroups | include/zensim/container/SpatialHash.hpp:183-229 | counting, scan and filling together: the finished structure groups the primitives by cell |
| SpatialHashes.SpatialHash.Lookup | include/zensim/container/SpatialHash.hpp:105-106 | the table answers the number of a cell of the primitives, and nothing for any other cell |
| SpatialHashes.SpatialHash.BoxNeighbors | include/zensim/container/SpatialHash.hpp:96-112 | a primitive is reported once for every cell it shares with the box, the cells looked up in the table |
| SpatialHashes.SpatialHash.PointNeighbors | include/zensim/container/SpatialHash.hpp:114-125 | the primitives that have the point's cell, each once |
| SpscSizes.NextPowerOfTwo | include/zensim/container/ConcurrentQueue.hpp:14-24 | the smallest power of two not below the value up to 2^63, among all powers of two; above it the increment wraps to 0 |
| SpscSizes.Log2PowerOfTwo | include/zensim/container/ConcurrentQueue.hpp:26-33 | the exponent of a power of two |
| SpscSizes.BalancedChunkCapacity | include/zensim/container/ConcurrentQueue.hpp:35-53 | for a power of two: a request is rounded up to a power of two, but is never more than the capacity; without one the square root of the capacity rounded up to a power of two, brought between 64 and 1024, but never more than the capacity; 0 for a request above 2^63 |
| SpscSizes.Construct | include/zensim/container/ConcurrentQueue.hpp:90-100 | for all arguments: the layout is proper exactly if the capacity and the chunk size asked for are at most 2^63; then the capacity is the smallest power of two not below the one asked for, and the chunk the smaller of it and the rounded request, or the balanced size; a larger capacity becomes 0, a larger chunk size a division by 0 |
| SpscSizes.CellAtIs | include/zensim/container/ConcurrentQueue.hpp:150-153 | masks and shift are remainder and quotient |
| SpscSizes.CellAtBijection | include/zensim/container/ConcurrentQueue.hpp:150-153 | different positions of one lap have different cells |
| SpscSizes.CellAtOnto | include/zensim/container/ConcurrentQueue.hpp:150-153 | every chunk cell has its position |
| SpscSizes.CellAtWraps | include/zensim/container/ConcurrentQueue.hpp:150-153 | the cell depends on the wrapped counter only |
| SpscQueue.StepKeepsInv | include/zensim/container/ConcurrentQueue.hpp:114-135 | every load, cell access and publication of either side keeps the invariant, counters wrapping at 2^64 |
| SpscQueue.NoClash | include/zensim/container/ConcurrentQueue.hpp:119-133 | producer and consumer never work on one cell, and find it raw or holding the oldest value as they need it |
| SpscQueue.StepRefines | include/zensim/container/ConcurrentQueue.hpp:114-135 | every step is a step of a bounded queue of values, or none |
| SpscQueue.FirstInFirstOut | include/zensim/container/ConcurrentQueue.hpp:114-135 | in every interleaving values leave in the order they entered, none lost, none twice, never more than the capacity inside |
| SpscQueue.SentAsGiven | include/zensim/container/ConcurrentQueue.hpp:114-123 | in every interleaving what is published are the values handed over, in the order of the calls that published them |
| SpscQueue.WaitFree | include/zensim/container/ConcurrentQueue.hpp:114-135 | whatever the other side does, a call returns after at most five own steps to enqueue, six to dequeue |
| SharedPointers.StepKeepsInv | include/zensim/ZpcResource.hpp:287-340 | every atomic step of any handle keeps: `strong` counts the strong handles, `weak` the weak ones and one for the living |
| SharedPointers.Safe | include/zensim/ZpcResource.hpp:287-340 | while a handle lives the block does, while a strong one lives the object does; nothing is disposed of twice |
| SharedPointers.NoRevival | include/zensim/ZpcResource.hpp:293-301 | a lock never revives a dead object |
| SharedPointers.LockVerdict | include/zensim/ZpcResource.hpp:293-301 | whatever the others do, a lock gives up only when the object is dead, for good, and succeeds only while it lives |
| SharedPointers.LockWhole | include/zensim/ZpcResource.hpp:293-301 | a `lock` that nobody disturbs, however many swaps fail spuriously, makes one more strong handle exactly if the object lives, and otherwise none; nothing else changes |
| SharedPointers.CopiesAndMoves | include/zensim/ZpcResource.hpp:363-378 | a copy is one more handle and one more in its count, which its release takes back; a move hands the handle over, and a move back restores it |
| SharedPointers.ReleaseWhole | include/zensim/ZpcResource.hpp:303-314 | a release that nobody disturbs: the handle is gone, the object destroyed exactly with its last strong handle, the block deleted exactly if nothing else holds it |
| SharedPointers.AllGone | include/zensim/ZpcResource.hpp:303-314 | once all handles are gone the object has been destroyed and the block deleted, each exactly once, whatever the interleaving |
| AsyncEvents.StepKeepsInv | include/zensim/execution/AsyncEvent.hpp:45-70 | every step of any number of completions with terminal states, waits and registrations keeps the invariant |
| AsyncEvents.WaitReturns | include/zensim/execution/AsyncEvent.hpp:65-70 | in every interleaving `wait` and `complete` return only on a terminal event; a waiter that has seen another status sleeps, is about to, or tests again |
| AsyncEvents.StatusReported | include/zensim/execution/AsyncEvent.hpp:45-49 | in every interleaving the status is `pending` or that of a completion that has stored it; the only completion leaves exactly its own |
| AsyncEvents.TerminalIff | include/zensim/execution/AsyncEvent.hpp:22-25 | the terminal states are all but pending, running and suspended |
| AsyncEvents.StaysTerminal | include/zensim/execution/AsyncEvent.hpp:45-49 | a terminal status stays terminal, and no callback fires before |
| AsyncEvents.StatusUndone | include/zensim/execution/AsyncEvent.hpp:45-49 | a terminal status is undone exactly by the store of a completion with another state that has found the event pending |
| AsyncEvents.UndoneRun | include/zensim/execution/AsyncEvent.hpp:45-49 | an input for that: two completions, one with `running` |
| AsyncEvents.NobodySleeps | include/zensim/execution/AsyncEvent.hpp:51-70 | once all completions are through nobody sleeps: the mutex between store and notification loses no wake-up |
| AsyncEvents.CalledOnce | include/zensim/execution/AsyncEvent.hpp:140-154 | a callback fires at most once, and exactly once in the end unless it was turned away |
| AsyncEvents.CalledInOrder | include/zensim/execution/AsyncEvent.hpp:51-62 | callbacks are called in the order of their registration: one that is listed stands behind all that are there, and is not called as long as another stands before it |
| AsyncEvents.DroppedWhenFull | include/zensim/execution/AsyncEvent.hpp:151-151 | a callback is turned away only by a list of eight |
| AsyncEvents.NoDeadlock | include/zensim/execution/AsyncEvent.hpp:45-70 | as long as a completion or a registration is not through, or any thread on a terminal event, some thread is ready to go on |
| AsyncEvents.OwnAhead | include/zensim/execution/AsyncEvent.hpp:45-70 | every step of a completion or a registration that is ready brings it nearer to its end, whatever the status; on a terminal event also that of a waiter |
| AsyncEvents.StepProgress | include/zensim/execution/AsyncEvent.hpp:45-70 | every step of a ready thread, and every waking, is progress: on a terminal event all threads return |

## Left out

- BVHs of 0 to 2 leaves, which are flat lists; ray and distance queries; cloning, allocators and serialization.
- BvhBuild.Topology.BuildAll: bodies run one after the other in any order; interleavings inside a body are not modelled, since a body reads only the codes, writes cells of its own node and its two children, and increments one counter atomically.
- BvhLayout.Layout.Reorder: as above, each pass in any order of whole bodies, which write disjoint places.
- BvhSearch.FarthestHit: the doubling step is an unbounded integer.
- Boxes have real coordinates in any number of dimensions; floating-point rounding is not modelled.
- `radix_sort_pair`, the Morton code of a point, and the scan algorithm itself: codes are given sorted, `exclusive_scan` by its result.
- BhtInsert.InsertBatch: keys equal to the reserved empty key are excluded; the comparison and swap of a key under its slot's status lock is one step.
- BhtTable.Bht.Resize: one thread rebuilds (`BhtInsert.RebuildBatch` has the concurrent one).
- BvhBottomUp.StepKeepsInv: the merge of two boxes, the writes for the chain link with the plain increment of the depth, and the writes to the parent are one step each, though they touch several fields; only one thread touches these fields between two arrivals.
- BhtTable.Bht.Reorder: the exception for a map of another size is the precondition instead.
- CuckooTables.Bcht.Insert: the variant that stores hashed keys is not modelled; entries of the list that were never written are 0.
- CuckooBatch.StepKeepsInv: what a thread does under a bucket's lock is one step, and jobs either draw a number and list their key or carry a number and do not.
- HashTables.HashTable.Query: on a table without a free slot the lookup of an absent key does not end, as an insertion; `preserve` and removal are left out.
- SpatialHashes.SpatialHash.BoxNeighbors: cells are keys one to one, none of them the reserved one.
- SpatialTable.BuildHash: a build in which a cell is noted past the end of the list is followed up to that pass only; every insertion of a cell is a thread of its own, which allows more interleavings than a thread per primitive; the exceptions for a tiny cell side and for the fifth failure, and the overflow of the number of entries, are left out.
- RbMap.RBTreeMap.Insert: keys and values are integers and the comparator is `<`; `removeAll`, range erase, const and reverse iterators, `at` and `count` on an empty tree are left out.
- RbMap.RBTreeMap.MaintainAfterInsert: two branches of the code cannot be reached under its calling conditions and stand as unreachable.
- SharedPointers.StepKeepsInv: a handle is used by one thread at a time, as the code demands; counts are unbounded; conversions between handle types.
- AsyncEvents.StepKeepsInv: completions report terminal states, which the code does not check; `wait_for`, the state's own reference count, and the contents of callbacks are left out.
- SpscQueue.FirstInFirstOut: the destructor and the approximate size are left out; so is the wrapper of the third-party queue.
- Device back ends, weak memory orders and fences, the CUDA variants of the same functions.
