# Eight algorithmic cores of GCC 4.2.1, verified in Dafny

This project models eight self-contained cores of the compiler under `GCC/gcc` and proves what they are for. Methods
follow the C code loop by loop and are proved against functions and predicates on plain values (sets, sequences, maps);
lemmas then say what those mean for every input and every run.

* **Sparse bitmaps** (`bitmap.c`, `bitmap.h`): `Words`, `Blocks`, `Obstacks`, `Bitmaps` and the `Bitmap...` modules. Elements
  are objects linked through `next` and `prev`, with a moving `current` and a free list of lists. `Blocks` gives the
  meaning of an element list as a set, `BitmapRuns` lifts single operations to whole programs over several bitmaps.
* **Block reordering** (`bb-reorder.c`): `FlowGraphs`, `Layouts`, `TraceFormation`, `TraceConnection` for trace growing, loop rotation,
  copying and connecting; `EdgeFixup` for the hot/cold partitioning pass.
* **Aliasing** (`alias.c`): `Addresses` for the conflict test on addresses, `AliasSets` for the flattened table of alias sets.
* **Integer powers** (`builtins.c`): `PowerTable`, `Powers`, `PowerExpansion`, `PowerBound`.
* **Branch target registers** (`bt-load.c`): `BranchTargetLoads`.
* **Declarator printing** (`c-aux-info.c`): `Declarators` holds the grammar and a parser, `TypePrinting` what the printer builds,
  `DeclarationText` the characters and a lexer, `AuxInfo` the functions on strings and the round trip.
* **Pool allocation** (`alloc-pool.c`): `AllocPools`.

`dafny verify dfyconfig.toml` checks everything.

## What was found false, and what holds instead

* The three-operand bitmap operations compare an old index of `current` with a new one, so `current` can be left on a freed
  element (`BitmapRuns.CurrentCanBeLost`). The methods state the exact condition, `CurrentKept`, under which it is not, and
  that it holds when `current` is the first element (`BitmapSets.KeptAtFirst`).
* `memrefs_conflict_p` divides sizes and offset by a scale with truncation. `Addresses.ScalingExact` says when that is right,
  and `Addresses.SizesNotDivided` is an input for which the answer is wrong.
* `memrefs_conflict_p` is to assume a conflict when a size is zero or negative, but a negative scale turns a negative size into
  a positive one (`Addresses.NegativeScale`; the sizes -1 there are those the `AND` branch, which is not modelled, passes on).
  `Addresses.UnknownSizeConflicts` says for which addresses the promise is kept: those whose scales have a product that is not
  negative.
* `better_edge_p` is to favour edges that do not cross between partitions, but crossing edges are passed over before it is asked, so
  the rule never decides (`TraceFormation.CrossingIdle`).
* When `connect_traces` has copied a block behind a trace and sought nothing to follow the copy, it stops without looking at the
  copy's own edges, so an edge on to a trace that could be connected may be left (`TraceConnection.StopsEarly`).
  `TraceConnection.StopsWith` says exactly when.
* `gen_type` writes an array count into ten characters, which is enough exactly for counts below 10000000
  (`DeclarationText.CountFits`, `DeclarationText.CountOverrun`). The printer's `overrun` says whether that has failed; what the
  source prints then is not defined, so the texts below are what it prints as long as `overrun` is false.
* `find_jump_block` is documented to look for blocks that only jump; its loop cannot reach one (`EdgeFixup.LooksLikeJump`). Every
  forwarder is therefore a new block.
* `gen_type` never prints `restrict` on a pointer and puts the qualifiers of array and function types in front of the data
  type. `TypePrinting.SeenIffPrintable` says exactly which types survive.
* Without `ENABLE_CHECKING`, `pool_free` accepts a slot that is free already as long as any other is outstanding, and the free
  list becomes a ring (`AllocPools.AllocPool.PoolFree`).

## Model

| member | source | states |
|---|---|---|
| Blocks.MergeMeaning | GCC/gcc/bitmap.c:637-1345 | for every Boolean operation, merging two canonical element lists gives a canonical list of exactly the combined set; the partner of all methods that are proved against Merge |
| Blocks.CanonicalUnique | GCC/gcc/bitmap.c:1351-1369 | two canonical lists of the same set are the same list, so comparing elements decides equality of sets |
| Obstacks.Obstack.Allocate | GCC/gcc/bitmap.c:100-145 | takes the first element of the flattened list of free lists, moving the outer list on where an inner one ends, or a new element when nothing is free; the element comes back all zero |
| Obstacks.Obstack.Release | GCC/gcc/bitmap.c:48-65 | puts one element in front of the free list of lists |
| Obstacks.Obstack.ReleaseChain | GCC/gcc/bitmap.c:165-184 | puts a whole chain onto the free list in one step, in order and without losing an element |
| Bitmaps.Bitmap.ElementFree | GCC/gcc/bitmap.c:69-96 | removes exactly one element, keeps the links, repairs first and current, and the element is then free |
| Bitmaps.Bitmap.ClearFrom | GCC/gcc/bitmap.c:147-185 | cuts the list at an element, frees the rest at once, loses no element; says exactly when current is moved, including the comparison of an old index with a new one |
| Bitmaps.Bitmap.ClearTail | GCC/gcc/bitmap.c:147-185 | on a list that increases across the cut, current ends in the list with its index right |
| Bitmaps.Bitmap.InsertAfter | GCC/gcc/bitmap.c:351-384 | inserts a zero element with the given index behind a position, linked both ways |
| BitmapBits.ElementLink | GCC/gcc/bitmap.c:296-349 | links an element in at the place its index belongs to, found from current in either direction |
| BitmapBits.FindBit | GCC/gcc/bitmap.c:422-469 | wherever current is, finds the element of the index if and only if there is one, leaves the set as it is, and leaves current at or next to the place of insertion |
| BitmapBits.SetBit | GCC/gcc/bitmap.c:491-509 | inserts exactly one member and keeps the invariant |
| BitmapBits.ClearBit | GCC/gcc/bitmap.c:472-488 | removes exactly one member, freeing the element when it becomes zero |
| BitmapBits.BitP | GCC/gcc/bitmap.c:512-528 | decides membership, changes only where current is, and leaves it on the element of a member |
| BitmapBits.Clear | GCC/gcc/bitmap.c:187-194 | empties the set and frees all elements |
| BitmapSets.BitmapAnd | GCC/gcc/bitmap.c:635-689 | dst becomes a & b with a and b unchanged; the invariant holds afterwards if and only if a is b or current survives the reuse of elements, so in particular when current is first on entry |
| BitmapSets.BitmapAndCompl | GCC/gcc/bitmap.c:738-802 | dst becomes a & ~b, with the same exact condition on current |
| BitmapSets.BitmapIor | GCC/gcc/bitmap.c:1047-1150 | dst becomes the union of a and b, with the same condition, and the result says exactly whether the set dst denotes has changed |
| BitmapSets.BitmapXor | GCC/gcc/bitmap.c:1215-1288 | dst becomes a ^ b, with the same condition |
| BitmapSets.BitmapAndInto | GCC/gcc/bitmap.c:691-736 | a becomes a & b in place, invariant kept, b unchanged |
| BitmapSets.BitmapAndComplInto | GCC/gcc/bitmap.c:804-856 | a becomes a & ~b in place; true if and only if a has changed |
| BitmapSets.BitmapComplAndInto | GCC/gcc/bitmap.c:978-1045 | a becomes ~a & b in place |
| BitmapSets.BitmapIorInto | GCC/gcc/bitmap.c:1152-1213 | a becomes the union of a and b in place; true if and only if a has changed |
| BitmapSets.BitmapXorInto | GCC/gcc/bitmap.c:1290-1345 | a becomes a ^ b in place, empty when a is b |
| BitmapSets.BitmapIorAndCompl | GCC/gcc/bitmap.c:1426-1441 | dst becomes the union of a and from1 & ~from2 through a temporary, with the same exact condition on current; a, and from1 and from2 where they are not dst, stay as they are, and no element is lost on either obstack; true if and only if dst has changed |
| BitmapSets.BitmapIorAndComplInto | GCC/gcc/bitmap.c:1443-1457 | the same in place, whichever of the arguments are one bitmap; the others stay as they are and no element is lost |
| BitmapSets.KeptAtFirst | GCC/gcc/bitmap.c:155-163 | with current at the first element, or dst empty, the three-operand forms keep the invariant |
| BitmapOps.CopyTo | GCC/gcc/bitmap.c:386-420 | to gets the elements of from; a bitmap copied to itself becomes empty |
| BitmapRange.ClearRange | GCC/gcc/bitmap.c:858-976 | removes exactly [start, start + count), across partial elements and words, frees what becomes zero and keeps the invariant |
| BitmapQueries.EqualP | GCC/gcc/bitmap.c:1348-1369 | true if and only if the sets are equal |
| BitmapQueries.IntersectP | GCC/gcc/bitmap.c:1372-1397 | true if and only if the sets meet |
| BitmapQueries.IntersectComplP | GCC/gcc/bitmap.c:1400-1424 | true if and only if a has a member that b has not |
| BitmapQueries.FirstSetBit | GCC/gcc/bitmap.c:583-632 | the least member |
| BitmapIterators.BitmapIterator.SetInit | GCC/gcc/bitmap.h:201-240 | what is left to visit is exactly the members from the start bit on, with the adjustment on an empty word |
| BitmapIterators.BitmapIterator.IterSet | GCC/gcc/bitmap.h:369-413 | stops at the least bit left, or reports that nothing is left; what is left does not change |
| BitmapIterators.BitmapIterator.AndInit | GCC/gcc/bitmap.h:242-308 | the same for the common members of two bitmaps |
| BitmapIterators.BitmapIterator.IterAnd | GCC/gcc/bitmap.h:416-480 | the same, stepping both lists until their indices meet |
| BitmapIterators.BitmapIterator.AndComplInit | GCC/gcc/bitmap.h:310-356 | the same for the members of one bitmap that are not in another |
| BitmapIterators.BitmapIterator.IterAndCompl | GCC/gcc/bitmap.h:483-534 | the same, past the end of the second list too |
| BitmapIterators.BitmapIterator.Next | GCC/gcc/bitmap.h:359-366 | takes exactly the bit just visited off what is left |
| BitmapIterators.ExecuteIfSet | GCC/gcc/bitmap.h:536-546 | the loop visits exactly the members from the start bit on, each once, in increasing order |
| BitmapIterators.ExecuteIfAnd | GCC/gcc/bitmap.h:548-556 | the same for the intersection |
| BitmapIterators.ExecuteIfAndCompl | GCC/gcc/bitmap.h:558-566 | the same for the difference |
| BitmapRuns.Step | GCC/gcc/bitmap.h:51-61 | one operation on several bitmaps sharing an obstack acts on its destination only, as on plain sets, gives the answer it gives there, and loses no element; all invariants hold afterwards if and only if the operation is safe, which only the three-operand forms may fail to be |
| BitmapRuns.Run | GCC/gcc/bitmap.c:48-1345 | any program of changes, queries and loops over such bitmaps does what it does on plain sets, gives the same answers, and keeps every element in exactly one place, up to and including the first operation that leaves a current outside its list |
| BitmapRuns.InOnePlace | GCC/gcc/bitmap.h:51-61 | no element is in two bitmaps, twice in one, or in a bitmap and free |
| BitmapRuns.CurrentCanBeLost | GCC/gcc/bitmap.c:161-163 | bitmaps made by setting four bits and testing one: bitmap_and leaves current on a freed element |
| Layouts.Layout.DuplicateBlock | GCC/gcc/cfghooks.c:693-765 | a new last block with the partition and the successors of the old one, to which one incoming edge now leads; its edges are like the old ones in all that decides about following them; no other edge moves. Frequency and count are divided between the two, and the copy stands behind the given block in the order before the pass |
| Layouts.Layout.CopyBb | GCC/gcc/bb-reorder.c:752-804 | duplicates a block for an edge and inserts the copy into a trace's chain behind a block, with visited, bbd and the arrays extended |
| Layouts.RotatedChain | GCC/gcc/bb-reorder.c:288-403 | relinking a loop at one place turns its closed chain into the chain that starts behind the chosen block |
| TraceFormation.BbToKey | GCC/gcc/bb-reorder.c:806-839 | never executed or cold blocks come last; otherwise the key is the frequency, raised by the most frequent edge that extends a trace or closes a loop; there is but one such key |
| TraceFormation.SelectSuccessor | GCC/gcc/bb-reorder.c:496-551 | the edge chosen is the one that picking through the outgoing edges with better_edge_p gives; it leads to a block in the same partition that is in no earlier trace |
| TraceFormation.PickedMeaning | GCC/gcc/bb-reorder.c:496-544 | nothing is chosen only if no outgoing edge can be followed, and what is chosen can be |
| TraceFormation.WinnerPicked | GCC/gcc/bb-reorder.c:841-892 | an edge that could be followed, is preferred to all such edges before it, and to which none behind it is preferred, is the one chosen |
| TraceFormation.MostProbablePicked | GCC/gcc/bb-reorder.c:858-865 | after anything but a call, an edge more than a tenth more probable than every other that could be followed is chosen, whatever its place in the list |
| TraceFormation.LeastFrequentPicked | GCC/gcc/bb-reorder.c:866-874 | of edges within a tenth of each other in probability, the one chosen is that whose destination is less frequent by more than a tenth than all others |
| TraceFormation.NextPicked | GCC/gcc/bb-reorder.c:875-880 | with frequencies that close too, the edge to the block that follows anyway is chosen |
| TraceFormation.FirstPicked | GCC/gcc/bb-reorder.c:875-880 | and where none leads there, the first of them |
| TraceFormation.LastAfterCallPicked | GCC/gcc/bb-reorder.c:514-526 | after a call the last edge that can be fallen through is chosen, by no comparison at all |
| TraceFormation.CrossingIdle | GCC/gcc/bb-reorder.c:883-892 | the rule that favours edges that do not cross between partitions never decides which successor is chosen, since crossing edges are passed over before |
| TraceFormation.EndsWhen | GCC/gcc/bb-reorder.c:546-551 | a trace does not go on behind a block if and only if no edge out of it can be followed, or the one picked leads to a block with several predecessors that is cheap to copy |
| TraceFormation.BestSuccessor | GCC/gcc/bb-reorder.c:496-551 | the edge along which the trace goes on is exactly the one picked, or none if its destination is left to be copied |
| TraceFormation.Triangle | GCC/gcc/bb-reorder.c:663-704 | the first block on the side of a triangle that passes the test is taken, and the chosen successor only if there is none |
| TraceFormation.MarkBbVisited | GCC/gcc/bb-reorder.c:405-417 | the block is in the trace and out of any heap |
| TraceFormation.QueueSuccessors | GCC/gcc/bb-reorder.c:553-615 | each edge that is not followed, in order, gives its unvisited destination the key it should have, in the heap the block is in, or else in that of the next round exactly if edge and block are both unfit for this one; afterwards every such successor is visited or queued |
| TraceFormation.ScanLoop | GCC/gcc/bb-reorder.c:310-366 | the best edge out of the loop is the fold over all edges of its blocks in order; it leaves the trace, and is one to an unvisited block or the start of a trace if there is any such |
| TraceFormation.DominantWins | GCC/gcc/bb-reorder.c:326-363 | an edge out of the loop that is at least as frequent and as often taken as every other, and strictly in one of the two, wins; an edge to an unvisited block or the start of a trace only has to beat others of that kind, and an edge of the other kind never beats one |
| TraceFormation.RotateLoop | GCC/gcc/bb-reorder.c:288-403 | the chain becomes exactly the loop rotated so that the block of the best edge comes last, with a copy of the header in front if and only if the block before it leads only there and the header is small and ends in a conditional jump; without such an edge it stays. It ends with null, no block is lost or doubled, and the block returned ends it |
| TraceFormation.CloseLoop | GCC/gcc/bb-reorder.c:619-661 | a trace that comes back to itself is rotated exactly for loops of at least four iterations not starting the function, gets a copy of the header exactly for shorter ones worth it, and else stays as it is; its length counts the copied block; it is complete either way |
| TraceFormation.GrowTrace | GCC/gcc/bb-reorder.c:477-715 | from a block on, each block is followed by the destination of the edge picked, or by the block on the side of a triangle, until there is none or it is in the trace already, which is then closed as CloseLoop says; the trace is complete, known by its ends, and every successor of its blocks is visited or queued |
| TraceFormation.FormedOnce | GCC/gcc/bb-reorder.c:477-715 | these conditions determine the trace: the same view and the same first block give the same blocks, the same chain and the same length |
| TraceFormation.WhyEnded | GCC/gcc/bb-reorder.c:477-715 | a trace ends where no edge can be followed, where the edge picked leads to a block that is cheap to copy, or where it leads back into the trace |
| TraceFormation.RoundStep | GCC/gcc/bb-reorder.c:437-745 | a block with the least key leaves the heap; it is put off to the next round with its key counted anew exactly if there is another round and the block is not executed often enough for this one, and otherwise starts the next trace, after which the successors of that trace's last block have the keys they should have |
| TraceFormation.FindTraces1Round | GCC/gcc/bb-reorder.c:419-750 | one round keeps all this and uses its heap up; in the last round the heap for the next is empty |
| TraceFormation.FindTraces | GCC/gcc/bb-reorder.c:219-286 | every trace found was begun with a block of least key that was frequent enough, and formed as GrowTrace says, with the traces before it there, and with the thresholds of its round, computed from the greatest frequency and count of the entry points; the rounds come in order. After the last round every block reachable from the entry, in the graph before or after copying, is in exactly one trace, once, and all heaps are empty; copies stand for what they were copied from; if the entry leads nowhere but to the block behind it, the first trace begins there |
| TraceConnection.BestEdge | GCC/gcc/bb-reorder.c:960-978 | the edge found is the most probable that can fall through to or from an unconnected trace in the current partition, of those one with the longest trace, and of those the first |
| TraceConnection.FindPredecessors | GCC/gcc/bb-reorder.c:956-993 | the traces put in front are exactly those that the best edges lead back to, one by one, up to trace 0 or to a trace without such an edge; each once, and with partitioning in one partition |
| TraceConnection.SoughtBest | GCC/gcc/bb-reorder.c:1038-1097 | the edge found for copying is the first of the most probable ones whose destination is a trace of one block or has a successor that goes on with an unconnected trace or the exit, and none is found if and only if there is none |
| TraceConnection.CopyCandidate | GCC/gcc/bb-reorder.c:1038-1097 | finds that edge, and what is to follow the copy: the exit, or the start of an unconnected trace, by probability and length; or what an earlier edge had found |
| TraceConnection.FindSuccessors | GCC/gcc/bb-reorder.c:999-1137 | each trace put behind is the one to which the best edge on from the last block of the trace before it leads, or, if there is none, the one behind the copy made; and nothing follows the last |
| TraceConnection.NothingFollows | GCC/gcc/bb-reorder.c:1006-1026 | where nothing follows, no edge on from the last block looked at leads to an unconnected trace of the partition that could be fallen through to |
| TraceConnection.StopsWith | GCC/gcc/bb-reorder.c:1122-1136 | when the search stops, such an edge leads on from the block that is last now if and only if that block is a copy just made and the block copied has one |
| TraceConnection.StopsEarly | GCC/gcc/bb-reorder.c:1122-1130 | a case in which it does: the search stops behind a copy that leads on to a trace not connected |
| TraceConnection.DuplicateToConnect | GCC/gcc/bb-reorder.c:1038-1136 | without partitioning the destination of that edge is copied behind the last block if it is small enough, larger where the edge is frequent enough; otherwise nothing changes; what is gone on with is exactly the trace behind the copy |
| TraceConnection.ConnectTraces | GCC/gcc/bb-reorder.c:894-1152 | the order is that of rounds, each begun with the first trace of the current partition that is not connected, with exactly the traces in front of it and behind it that FindPredecessors and FindSuccessors say; the partition changes, if traces are in two, when all of the first are connected. At the end one null-terminated chain from the first block of trace 0 holds every block of every trace, copies included, exactly once; with partitioning it switches between hot and cold at most once |
| TraceConnection.VerifyHotColdBlockGrouping | GCC/gcc/bb-reorder.c:1850-1885 | reports an error if and only if there is more than one switch |
| TraceConnection.ReorderBasicBlocks | GCC/gcc/bb-reorder.c:1887-1938 | all together, with the accounts of how traces were found and connected: every reachable block is placed, the order is one chain without repetition that begins with the block behind the entry if the entry leads nowhere else, with partitioning it switches at most once and the final check finds no error, and the new graph unfolds the old one |
| FlowGraphs.UnfoldsDuplicated | GCC/gcc/cfghooks.c:693-765 | a graph in which every copy stands for an original stays one when a block is duplicated for an edge |
| FlowGraphs.SameVisits | GCC/gcc/bb-reorder.c:752-804 | in such a graph the same choices of outgoing edges lead through blocks that stand for the same original blocks, one by one |
| EdgeFixup.SameRuns | GCC/gcc/bb-reorder.c:1268-1674 | code that preserves another passes through the same original blocks in the same order, for every sequence of condition values |
| EdgeFixup.Body.FindCrossingEdges | GCC/gcc/bb-reorder.c:1215-1266 | partitions follow the profile, and the list returned has exactly the edges between them that start in a block |
| EdgeFixup.Body.AddLabelsAndMissingJumps | GCC/gcc/bb-reorder.c:1268-1321 | afterwards the source of every crossing edge on the list jumps, unless the edge leads to the exit; only blocks that fell through have changed, they jump to where they fell through to, and control flow is the same |
| EdgeFixup.Body.FixUpFallThru | GCC/gcc/bb-reorder.c:1337-1460 | what becomes of one block: its branch is inverted exactly if it does not cross, its destination is the block behind, and the jump can be inverted; a crossing fall-through else gets a new block behind that jumps; a block that does not cross stays |
| EdgeFixup.Body.FixUpFallThruEdges | GCC/gcc/bb-reorder.c:1323-1466 | afterwards no block falls through into the other partition, by jump inversion or an inserted jump, with the same control flow; where a block falls through to has changed only to nothing or to the block behind it |
| EdgeFixup.Body.FixCrossingConditionalBranches | GCC/gcc/bb-reorder.c:1513-1674 | afterwards no conditional branch crosses either, by forwarders at the end of its own partition, with the same control flow |
| EdgeFixup.OrderKept | GCC/gcc/bb-reorder.c:1323-1674 | blocks that fell through to the block behind them, all of them, still do after the fix-ups, new blocks included |
| EdgeFixup.Body.PartitionHotColdBasicBlocks | GCC/gcc/bb-reorder.c:2164-2195 | all steps together, for every code whose blocks fall through, jump, or branch two ways: no edge crosses by falling through or by a conditional branch, control flow is the same, and what falls through falls to the block behind |
| EdgeFixup.LooksLikeJump | GCC/gcc/bb-reorder.c:1468-1511 | the loop of find_jump_block never finds a block |
| EdgeFixup.SomeBlockJumpsOnly | GCC/gcc/bb-reorder.c:1468-1511 | although there are blocks of the kind its comment says it looks for |
| Addresses.PlusConstantValue | GCC/gcc/explow.c:75-197 | adding a constant adds to the value, wherever it is folded in |
| Addresses.CanonValue | GCC/gcc/alias.c:1146-1186 | canonicalizing an address keeps its value under every valuation that fits the known values, and does not make it larger |
| Addresses.CanonTwice | GCC/gcc/alias.c:1146-1186 | canonicalizing once is enough |
| Addresses.EqualValue | GCC/gcc/alias.c:1188-1326 | addresses found equal have equal values |
| Addresses.EqualSelf | GCC/gcc/alias.c:1188-1326 | an address is found equal to itself |
| Addresses.EqualCommutes | GCC/gcc/alias.c:1243-1264 | addresses that differ in the order of operands, or in operands that canonicalize to the same, are found equal |
| Addresses.NextSmaller | GCC/gcc/alias.c:1631-1814 | every recursive question is about smaller addresses after substitution of known values, so the procedure ends |
| Addresses.ConflictSound | GCC/gcc/alias.c:1631-1814 | the answer no means that the two byte ranges are disjoint under every valuation that fits the known values, and that both sizes are positive, when each scale met is positive and divides both sizes and the offset |
| Addresses.ConflictMeaning | GCC/gcc/alias.c:1631-1814 | the answer is no if and only if a comparison of ranges is reached and the sizes, divided by the product of all scales met on the way, are positive and do not overlap at the last offset |
| Addresses.SameBaseDecided | GCC/gcc/alias.c:1686-1717 | for every base and all constants, sizes and offsets, two places of one object are answered no if and only if the sizes are positive and the places are apart |
| Addresses.OffsetDecided | GCC/gcc/alias.c:1686-1743 | the same for a base against the base plus a constant, whatever the base is a sum of |
| Addresses.OffsetBackDecided | GCC/gcc/alias.c:1686-1743 | and for the base plus a constant against the base |
| Addresses.ConstantsDecided | GCC/gcc/alias.c:1784-1791 | and for two constants |
| Addresses.SumsReduced | GCC/gcc/alias.c:1686-1704 | two sums with an equal operand at the same place get the answer of their other operands |
| Addresses.ElementsDecided | GCC/gcc/alias.c:1745-1760 | two elements at numbers n apart, scaled by s, are answered no if and only if the elements are apart with sizes and offset divided by s |
| Addresses.SizesDecide | GCC/gcc/alias.c:1631-1814 | for given sizes some offset is answered no if and only if both sizes have the sign of the product of the scales and are no smaller than it in magnitude |
| Addresses.UnknownSizeConflicts | GCC/gcc/alias.c:1631-1814 | for any two addresses the answer is never no with a size that is not positive, whatever sizes and offset, if and only if the product of the scales met is not negative |
| Addresses.PositiveScalesConflict | GCC/gcc/alias.c:1631-1814 | with positive scales only, the answer is never no when a size is not positive |
| Addresses.ScaledRegisters | GCC/gcc/alias.c:1745-1760 | for one register scaled by s against the same register plus n scaled by s, no answer is no with a size that is not positive if and only if s is not negative |
| Addresses.QuotPositive | GCC/gcc/alias.c:1753-1754 | a size divided by a scale is positive if and only if it has the sign of the scale and is no smaller |
| Addresses.ScalingExact | GCC/gcc/alias.c:1745-1760 | for any scale but zero, dividing sizes and offset by it is right for all distances if and only if it never yields the answer no or the scale is positive and divides all three |
| Addresses.SizesNotDivided | GCC/gcc/alias.c:1745-1760 | a concrete pair of overlapping ranges of 12 bytes that is answered no because 8 does not divide 12 |
| Addresses.NegativeScale | GCC/gcc/alias.c:1745-1760 | a concrete question with sizes of -1 that is answered no because the scale is negative |
| AliasSets.InsideIsContains | GCC/gcc/alias.c:642-705 | the flattened sets are plain reachability over components |
| AliasSets.DirectMeaning | GCC/gcc/alias.c:703-751 | what is directly in a type are exactly the owners of its parts as its own fields, bases or element type give them, each of them and no others |
| AliasSets.AliasTable.NewAliasSet | GCC/gcc/alias.c:626-640 | a number not used before, or zero without strict aliasing |
| AliasSets.AliasTable.RecordAliasSubset | GCC/gcc/alias.c:642-701 | the superset's entry gains the subset and all that the subset's entry has, zero child included; no other entry changes |
| AliasSets.AliasTable.RecordComponentAliases | GCC/gcc/alias.c:703-751 | the loops over bases and over addressable fields, and the element of an array that is not non-aliased, record the sets of the parts: the entry of a type's set lists exactly the sets of what is inside it at any depth |
| AliasSets.AliasTable.AliasSetOf | GCC/gcc/alias.c:588-624 | a type gets its set, all tables stay flattened, and no set assigned before changes |
| AliasSets.AliasTable.ConflictMeaning | GCC/gcc/alias.c:296-329 | one-level lookup answers yes if and only if a set is zero, the sets are equal, or one type contains, at any depth, the other or a type of set zero |
| AliasSets.AliasTable.PartConflicts | GCC/gcc/alias.c:703-751 | a type conflicts with each of its parts |
| AliasSets.AliasTable.SharedSets | GCC/gcc/alias.c:475-586 | vectors have the set of their element, types the language treats alike have one set, functions and what aliases everything have set zero, and all other types have a set of their own |
| PowerTable.GoodEntry | GCC/gcc/builtins.c:2340-2382 | every table entry lies between 0 and its index, and is half of an even index |
| Powers.PowiLookupCost | GCC/gcc/builtins.c:2385-2401 | the cost is the number of exponents that become cached, which are exactly those the evaluation needs |
| Powers.PowiCost | GCC/gcc/builtins.c:2403-2444 | the window loop computes Cost, the window products and the distinct exponents looked up |
| PowerExpansion.SameCount | GCC/gcc/builtins.c:2403-2486 | the recursion through the cache needs as many products as the window loop counts, for every exponent and every set of small exponents already there |
| PowerExpansion.Expander.ExpandPowi1 | GCC/gcc/builtins.c:2446-2486 | emits products in define-before-use order, never writes a register twice, the register returned holds the exponent asked for, and the number emitted is what is new in the cache plus the window products |
| PowerExpansion.Expander.ExpandPowi | GCC/gcc/builtins.c:2488-2515 | for every n the register returned, or its reciprocal, holds the power whose exponent is the absolute value of n, and exactly powi_cost(n) products are emitted |
| PowerExpansion.ValuesArePowers | GCC/gcc/builtins.c:2446-2486 | for any associative product, a register holds the base to its exponent after the emitted sequence |
| PowerBound.CostBound | GCC/gcc/builtins.c:2321-2329 | at most 2 * bits(n) - 2 products for every exponent n but 0 |
| BranchTargetLoads.ComputeKill | GCC/gcc/bt-load.c:615-634 | a block kills exactly the definitions of the branch target registers it writes |
| BranchTargetLoads.UnionOfPreds | GCC/gcc/sbitmap.c:648-685 | the union over the predecessors but the entry, empty if there is none |
| BranchTargetLoads.ComputeOut | GCC/gcc/bt-load.c:636-664 | ends with a solution of the equations in which a definition is out of a block if and only if a path reaches the block from one that generates it with no later block killing it |
| BranchTargetLoads.LeastSolution | GCC/gcc/bt-load.c:636-664 | the sets so characterized are the least solution |
| BranchTargetLoads.LiveRange.AugmentLiveRange | GCC/gcc/bt-load.c:886-983 | the blocks added are exactly those from which the new block, or a predecessor of head, is reached outside the range; the range stays closed but at the dominating one of the two, which dominates all that is added; the registers added are exactly those live there |
| BranchTargetLoads.GrownCloses | GCC/gcc/bt-load.c:948-979 | a range grown this way is closed under predecessors but at its top |
| BranchTargetLoads.GrownUnder | GCC/gcc/bt-load.c:948-979 | and its top dominates what was added |
| Declarators.DeclarationBack | GCC/gcc/c-aux-info.c:260-299 | the parser for the declarator grammar of sections 6.7.5 and 6.7.6 of ISO/IEC 9899:1999 undoes the writing of a declaration, parenthesised declarators and nested parameter lists included |
| TypePrinting.GenMeaning | GCC/gcc/c-aux-info.c:260-460 | what gen_type wraps around a seed declares, from the data type, the type it was given, as far as Seen keeps it |
| TypePrinting.SeenIffPrintable | GCC/gcc/c-aux-info.c:301-320 | the printed text gives the type back exactly when no pointer is restrict-qualified and no array or function type carries qualifiers of its own |
| TypePrinting.RestrictLost | GCC/gcc/c-aux-info.c:306-320 | a restrict-qualified pointer is printed like a plain one |
| DeclarationText.LexDeclaration | GCC/gcc/c-aux-info.c:104-185 | the characters printed for a declaration are read as its tokens |
| DeclarationText.CountFits | GCC/gcc/c-aux-info.c:338-339 | an array count with its brackets and the NUL fits char buff[10] if and only if it is below 10000000 |
| DeclarationText.CountOverrun | GCC/gcc/c-aux-info.c:338-339 | a count of 10000000 takes one character too many |
| AuxInfo.Printer.AffixDataType | GCC/gcc/c-aux-info.c:51-102 | the data type goes behind all leading const and volatile, and is followed by a blank |
| AuxInfo.Printer.GenFormalListForType | GCC/gcc/c-aux-info.c:104-185 | the parameter list with void, an ellipsis, or the comment for unknown parameters; whether a count overran its buffer |
| AuxInfo.Printer.GenType | GCC/gcc/c-aux-info.c:260-460 | the text around the seed, and the data type left in data_type; the buffer of ten characters is overrun if and only if an array count that is printed is 10000000 or more |
| AuxInfo.Printer.GenDecl | GCC/gcc/c-aux-info.c:463-542 | a declaration that is not a function definition, with the entity's own qualifiers and storage class |
| AuxInfo.GenTextIs | GCC/gcc/c-aux-info.c:260-460 | the strings gen_type builds are the text of the declarators that Gen builds |
| AuxInfo.PrintedBack | GCC/gcc/c-aux-info.c:51-460 | as long as no count overruns its buffer (CountFits), reading what is printed for a type, with a name or without, gives back that name and the type; for a printable type exactly that type |
| AuxInfo.DeclaredBack | GCC/gcc/c-aux-info.c:463-542 | what gen_decl prints is read as the storage class words of the entity and a declaration of its name with its type, the entity's qualifiers on it |
| AllocPools.AllocPool.constructor | GCC/gcc/alloc-pool.c:116-181 | slots have room for what is asked for and for a link, rounded up to a multiple of eight, and the block header is rounded up too |
| AllocPools.SlotsApart | GCC/gcc/alloc-pool.c:239-272 | no two slots of a pool overlap, in one block or in different ones |
| AllocPools.SlotsAligned | GCC/gcc/alloc-pool.c:150-163 | in a block at a multiple of eight all slots lie at multiples of eight if and only if the offset of the identifier is one |
| AllocPools.AllocPool.PoolAlloc | GCC/gcc/alloc-pool.c:221-284 | hands out the head of the free list, making and threading a block when it is empty, the last slot first; never a slot that is outstanding |
| AllocPools.AllocPool.PoolFree | GCC/gcc/alloc-pool.c:286-311 | the assertion holds, with checking, exactly for outstanding slots, and without it exactly while anything is outstanding; an outstanding slot goes to the head of the free list, and one that is free already makes the list a ring; nothing in memory changes but the link in the slot |
| AllocPools.AllocPool.Write | GCC/gcc/alloc-pool.c:221-311 | whatever a caller writes into a slot it holds, the lists stay intact |
| AllocPools.AllocPool.FreeAllocPool | GCC/gcc/alloc-pool.c:183-207 | every block is given back exactly once |
| AllocPools.AllocPool.FreeIfEmpty | GCC/gcc/alloc-pool.c:209-219 | the pool is freed if and only if nothing is outstanding |
| AllocPools.Conservation | GCC/gcc/alloc-pool.c:267-277 | free and outstanding slots together are all slots of all blocks |
| AllocPools.DoubleFreeRing | GCC/gcc/alloc-pool.c:302-310 | putting a slot of the free list on it again leaves a list without end |
| AllocPools.Run | GCC/gcc/alloc-pool.c:221-311 | after any requests to a new pool the slots held are distinct, do not overlap, and are as many as the counters say; and every word the caller has written into a slot since it was taken, and not over, is still there, whatever was allocated and freed in between |

## Left out

- BitmapRange.ClearRange: numbers are unbounded, so `start + count - 1` does not wrap; `start` and `count` are not both zero, where the source wraps around.
- BitmapQueries.FirstSetBit: a bitmap that is not empty, as the assertion at GCC/gcc/bitmap.c:593 demands.
- BitmapSets.BitmapAnd: `dst` differs from the sources, as the assertions of all three-operand operations demand.
- BitmapRuns.Run: ends behind the first operation that leaves a `current` on a freed element, which it finds out by walking the list; the shared obstack is also the default one.
- Negative bit numbers, the 32-bit range of element indices, `bitmap_count_bits`, hashing, printing and the garbage-collected free list, which is one more `Obstack`.
- The allocation of bitmap heads and the release of a whole obstack (GCC/gcc/bitmap.c:196-275).
- Fibonacci heaps are maps from blocks to keys; which of several blocks with the least key comes out first is left open.
- Insns, notes, labels and dump files in `bb-reorder.c`; the probabilities and counts enter only through the comparisons and the scaling in `duplicate_block`.
- TraceFormation.FindTraces: the entry does not lead to the exit directly; `reorder_basic_blocks` returns early for functions without any block.
- EdgeFixup.Body.PartitionHotColdBasicBlocks: blocks end by falling through, an unconditional jump or a two-way branch; the conversion of crossing jumps to indirect ones (GCC/gcc/bb-reorder.c:1676-1761) and the marking of insns are not modelled. Whether `invert_jump` succeeds is a parameter.
- Which forwarder the search in `find_jump_block` would share if it found one.
- Addresses: symbols, `AND`, `HIGH`, `LO_SUM`, values of cselib, auto-increment, base values and the callers of `memrefs_conflict_p`; one mode and unbounded integers. Known values of registers are not circular.
- AliasSets.AliasTable.AliasSetOf: types are numbered after what they are made of, so recursion through pointers is cut as the source cuts it; restrict-qualified pointers, which add to a set already flattened, and the language hook's other answers are not modelled.
- PowerExpansion.Expander.ExpandPowi: unbounded exponents; `expand_mult` always delivers its result in the target it is given.
- BranchTargetLoads.ComputeOut: the sets that `compute_defs_uses_and_gen` collects are inputs.
- BranchTargetLoads.LiveRange.AugmentLiveRange: the worklist is an unbounded sequence, and `dominated_by_p` an input that agrees with domination in the graph.
- AuxInfo.Printer.GenType: anonymous struct, union and enum bodies, `ERROR_MARK` and the `unsigned` prefix of unnamed integer types; a type printed by name is given by its words. The K&R styles print `()`.
- AuxInfo.Printer.GenDecl: function definitions with their parameter names.
- Arrays are given by the count that is printed, after its conversion to `int`; an array of elements of size zero, which the source prints as `[0]`, is one with count 0 here.
- AllocPools.AllocPool.PoolAlloc: the addresses `malloc` gives are inputs, not null and apart from earlier blocks; statistics are not modelled.
- AllocPools.AllocPool.PoolFree: the pointer is one of the pool's slots, and overwriting its contents with 0xaf is not modelled.
- The rest of `builtins.c` and the other passes in the directory.
