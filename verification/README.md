# RDM product queue: a verified model

RDM keeps weather products in a memory-mapped *product queue*: a best-fit allocator of the data section, a time queue,
a signature index, and an arena of skip-list pointer blocks that three skip lists share. Around it are entries that are
reserved, committed or rolled back, cursors that read, a version counter that wakes readers, a receiver of products in
packets, an XDR codec for product headers, the feed-type parser and the buffer in front of a decoder's pipe. This
project models all of these in Dafny 4.11, in the form in which the C++ code has them: arrays, chains and counters that
are changed in place, each method proved against a specification, and the specification's laws proved as lemmas.

The core goes bottom up. Each layer speaks of the one below only through its contract:

| file | what it holds |
|---|---|
| `SkipTheory.dfy`, `SkipLinks.dfy` | skip lists as positions, heights and arena words; what inserting and deleting a node writes |
| `FreeBlock.dfy` | the arena of pointer blocks |
| `Timestamp.dfy`, `TimeQueue.dfy` | times and the time queue |
| `SignatureIndex.dfy` | the chained hash of signatures |
| `Layout.dfy`, `RegionTable.dfy`, `RegionList.dfy` | how the data section is divided, the record table with its hash chains, and the allocator |
| `IndexState.dfy`, `QueueIndexManager.dfy` | what the indexes say together, and the manager that keeps them so |
| `ProductQueue.dfy`, `QueueEntry.dfy`, `QueueCursor.dfy` | reserving, committing and deleting; leases; readers |
| `QueueRun.dfy`, `QueueTrace.dfy` | whole runs, what each operation of one does, and what follows for the products |
| `Notifier.dfy` | the wake-up protocol as a state machine |
| `Downstream.dfy` | receiving products |
| `Xdr.dfy` | the header codec (sections 4.1, 4.2, 4.9 and 4.11 of RFC 4506) |
| `FeedNames.dfy`, `FeedType.dfy` | the feed names, the parser and the printer |
| `PipeBuffer.dfy` | the pipe buffer |

Conventions. `busy` is the set of regions that some other process may hold locked at any moment during the call: a
decode of such a region may be refused. Each operation under the control lock is one step. `ok == false` means that the
node arena had no block for a new skip-list node (or, for a request of 0 bytes, that the structure was torn), and then
the method promises nothing: the C++ code ignores such failures and goes on. `Room()` counts the blocks that can serve
any request; every method says how many it may use up and how many make it succeed. `Slack()` is what is left of them
when four are set aside for each product, and falls by at most six with each operation of a run. An arena may instead be
given a limit on the blocks handed out at a time; then `Room()` is how far off that limit is, which a run of any length
does not use up. The limit is only in the proof: the arena is the same.

`dafny verify dfyconfig.toml` checks the whole project.

## Findings

Where the code does not meet the property that it seems meant to have, the failing family is given exactly.

- `ParseTerm` (core/FeedType.cpp:191-202) does not look at errors in its `-` loop, and does not return on texts such as
  `ANY-FOO-EXP` or `ANY--EXP`. `DivergesExactly` gives the texts.
- `FindTimeEntryBySignature` (storage/pq/QueueIndexManager.cpp:298-319) never reaches its wrap-around, because the scan
  before it returns at the sentinel. A product that was inserted long before its own creation time, and before another
  product, is in the queue and not found. `LookUp` gives the condition, `LookUpMisses` a queue.
- `newElementDirect` (storage/pq/ProductQueue.cpp:532-560) accepts size 0. If the smallest free region is larger than 64
  bytes, it is then cut at 0, and the offset handed out is that of a free region too (`CutExactly`, `CutBegins`); the
  next reservation of that region breaks the one-to-one correspondence (`ReservedExactly`). No other request does. It
  happens to every new queue of more than 64 bytes (`TornByNothing`).
- `commitEntry` (storage/pq/ProductQueue.cpp:487-500) does not compare the signature in the header with the reserved
  one. With another one the indexes disagree from then on (`CommittedExactly`, `MismatchedCommit`), and the product can
  never be deleted cleanly (`NeverDeleted`).
- Insertion times follow the clock (storage/pq/TimeQueue.cpp:112). If it is set back, a product can be inserted at or
  below a reader's cursor; it is announced, and that reader is never offered it (`PassedIsNotOffered`, `ClockSetBack`).
- `Flush` (apps/pqact/PipeBuffer.cpp:46-62, 76-77) keeps everything in the buffer when it fails, so bytes sent before a
  failure are sent again by the next flush (`StreamKept` gives the events, `SentTwice` a run).
- A request larger than the data section evicts every unlocked product before it fails
  (storage/pq/QueueIndexManager.cpp:179-192): the `NoMemory` case of `AllocateProductSpace`. `newElement` compares the
  size without the header with that of the section (storage/pq/ProductQueue.cpp:421-447), so a product that fits only
  without its header empties the queue (`EmptiedForNothing`).
- `FreeByOffset` (storage/pq/QueueIndexManager.cpp:203-223) does not compare the offset with the signature. Called with
  a pair that does not belong together, or for a committed product, it takes the indexes out of agreement
  (`FreedExactly`). Its caller passes the pair of a lease.
- `TimeQueue::Find` for exactly the end of time gives the tail sentinel in a non-empty queue
  (storage/pq/TimeQueue.cpp:169-219).

## Model

| member | source | states |
|---|---|---|
| `QueueRuns.Session.Consistent` | storage/pq/QueueIndexManager.cpp:140-266 | in every state a run can reach: signatures and regions in use correspond one to one; committed products are in strictly increasing order of time, each with a region of its own; the other regions in use are exactly those of the live entries; the regions tile the data section, no two free ones adjacent; slots and bytes add up |
| `QueueRuns.Session.Step` | storage/pq/ProductQueue.cpp:421-593 | what one operation does to everything stored, the entries, the leases, the counters and the cursor, as a relation between the state before and after: a reservation evicts oldest unlocked products while space is missing, takes the best fit, cuts it exactly, and gives a new entry a new lease, with the header written by `newElement`; a commit of a live entry whose header can be read and fits enters it at the least unused time from now on, and any other rolls it back; a roll-back, a move, a write, a deletion by signature and one by cursor change exactly what they name. It keeps agreement if and only if it is not the commit of an entry whose region holds a readable header with another signature; the slack of the arena, its spare blocks less four for each product, falls by at most 6, and with a slack of 4 every operation goes through that does not ask for 0 bytes; over an arena that cannot run out it always does, and the arena stays so |
| `QueueRuns.Session.Run` | storage/pq/ProductQueue.cpp:363-593 | a run of any sequence of reservations, writes, commits, roll-backs, entry moves, deletions by signature and by cursor is a trace, one such step for each operation, from the state before to the state after; everything stays in agreement, up to the first commit with a foreign header; without a 0-byte request every run goes through if the slack is at least six for each operation and four, and a run of any length does over an arena that cannot run out |
| `QueueRuns.Session.RunToEnd` | storage/pq/QueueEntry.cpp:16-78 | the same, with one roll-back for each entry at the end: once every entry has come to its end nothing is reserved, and every lease ever given out had its commit or roll-back effect exactly once; goes through under the same condition |
| `QueueRuns.NewQueueRun` | storage/pq/QueueIndexManager.cpp:105-126 | the same for a newly formatted queue, whose trace starts with nothing stored, nothing asked for and the cursor not set: six overflow blocks for each operation and ten are enough for a run, and `(5 * n + 12) * 2^(levels - 1)` are enough for every run |
| `QueueRuns.Session.Endures` | storage/pq/FreeBlock.cpp:143-173 | an arena that can hand out five blocks for each region record and twelve more has a slack of at least 6 in every state of the queue |
| `QueueRuns.TornByNothing` | storage/pq/ProductQueue.cpp:532-560 | a new queue asked for 0 bytes is torn if and only if its data section is above 64 bytes |
| `QueueRuns.EmptiedForNothing` | storage/pq/ProductQueue.cpp:421-447 | a new queue with a committed product, asked by `newElement` for a product as large as the data section: the request is refused for lack of memory and the queue is empty afterwards |
| `QueueRuns.Session.WrittenMatches` | storage/pq/ProductQueue.cpp:455-463 | an entry made by `newElement`, or whose header was written with its own signature, is never such a foreign commit |
| `QueueRuns.Session.DoCommit` | storage/pq/QueueEntry.cpp:56-66 | committing any entry, with no header, a stale header or the right one: a live entry with a readable header that fits joins the time queue, at the least unused time, and its lease is settled; any other live one is rolled back; one that is not live does nothing; agreement holds afterwards if and only if the header fits |
| `QueueTraces.InOrOut` | storage/pq/ProductQueue.cpp:421-593 | a product is new in the queue after an operation if and only if the operation committed it, from a live entry with a readable header that fits; it is gone only if the operation evicted it or deleted it |
| `QueueTraces.NothingFromNowhere` | storage/pq/ProductQueue.cpp:480-504 | every product in a queue that was new at the start of a run was entered by some commit of the run |
| `QueueTraces.NothingLost` | storage/pq/QueueIndexManager.cpp:140-201 | a product that is not in the queue any more was evicted by some reservation, or deleted, by some operation of the run |
| `QueueTraces.FirstProduct` | storage/pq/ProductQueue.cpp:421-516 | a new queue, one product reserved and committed: the queue holds exactly this product, at the time of the commit, with its signature and header, and its lease is settled |
| `IndexStates.CommittedExactly` | storage/pq/ProductQueue.cpp:487-500 | a commit keeps the indexes in agreement if and only if the header in the region has the signature that the region was reserved for |
| `IndexStates.MismatchedCommit` | storage/pq/ProductQueue.cpp:487-500 | a concrete state in agreement that one commit takes out of it |
| `IndexStates.NeverDeleted` | storage/pq/QueueIndexManager.cpp:140-153 | a product committed with a foreign header is never deleted cleanly: trying to does nothing, if and only if the signature in the header is not in the index, or leaves its own signature behind |
| `IndexStates.TriedEvicts` | storage/pq/QueueIndexManager.cpp:140-153 | in agreement, deleting a product removes its own signature, time and region, and nothing else |
| `IndexStates.ReservedExactly` | storage/pq/QueueIndexManager.cpp:252-265 | reserving a region for a new product keeps agreement if and only if the region was not in use |
| `IndexStates.EvictedAgrees` | storage/pq/QueueIndexManager.cpp:140-153 | deleting a product keeps agreement and all open entries |
| `IndexStates.ForgottenAgrees` | storage/pq/QueueIndexManager.cpp:203-223 | rolling an entry back keeps agreement and closes just that entry |
| `IndexStates.FreedExactly` | storage/pq/QueueIndexManager.cpp:203-223 | taking an offset out of the region list and a signature out of the index keeps agreement if and only if the region is reserved for that product and not committed |
| `IndexStates.WrittenAgrees` | storage/pq/ProductQueue.cpp:562-593 | writing a header, or anything else, into a reserved region keeps agreement and all leases |
| `IndexStates.OpenRoom` | storage/pq/QueueIndexManager.cpp:252-261 | while an entry is open there are fewer products than regions in use, so the time queue has an element for its commit |
| `QueueIndexManagers.QueueIndexManager.AllocateProductSpace` | storage/pq/QueueIndexManager.cpp:225-266 | a known signature is refused; otherwise the oldest unlocked products are deleted one by one, for exactly as long as a slot or the space is missing; then the product gets the smallest free region that holds the rounded request, leftmost on ties, cut to the request if and only if more would be left over than the smallest rounded request so far, this one included, plus 64, and whole otherwise; that smallest request is remembered, and whether anything was evicted; or everything left is locked, or the section is too small and empty; with nothing locked or open it succeeds if and only if the rounded request is no larger than the section, and otherwise has emptied the queue; it tears the structure if and only if 0 bytes are asked for and the smallest free region found is above 64; it uses at most four arena blocks for each eviction and two more |
| `QueueIndexManagers.QueueIndexManager.MakeSpace` | storage/pq/QueueIndexManager.cpp:179-192 | ends, and deletes oldest products only while no free region fits; it fails only if all products left are locked, or for requests larger than the section, with the queue empty; with nothing locked or open only the latter |
| `QueueIndexManagers.QueueIndexManager.MakeSlot` | storage/pq/QueueIndexManager.cpp:194-201 | ends, and deletes oldest products only while no region record is unused; with nothing locked or open it succeeds |
| `QueueIndexManagers.QueueIndexManager.DeleteOldest` | storage/pq/QueueIndexManager.cpp:155-177 | deletes exactly the first product in insertion order that was not found locked, and changes nothing if all are locked |
| `QueueIndexManagers.EvictedPrefix` | storage/pq/QueueIndexManager.cpp:155-201 | with nothing locked, what an allocation evicts is a prefix of the insertion order |
| `QueueIndexManagers.EvictionsShrink` | storage/pq/QueueIndexManager.cpp:155-201 | evictions free the evicted regions and leave every other region as it was |
| `QueueIndexManagers.QueueIndexManager.FreeByOffset` | storage/pq/QueueIndexManager.cpp:203-223 | an unknown offset or signature is refused without effect; otherwise the region and the signature are both taken out, and everything agrees afterwards if and only if the region was reserved for that product |
| `QueueIndexManagers.QueueIndexManager.EmptyTears` | storage/pq/QueueIndexManager.cpp:234-250 | in an empty queue a request for 0 bytes finds the one free region, and tears the structure if and only if that is above 64 bytes |
| `QueueIndexManagers.QueueIndexManager.BlockCount` | storage/pq/FreeBlock.cpp:143-173 | the arena blocks handed out are one for each committed product, two for each free region and six for the sentinels |
| `QueueIndexManagers.AllocationCount` | storage/pq/QueueIndexManager.cpp:225-266 | each eviction takes one product out and a success puts one in; no other signature appears |
| `QueueIndexManagers.QueueIndexManager.CommitTime` | storage/pq/ProductQueue.cpp:497-504 | the region joins the time queue at the least unused time from now on; valid again if and only if the header fits |
| `QueueIndexManagers.QueueIndexManager.FindTimeEntryBySignature` | storage/pq/QueueIndexManager.cpp:268-319 | an unknown signature is not found; a committed, unlocked product is found, as its own time entry, if and only if no product inserted after it has an insertion time before its creation time less the interval, in seconds and microseconds |
| `QueueIndexManagers.FoundExactly` | storage/pq/QueueIndexManager.cpp:268-319 | the same in microseconds: found if and only if no later entry has a time below the creation time less a million for each second of the interval |
| `QueueIndexManagers.LookUpRecent` | storage/pq/QueueIndexManager.cpp:289-306 | so every product inserted no earlier, in microseconds, than its creation time less the interval is found |
| `QueueIndexManagers.LookUpMisses` | storage/pq/QueueIndexManager.cpp:298-306 | a concrete queue that holds a product and answers NotFound for it |
| `QueueIndexManagers.IntervalMatters` | storage/pq/QueueIndexManager.cpp:280-306 | a concrete queue with a product that is found with an interval of 60 seconds and missed with 0 |
| `QueueIndexManagers.QueueIndexManager.FormatNew` | storage/pq/QueueIndexManager.cpp:105-126 | formatting gives an empty queue in agreement, with at least the overflow blocks less 6 to spare; formatted for a limit on the blocks handed out at a time, with the limit less 8 |
| `QueueIndexManagers.RoundUp` | storage/pq/QueueIndexManager.cpp:234 | the rounded request is the least multiple of the unit that is not below the request, and is even |
| `ProductQueues.ProductQueue.constructor` | storage/pq/ProductQueue.cpp:202-225 | a new queue holds nothing and its books are right |
| `ProductQueues.ProductQueue.Reserve` | storage/pq/ProductQueue.cpp:434-454 | an allocation as above, with the byte, high-water and product counts kept right; the exact conditions for success with nothing locked or open, and for tearing the structure |
| `ProductQueues.ProductQueue.TrackAllocation` | storage/pq/QueueMetrics.h:19-41 | all bytes in use are counted, the high-water mark is above every region in use, and the largest numbers of products and of bytes are not exceeded and move only to what was reached |
| `ProductQueues.ProductQueue.CommitEntry` | storage/pq/ProductQueue.cpp:480-516 | the status of each case; success enters the product at the least unused time, the others give the region back; other entries keep their leases; agreement if and only if not a foreign header |
| `ProductQueues.ProductQueue.RollbackEntry` | storage/pq/ProductQueue.cpp:518-530 | gives back exactly this region and signature; other entries keep their leases |
| `ProductQueues.ProductQueue.DeleteBySignature` | storage/pq/ProductQueue.cpp:363-397 | deletes exactly the product with that signature, or leaves everything as it is |
| `ProductQueues.Gap` | storage/pq/TimeQueue.cpp:112-146 | among more consecutive microseconds than there are products one is unused, so the collision search ends |
| `QueueEntries.NewElement` | storage/pq/ProductQueue.cpp:421-478 | refuses size 0, sizes above the section and known signatures, without effect; otherwise the indexes are those of the allocation, with exactly this header, creation time included, in the region given out, and the entry holds a new lease on it; with nothing locked or open it succeeds if and only if header and data fit the section together, and if not the queue is empty afterwards |
| `QueueEntries.NewElementDirect` | storage/pq/ProductQueue.cpp:532-593 | the same without the header; tears the structure if and only if 0 bytes are asked for and the smallest free region found is above 64 bytes |
| `QueueEntries.QueueEntry.Commit` | storage/pq/QueueEntry.cpp:56-66 | the first call passes the region on and settles the lease: a readable header that fits enters the product at the least unused time from now on, and else the region is given back; later calls do nothing |
| `QueueEntries.QueueEntry.Rollback` | storage/pq/QueueEntry.cpp:68-78 | gives the region back if the entry still has it, and settles the lease once |
| `QueueEntries.QueueEntry.Destroy` | storage/pq/QueueEntry.cpp:16-21 | an entry that was not committed or rolled back is rolled back |
| `QueueEntries.QueueEntry.MoveFrom` | storage/pq/QueueEntry.cpp:37-54 | the lease moves, the own one is rolled back first, and the other entry is left without one |
| `QueueEntries.RosterOver` | storage/pq/QueueEntry.cpp:16-78 | when no entry is live, nothing is reserved and every lease was settled exactly once |
| `QueueCursors.QueueCursor.Sequence` | storage/pq/QueueCursor.cpp:182-250 | the next product in the given direction, whether it is given to the caller, and where that leaves the cursor; a cursor that was never set finds, forwards, the oldest product after time zero, and none if and only if there is none; backwards the newest, and none if and only if the queue is empty |
| `QueueCursors.UnsetFound` | storage/pq/QueueCursor.cpp:191-200 | that is where a search from time zero, or from the end of time, leads in a queue of normalised times below the end of time |
| `QueueCursors.QueueCursor.SequenceDelete` | storage/pq/QueueCursor.cpp:334-377 | deletes exactly the next product if it is wanted; a locked one leaves queue and cursor alone; from a cursor that was never set, found as above |
| `QueueCursors.SequencedForward` | storage/pq/QueueCursor.cpp:182-250 | each forward call is a step of the reading runs below |
| `QueueCursors.QueueReadable` | storage/pq/TimeQueue.cpp:112-146 | what a queue holds can be read in such runs: its times rise and are normalised |
| `QueueCursors.ForwardOrder` | storage/pq/QueueCursor.cpp:182-324 | over any run of forward calls interleaved with any insertions and deletions, products come in strictly increasing insertion order and none is passed twice |
| `QueueCursors.Redelivery` | storage/pq/QueueCursor.cpp:229-239 | a product whose callback failed is the next one visited, if it is still there |
| `QueueCursors.NothingMissed` | storage/pq/QueueCursor.cpp:182-324 | a product above the cursor that stays in the queue has been passed by the time the end is reported |
| `RegionLists.RegionList.Get` | storage/pq/RegionList.cpp:293-311 | exact best fit: the smallest free extent not below the request, leftmost on ties; none if and only if no free region fits; both free lists, the counters and `maxfextent` stay right, and no arena word of another list changes |
| `RegionLists.RegionList.FindExtent` | storage/pq/RegionList.cpp:286-291 | finds that region, or the tail sentinel if none fits |
| `RegionLists.RegionList.RecalculateMaxFreeExtent` | storage/pq/RegionList.cpp:221-230 | the largest free extent, 0 if nothing is free |
| `RegionLists.RegionList.Put` | storage/pq/RegionList.cpp:551-558 | a held region is free again, merged with free neighbours; every other taken region is untouched |
| `RegionLists.RegionList.Free` | storage/pq/RegionList.cpp:560-570 | a region in use leaves the hash, its bytes the count, and it is free, merged with free neighbours |
| `RegionLists.RegionList.Consolidate` | storage/pq/RegionList.cpp:421-459 | afterwards no two free regions are adjacent, and the section is tiled as before |
| `RegionLists.RegionList.Split` | storage/pq/RegionList.cpp:530-549 | a held region keeps its first bytes and the rest is a free region of its own, beginning where no other does; without an unused record nothing changes |
| `RegionLists.RegionList.Add` | storage/pq/RegionList.cpp:506-528 | a new free region takes an unused record and is on both lists |
| `RegionLists.RegionList.AddToHash` | storage/pq/RegionList.cpp:488-504 | the region is in use and found by its offset |
| `RegionLists.RegionList.RemoveFromHash` | storage/pq/RegionList.cpp:313-330 | it is not found any more; every other one still is |
| `RegionLists.RegionList.Find` | storage/pq/RegionList.cpp:461-476 | finds a region by offset if and only if it is in use, in its own record |
| `RegionLists.RegionList.ReleaseRegion` | storage/pq/RegionList.cpp:392-406 | a held region goes on both free lists, which then hold the same regions |
| `RegionLists.RegionList.Search` | storage/pq/RegionList.cpp:170-219 | the search of either list stops before the first node not below the key, and records the last node before it on every level |
| `RegionLists.RegionList.Insert` | storage/pq/RegionList.cpp:332-390 | the node is in that list, in order on every level; the other list is untouched, and so is every arena block of others |
| `RegionLists.RegionList.Delete` | storage/pq/RegionList.cpp:232-284 | the node is out of that list and its block is released with the size it was requested with; the other list is untouched |
| `RegionLists.RegionList.GetNextOffset` | storage/pq/RegionList.cpp:408-413 | the free region to the right, if the neighbour is free |
| `RegionLists.RegionList.GetPrevOffset` | storage/pq/RegionList.cpp:415-419 | the free region to the left, if the neighbour is free |
| `RegionLists.RegionList.GetEmptyRegion` | storage/pq/RegionList.cpp:60-71 | the first unused record, none if and only if there is none |
| `RegionLists.RegionList.ReleaseEmptyRegion` | storage/pq/RegionList.cpp:73-81 | a record is unused again |
| `RegionLists.RegionList.constructor` | storage/pq/RegionList.cpp:143-164 | two empty free lists, an empty hash, and every record unused |
| `RegionLists.RegionList.Format` | storage/pq/QueueIndexManager.cpp:118-124 | the whole section is one free region |
| `RegionLists.RegionList.Counters` | storage/pq/RegionList.cpp:524 | used, free and unused records are all records |
| `RegionLists.RegionList.NothingUsed` | storage/pq/QueueIndexManager.cpp:182-189 | with nothing in use the whole section is one free region |
| `Layouts.AllFreeIsOne` | storage/pq/RegionList.cpp:421-459 | a tiled section of non-adjacent free regions is one region |
| `Layouts.Covers` | storage/pq/RegionList.cpp:421-459 | every byte of the section belongs to exactly one region |
| `Layouts.MergeKeepsTiles` | storage/pq/RegionList.cpp:428-451 | merging two neighbours keeps the section tiled |
| `Layouts.CutExactly` | storage/pq/RegionList.cpp:530-544 | cutting a taken region in two leaves it taken and the section tiled if and only if both parts are non-empty |
| `Layouts.CutBegins` | storage/pq/RegionList.cpp:530-544 | of the records after a cut no two begin at the same offset if and only if both parts are non-empty, or nothing was cut off the last region; cut at 0, two begin where the region does |
| `TimeQueues.TimeQueue.Add` | storage/pq/TimeQueue.cpp:102-167 | ends; the product gets the least unused time at or after now, in its place in the order; the other elements and all arena blocks of others are untouched |
| `TimeQueues.TimeQueue.FindGap` | storage/pq/TimeQueue.cpp:112-146 | the search, restarted from the top level after each collision, ends at the least unused time with the right predecessors on every level |
| `TimeQueues.TimeQueue.Find` | storage/pq/TimeQueue.cpp:169-219 | the last element below the key, the one at it, or the first above it; none if and only if there is no such element; asking for exactly the end of time in a non-empty queue gives the tail sentinel |
| `TimeQueues.TimeQueue.Delete` | storage/pq/TimeQueue.cpp:233-281 | exactly this element is gone, its block is released with its own size, levels that no node reaches any more are dropped, and all arena blocks of others are untouched |
| `TimeQueues.TimeQueue.First` | storage/pq/TimeQueue.cpp:221-231 | the oldest element, none if the queue is empty |
| `TimeQueues.TimeQueue.Next` | storage/pq/TimeQueue.cpp:283-287 | the next element in order |
| `TimeQueues.TimeQueue.constructor` | storage/pq/TimeQueue.cpp:26-67 | an empty queue with every element unused |
| `SignatureIndexes.SignatureIndex.Find` | storage/pq/SignatureIndex.cpp:99-116 | finds a signature if and only if it is in the map, with its offset |
| `SignatureIndexes.SignatureIndex.Add` | storage/pq/SignatureIndex.cpp:118-142 | the map has the new pair, unless all elements are in use |
| `SignatureIndexes.SignatureIndex.Remove` | storage/pq/SignatureIndex.cpp:144-176 | the map is without the signature; true if and only if it was there |
| `SignatureIndexes.SignatureIndex.constructor` | storage/pq/SignatureIndex.cpp:55-80 | an empty map over a full free list |
| `FreeBlocks.FreeBlock.Get` | storage/pq/FreeBlock.cpp:143-173 | none if and only if no list from that level up has a block; otherwise a new block of exactly the size asked for, disjoint from every other, with no word of another block changed; costs at most one of the blocks that serve any request |
| `FreeBlocks.NeverEmpty` | storage/pq/FreeBlock.cpp:143-173 | if never more than `cap` blocks are handed out at a time, `cap * 2^(levels - 1)` overflow blocks never run out, however many requests there are |
| `FreeBlocks.CutsBounded` | storage/pq/FreeBlock.cpp:156-168 | because a block is cut down to a size only when all of that size are handed out, no more than `peak * (2^(n - 1) - 1)` blocks are ever cut down to less than `n` words |
| `FreeBlocks.FreeBlock.Release` | storage/pq/FreeBlock.cpp:131-141 | the block is free again; it must come back with the size it was handed out with |
| `FreeBlocks.FreeBlock.InitLevel` | storage/pq/FreeBlock.cpp:77-95 | a level gets its row of blocks, threaded in order |
| `FreeBlocks.FreeBlock.constructor` | storage/pq/FreeBlock.cpp:97-129 | three quarters of the number given are blocks of the first size, and each further size has a quarter of the one before, at least one, and the overflow blocks besides, in an arena of exactly as many words; all blocks are disjoint, in bounds and free, and the counters count them; the number of blocks that can serve any request, without and with a limit on those handed out at a time |
| `SkipTheory.InsertOk` | storage/pq/TimeQueue.cpp:156-165 | the pointer writes of an insertion give the list with the node in it, sorted on every level |
| `SkipTheory.RemoveOk` | storage/pq/TimeQueue.cpp:250-272 | the pointer writes of a deletion give the list without the node, sorted on every level |
| `SkipTheory.SkipSurvives` | storage/pq/RegionList.cpp:332-406 | a skip list survives whatever happens to arena blocks that are not its own |
| `SkipLinks.LinkNode` | storage/pq/RegionList.cpp:346-357 | the loop that links a node in does those writes |
| `SkipLinks.UnlinkNode` | storage/pq/RegionList.cpp:240-256 | the loop that unlinks a node does those writes |
| `Timestamps.LessIsMicros` | core/Timestamp.cpp:71-82 | on normalised times the comparison is that of the microsecond counts |
| `Timestamps.StepIsOne` | core/Timestamp.cpp:102-120 | stepping moves by exactly one microsecond, and back |
| `Notifiers.NoLostWakeup` | core/ProcessNotifier.cpp:44-146 | in every interleaving of writers and readers, an idle reader has been offered, of the announced products still in the queue, exactly those that were above its cursor when they were committed |
| `Notifiers.CheckSeesNews` | core/QueueApp.h:67-73 | a reader with an announced product still to come never goes to sleep |
| `Notifiers.SleepsWithoutNews` | core/ProcessNotifier.cpp:82-146 | a reader that noted the version and compares it before any writer notifies goes to sleep: there is no busy waiting |
| `Notifiers.Announced` | core/ProcessNotifier.cpp:44-81 | once its writer has notified, a committed product is announced for good |
| `Notifiers.PassedIsNotOffered` | core/UpstreamClientHandler.h:194-242 | a product committed at or below a cursor is never offered to that reader |
| `Notifiers.ClockSetBack` | apps/pqcat.cpp:173-198 | a run with the clock set back that ends with an announced product in the queue and the reader asleep without it |
| `Notifiers.RunInv` | core/ProcessNotifier.cpp:82-146 | the invariant of all reachable states |
| `Downstreams.CommittedIsConcat` | core/DownstreamClientHandler.h:108-184 | over every message sequence, what is committed came whole in one message, or is exactly the data, in order, of the packets since the announcement, all with its signature, and as long as announced |
| `Downstreams.CompleteTransfer` | core/DownstreamClientHandler.h:145-184 | and a transfer whose packets add up to what was announced is committed |
| `Downstreams.HereIsEnters` | core/DownstreamClientHandler.h:106-122 | a whole product that the queue reserves and commits is in the queue after every message sequence that holds it, with its own signature, size and bytes |
| `Downstreams.HereIsRefused` | core/DownstreamClientHandler.h:106-122 | one that is empty, or that the queue refuses, leaves everything as it was |
| `Downstreams.OneEffectEach` | core/DownstreamClientHandler.h:124-184 | at most one transfer is open, and every other reserved entry was committed or rolled back exactly once |
| `Downstreams.AllOverAtClose` | storage/pq/QueueEntry.cpp:16-21 | once the handler has ended, all of them were |
| `Downstreams.EffectAfterReservation` | core/DownstreamClientHandler.h:124-184 | each as the product that it was reserved for, after it was |
| `Downstreams.DownstreamClientHandler.OnHereIs` | core/DownstreamClientHandler.h:106-122 | does what the message does in those sequences |
| `Downstreams.DownstreamClientHandler.OnComingSoon` | core/DownstreamClientHandler.h:124-143 | does what the message does in those sequences, region and counters included |
| `Downstreams.DownstreamClientHandler.OnBlkData` | core/DownstreamClientHandler.h:145-184 | the packet is copied behind the ones before, or ends the transfer |
| `Downstreams.DownstreamClientHandler.End` | storage/pq/QueueEntry.cpp:16-21 | an open entry is rolled back |
| `Xdr.RoundTrip` | network/sunrpc/SunRpcXdr.cpp:54-103 | decoding an encoded header, whatever follows it, gives what the wire carries and the position right behind it |
| `Xdr.RoundTripExact` | network/sunrpc/SunRpcXdr.cpp:54-103 | that is the header itself if and only if its strings fit, hold no NUL, and its times fit 32 bits |
| `Xdr.EncodedBytes` | network/sunrpc/SunRpcXdr.cpp:54-103 | what stands at each position of an encoded header: seconds and microseconds in two's complement, most significant byte first, signature, length and bytes of the origin, zero padding to four bytes, feed type, sequence number, identifier and size |
| `Xdr.DecodedBytes` | network/sunrpc/SunRpcXdr.cpp:54-103 | decoding gives a header, and the position behind it, if and only if its fields stand in their places byte by byte |
| `Xdr.HeaderExample` | network/sunrpc/SunRpcXdr.cpp:54-103 | a whole header in its literal bytes |
| `Xdr.SizeRight` | network/sunrpc/SunRpcSerializer.cpp:13-32 | the computed size is never too small; it is too large by exactly the four-byte units that clipping the strings saves |
| `Xdr.SignatureInPlace` | network/sunrpc/SunRpcSerializer.cpp:90-103 | replacing bytes 8 to 23 is encoding with the new signature |
| `Xdr.EncodeProdInfo` | network/sunrpc/SunRpcSerializer.cpp:59-72 | succeeds if and only if the encoding fits; writes it and nothing else, so that every field stands, byte by byte, in its place |
| `Xdr.EncodeProduct` | network/sunrpc/SunRpcSerializer.cpp:43-57 | the payload follows the header, whose fields stand, byte by byte, in their places |
| `Xdr.DecodeProdInfo` | network/sunrpc/SunRpcSerializer.cpp:74-88 | gives a header if and only if one stands, byte by byte, in the buffer, and then that one |
| `Xdr.UpdateSignature` | network/sunrpc/SunRpcSerializer.cpp:90-103 | turns the encoding of a header into that of the header with the new signature |
| `FeedTypes.ParsesPrinted` | core/FeedType.cpp:143-272 | for every expression over known names the parser gives the bitwise value of its printed form: complement binds tightest, then left-associative difference, then union |
| `FeedTypes.ParsedExactly` | core/FeedType.cpp:143-272 | the parser accepts a text, with this value, if and only if its tokens are those of an expression of the grammar that means this value: complement binds tightest, then left-associative difference, then left-associative union |
| `FeedTypes.PrintThenParse` | core/FeedType.cpp:219-272 | parsing the printed form of any 32-bit feed type gives it back |
| `FeedTypes.ToString` | core/FeedType.cpp:219-252 | going back through the table from `any`, it names exactly those feeds whose bits are all in the mask and not in a feed named before, in upper case and joined by `|`, and gives what is left as a hexadecimal word; the text is an expression over known words with exactly that value, and parses to it |
| `FeedTypes.NamedIfPossible` | core/FeedType.cpp:231-249 | no feed with a name fits in what is left for the hexadecimal word |
| `FeedTypes.DivergesExactly` | core/FeedType.cpp:191-202 | the parser fails to return if and only if one scan of the tokens finds an operand of `-` that fails with `-` ahead |
| `FeedTypes.LoopExample` | core/FeedType.cpp:191-202 | it does not return on `ANY-FOO-EXP` |
| `FeedTypes.Parse` | core/FeedType.cpp:254-272 | the parser as written, token by token, computes that function |
| `FeedTypes.NameRead` | core/FeedType.cpp:25-60 | each of the first 39 names, in upper case, is read as its own value |
| `FeedTypes.HexWordRead` | core/FeedType.cpp:159-170 | a printed hexadecimal word is read as its value |
| `FeedTypes.NumbersRead` | core/FeedType.cpp:157-171 | decimal, octal and hexadecimal numbers are read as such, and words that are none of them are not |
| `FeedTypes.NumberBits` | core/FeedType.cpp:157-164 | a number is taken modulo 2^32 |
| `FeedNames.Composites` | core/FeedType.h:81-180 | the feeds that stand for several others are those others together |
| `FeedTypes.LexText` | core/FeedType.cpp:83-103 | the tokens of a text spelled out from tokens are those tokens |
| `FeedTypes.LexSpace` | core/FeedType.cpp:83-103 | white space between tokens does not matter |
| `FeedTypes.LexPlus` | core/FeedType.cpp:83-103 | `+` and `|` are the same token |
| `PipeBuffers.PipeBuffer.Write` | apps/pqact/PipeBuffer.cpp:88-109 | when it returns 0, pipe and buffer together have grown by the data, in order and once each; it fails only at an error, and what was sent is then a prefix of that stream and what is held the stretch of it from where the failed flush began; it succeeds if there is no error and the pipe takes something often enough |
| `PipeBuffers.PipeBuffer.Flush` | apps/pqact/PipeBuffer.cpp:31-86 | status and bytes sent are those of the events up to the first that stops it; sends a prefix of what is held, holds the rest after success or when it would block, and all of it after a failure |
| `PipeBuffers.EventCases` | apps/pqact/PipeBuffer.cpp:40-78 | what each answer of `poll` and `write` comes to, for a flush that blocks or not, with a time-out or without |
| `PipeBuffers.Retried` | apps/pqact/PipeBuffer.cpp:65-75 | however often a write is interrupted, or waits in a flush that may block, the flush ends the same way and sends the same bytes |
| `PipeBuffers.StreamKept` | apps/pqact/PipeBuffer.cpp:31-86 | no byte is lost, repeated or out of order if and only if no error comes when some of the bytes held, and not all, are sent |
| `PipeBuffers.PipeBuffer.WriteAll` | apps/pqact/PipeBuffer.cpp:88-109 | over any sequence of successful writes the stream is their concatenation; without errors, and with a pipe that takes something often enough, all succeed |
| `PipeBuffers.ProgressCounts` | apps/pqact/PipeBuffer.cpp:65-84 | how often the pipe takes something, on which the success of writes depends, is the number of writes that sent at least one byte |
| `PipeBuffers.SentTwice` | apps/pqact/PipeBuffer.cpp:46-77 | a failed flush after which the decoder reads a byte twice |

## Left out

- QueueRuns.Session.Run: says nothing once the node arena has run out of blocks, because the C++ code then uses block numbers that do not exist; how many spare blocks are enough for a run, and for every run, is stated. The number that the code formats with, about `3 * sqrt(n) * log4(n)`, is above the first bound for runs of up to a sixth of it, and below the second for all but small queues.
- QueueIndexManagers.QueueIndexManager.AllocateProductSpace: after a torn 0-byte request nothing is promised about the structure, because two regions then share one offset.
- FreeBlocks.FreeBlock.constructor: the number of levels, of overflow blocks and of words lost to rounding are parameters, because the code computes them in floating point.
- RegionLists.RegionList.Split: is specified for a cut that leaves two non-empty parts; what other cuts do is in `CutExactly` and `CutBegins`.
- RegionLists.RegionList.ReleaseRegion: does not model that the first list is put back as it was when the second has no block, because the callers go on with a region that is then on no list.
- QueueEntries.NewElement: two error returns that leave the space allocated (storage/pq/ProductQueue.cpp:451, 454) are not modelled: mapping a region and encoding a header into it always succeed.
- SignatureIndexes.SignatureIndex.Add: is specified for a signature that is not in the index, as its only caller sees to.
- ProductQueues.ProductQueue.CommitEntry: insertion times stay below the end-of-time sentinel by assumption, because the code has no answer for a clock at the end of time.
- Kernel byte-range locks, mapping and file growth: the control lock makes operations atomic, and region locks are the `busy` sets.
- QueueRuns.Session.Step: the free regions that a deletion, a roll-back or a failed commit leaves are in `Consistent` (tiled, no two adjacent) and not in the transition itself; `RegionList.Free` says which they are.
- Which error code a text gets that is not an expression: only that it gets no value, and when the parser does not return.
- Random node heights: any height that the code can draw. Hash chain counts: any positive number.
- Minimum residence time metrics, write counts, and the control header's other fields.
- `setCursorToLast`, `setCursorClass`, `setCursorFromSignature`, and redelivery in the reverse direction.
- `next` of the cursor beyond what it shares with `sequenceHelper`: keeping a region locked after the call.
- `OnHiyaRequest` of the upstream handler, which drops an open transfer without rolling it back.
- The reply unions, product classes and specifications of the XDR codec.
- RPC plumbing, sockets, processes, signals, configuration, access control, regular expressions, MD5 and the command-line programs.
- Exhaustion of the 64-bit version counter of the notifier.
