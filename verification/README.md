# Dots, verified

A Dafny model of the archetype-based entity store and pass scheduler Dots, with proofs of the properties
its parts rely on.  `dafny verify dfyconfig.toml` checks everything.

| file | what it models |
|---|---|
| Handles.dfy | the versioned handle table with its intrusive free chain |
| Chunks.dfy | chunks and each archetype's linked chunk list, full chunks first |
| Placement.dfy, World.dfy | records and rows in agreement: allocating, casting and freeing slices |
| Columns.dfy | the merge of two archetypes' columns when rows are cast |
| Sets.dfy, Casting.dfy | sorted type sets, and the type a cast or an instantiation leads to |
| Duplicates.dfy | copying a row to the rows of a slice, byte by byte, with each bin's offsets |
| Groups.dfy | cloning a group with its internal references |
| Queries.dfy | filters and incrementally maintained query caches |
| Pipeline.dfy | the reader/writer dependency tracker of the pass scheduler |
| Tasks.dfy | cutting chunks into tasks and batches |
| FreeList.dfy, Counters.dfy | the lock-free queue's free list and dequeue counters |
| BlockIndex.dfy, IndexRuns.dfy | its block index: as one thread uses it, and shared by a producer and its consumers |
| RingBuffer.dfy | the single-producer single-consumer ring buffer |
| Tickets.dfy | the records of marl's ticket queue |
| TicketRuns.dfy, TicketCalls.dfy, TicketFailures.dfy | every interleaving of take and done: when tickets are called right, what each call achieves, and what goes wrong otherwise |
| Dag.dfy | marl's DAG runner |
| KdTree.dfy | the k-d tree and its pruned searches |
| Modulo.dfy, Basics.dfy, Runs.dfy | remainders; an option type, a repeated element, row numbers in 16 bits; sequences of steps |

Objects that the program updates in place are classes whose methods are proved against functions of the
old state; concurrent protocols are state machines over single atomic operations, and their theorems hold
for every schedule of every number of threads: what never goes wrong, and what each call achieves.

What the model takes for granted, as the program does:

- Atomic operations are sequentially consistent.  Queue and ring counters are unbounded, except where
  wrap-around is the point (BlockIndex, versions, the reference word).
- A handle record's memory holds a version in 0..254 before its first use.  Record 0 is the end marker of
  the free chain: freeing it cuts the chain, and the model says exactly what is lost then.
- Chunk capacities are at least 1.  The handle table holds at most 2^24 records, as many as an id can tell apart.
- The cleanup tag is neither copied nor cleaned by hand.
- Type arrays are strictly sorted, and no archetype holds a type together with its own pending copy.
- A pass lists each entry once.
- A consumer looks up a block only while it has an element of it, and a block is emptied only after its elements were
  looked up.  An index has at most 2^59 slots.

Where the program does not do what it seems meant to do, the model follows the program:

- Re-linking a full chunk (`Dots/Database.cpp:1226-1229`) keeps the list in order exactly if some chunk is
  full already and there are at least two; `Chunks.Archetype.LinkSecond` says so in both directions, and
  `Chunks.Archetype.RelinkBreaks` is a list where it does not.
- Instantiation (`Dots/Database.cpp:293-354`) writes the copies' columns at the offsets of the original's chunk, not
  of their own, and is handed the original's row in 16 bits (`Dots/Database.h:436`, `DotsRuntime/Set.h:8`).  They are
  copies, for all contents, exactly if the two chunks have the same offsets and the row is below 65536
  (`Duplicates.CopiesIff`); the offsets are the same exactly in chunks of the same bin (`Duplicates.OffsetsTellBins`).
  `Duplicates.CopiesAmongHandles` is a thousand copies of which most are none, `Duplicates.HighRowCopied` one of
  row 70000 that is one of row 4464.
- Resolving numbers (`Dots/Database.cpp:1435-1441` and `1509-1515`) replaces a foreign transient reference whose number
  is that of a member, and looks one that equals the group's size up one place too far, in the last copy and in the
  originals behind the table.  `Groups.KeptIff`, `Groups.RestoredIff` and `Groups.ReadsBeyondIff` give the exact
  conditions, `Groups.StrayReference` an example.
- A ticket for which done is called before take has linked it (`DotsTest/include/marl/ticket.h:180-203`) keeps calls
  right exactly if done gets the lock while the ticket has neighbours on both sides in its batch
  (`TicketFailures.RightIff`).  Otherwise, depending on its place, it blocks all tickets behind it
  (`NoneBehindIsCalled`), calls one that is not linked (`NextIsCalledUnlinked`), makes the tail forget the queue
  (`TailIsLost`, `FirstStaysUncalled`, `DoneLetsOvertake`), or, between the two unlocked writes behind it, lets a later
  ticket wait behind one that has left (`WindowFails`).  `TakeTwoSticks` and `TakeThreeLosesOne` are examples.
  Callers that call done only after take has returned are safe (`TicketRuns.DoneAfterTakeIsRight`).
- The size of a request is a 32-bit product (`Dots/Database.cpp:1195`): a huge one may open a small chunk
  (`Chunks.HugeRequestIsSmall`).
- An id has 24 bits: with 2^24 records in use the next handle repeats record 0's (`Handles.IdsFitIff`,
  `Handles.FullTableRepeats`).
- A chunk's tail is moved from a row number in 16 bits (`Dots/Database.cpp:195`, `1739-1744`), right exactly if nothing
  moves or that row is below 65536 (`Placement.TailMoveIff`); chunks of the large bin hold more rows of small entities
  (`Placement.HighTailMoved`).  Casting reads its rows in the same way (`Dots/Database.cpp:517`, `1759`), right exactly
  if the first of them is below 65536 (`Placement.CastReadIff`).
- The scan for query flags (`Dots/Database.cpp:749-765`) stops at the first pending copy, so a cleanup tag
  behind it goes unseen; `Queries.FlagsMeaning` says exactly when.
- A block lookup is right for capacities up to 2^59 and wrong beyond, for every block but the newest.
- Casting (`Dots/Database.cpp:611-643`) disposes of unmatched managed columns whether or not disposal is asked for.

## Model

| member | source | states |
|---|---|---|
| FreeList.TickStep | DotsRuntime/concurrentqueue.h:1438-1517 | one atomic operation of add, try_get or the re-insertion, chosen by the thread's program counter |
| FreeList.StepKeepsInv | DotsRuntime/concurrentqueue.h:1438-1517 | every atomic operation of every thread keeps the invariant that ties each node's role, holders and reference word to the list and to all program counters |
| FreeList.ListIsAcyclic | DotsRuntime/concurrentqueue.h:1452-1490 | after every interleaving the list reached from the head is finite and visits no node twice |
| FreeList.NextIsStable | DotsRuntime/concurrentqueue.h:1464-1470 | while a thread holds a reference to a node, no step of any thread changes that node's next field |
| FreeList.ReturnedToOneOwner | DotsRuntime/concurrentqueue.h:1469-1477 | try_get returns a node only when it is off the list and no other thread has it, adds it or inserts it |
| FreeList.OwnedUntilAdded | DotsRuntime/concurrentqueue.h:1438-1450 | a returned node keeps its one owner through every step until that owner hands it over or adds it |
| FreeList.QuietMeansListedOrOwned | DotsRuntime/concurrentqueue.h:1438-1517 | nothing is lost: with no call in progress each node is listed with one reference or owned with none |
| FreeList.TryGetTakesFirst | DotsRuntime/concurrentqueue.h:1458-1477 | in every run, wherever the other threads have stopped, a try_get that then runs alone takes the first node of the list in five steps, and ends at once on an empty list |
| FreeList.AddPutsFirst | DotsRuntime/concurrentqueue.h:1438-1448 | in every run an add that then runs alone puts the node in front of the list, unless another thread still refers to it; then it is left to the last of those |
| FreeList.LeftToLastHolder | DotsRuntime/concurrentqueue.h:1480-1488 | a node left to others is held by one of them, and whoever drops the last reference begins to insert it |
| FreeList.GivesUpOnlyOnEmpty | DotsRuntime/concurrentqueue.h:1456-1492 | in every run a try_get ends with a node for its caller, or after a step of its own that found the list empty |
| FreeList.EveryCallEnds | DotsRuntime/concurrentqueue.h:1438-1515 | in every run a call under way, wherever it is, ends in at most 21 steps if no other thread gets in between |
| FreeList.WordOperations | DotsRuntime/concurrentqueue.h:1515-1519 | the 32-bit word operations act on count and list bit independently while the count is below 2^31 |
| FreeList.CountsFit | DotsRuntime/concurrentqueue.h:1461-1484 | with a bounded number of threads a count never reaches the list bit, in every run |
| Counters.TickStep | DotsRuntime/concurrentqueue.h:1940-2037 | one atomic operation of dequeue: load, optimistic add, recheck of the tail, head advance or overcommit |
| Counters.RecheckKeepsInv | DotsRuntime/concurrentqueue.h:2242-2250 | what the recheck decides keeps every unit that won below the tail by the failures before it, and the counters equal to what became of the units |
| Counters.RecheckDecides | DotsRuntime/concurrentqueue.h:2245-2250 | in every run the recheck lets exactly those units win that are below the tail it has loaded |
| Counters.ShortOnlyIfClaimed | DotsRuntime/concurrentqueue.h:2233-2323 | in every run, whatever the others do, a dequeue that gets fewer elements than it asked for has seen, since its call, a queue of which others had claimed all but those |
| Counters.EveryCallEnds | DotsRuntime/concurrentqueue.h:1940-2037 | a call ends after at most six steps of its own, whatever the others do |
| Counters.EnqueueAdds | DotsRuntime/concurrentqueue.h:2757-2757 | what is enqueued is there for everybody at once, and changes nothing else |
| Counters.ThreadStep | DotsRuntime/concurrentqueue.h:1940-2037 | a step of one thread that changes only its own units keeps the whole invariant of all threads |
| Counters.HeadNeverPassesTail | DotsRuntime/concurrentqueue.h:1976-1984 | in every interleaving the head, plus every element won and not yet taken, stays at or below the tail |
| Counters.HandedOnce | DotsRuntime/concurrentqueue.h:1984-1984 | no index is handed out by two actions, and none before it was enqueued |
| Counters.HandedToCaller | DotsRuntime/concurrentqueue.h:1984-1984 | each index handed out goes to the thread that advanced the head |
| Counters.EveryIndexHanded | DotsRuntime/concurrentqueue.h:1984-1984 | every index below the head was handed out by some action: none is skipped |
| Counters.QuietHead | DotsRuntime/concurrentqueue.h:2030-2033 | with no dequeue in flight the head equals the optimistic count minus the overcommit |
| Counters.AloneGetsAll | DotsRuntime/concurrentqueue.h:2233-2323 | a bulk dequeue that then runs alone gets all there is, up to the number asked for, and leaves the same equation |
| BlockIndex.MaskIsMod | DotsRuntime/concurrentqueue.h:2944-2944 | bitwise masking with a power of two minus one is the remainder |
| BlockIndex.BlockBase | DotsRuntime/concurrentqueue.h:2936-2936 | clearing the low bits of a 64-bit index gives the base of its block |
| BlockIndex.Offset | DotsRuntime/concurrentqueue.h:2941-2943 | the negative distance, divided as an unsigned number, is 2^59 minus the number of blocks |
| BlockIndex.LookupLands | DotsRuntime/concurrentqueue.h:2931-2947 | a lookup lands on the entry k places behind the tail if and only if k is 0 or the power-of-two capacity is at most 2^59 |
| BlockIndex.Producer.Lookup | DotsRuntime/concurrentqueue.h:2931-2947 | a lookup of any element of a block in the window returns the entry that carries the block's base |
| BlockIndex.Producer.NewBlockIndex | DotsRuntime/concurrentqueue.h:2949-2991 | doubling keeps every entry at its distance from the tail and adds unused ones behind |
| BlockIndex.Producer.CopyEntries | DotsRuntime/concurrentqueue.h:2966-2975 | the copying loop puts the old entries, oldest first, at the front of the new index |
| BlockIndex.Producer.Insert | DotsRuntime/concurrentqueue.h:2886-2916 | a new base goes in front, unless the slot is taken and there can be no larger index; the only entry that can leave the window is one whose block was emptied |
| BlockIndex.Producer.TryInsert | DotsRuntime/concurrentqueue.h:2892-2899 | the position behind the tail is taken if and only if it was never used or its block is gone |
| BlockIndex.Producer.Rewind | DotsRuntime/concurrentqueue.h:2918-2922 | rewinding takes back exactly the newest entry |
| BlockIndex.DoubledRing | DotsRuntime/concurrentqueue.h:2966-2986 | the copied entries followed by the new ones form a circular index again |
| IndexRuns.Step | DotsRuntime/concurrentqueue.h:2886-2991 | one load or store of the producer (insert, fill, take back, rewind, double, publish) or of a consumer's lookup |
| IndexRuns.StepKeepsInv | DotsRuntime/concurrentqueue.h:2886-2991 | every step keeps each entry, in every index there ever was, in the slot of the block it was last given to, and every lookup under way on the track of its block |
| IndexRuns.LookupFindsItsBlock | DotsRuntime/concurrentqueue.h:2931-2947 | in every run a lookup, whatever happened between its loads, ends at the live entry of its block, with the element's base as key; so do the next slots of a bulk dequeue |
| IndexRuns.LookupGoesOn | DotsRuntime/concurrentqueue.h:2938-2940 | in every run no load of a lookup fails, so the fourth ends it: the tail's entry has a base |
| IndexRuns.UndoFindsItsBlock | DotsRuntime/concurrentqueue.h:2655-2659 | in every run a failed bulk enqueue finds the entries of the blocks it takes back |
| IndexRuns.RoomAfterDoubling | DotsRuntime/concurrentqueue.h:2903-2911 | in every run the slot behind the tail of a doubled index was never used |
| IndexRuns.LocateIsSlot | DotsRuntime/concurrentqueue.h:2941-2944 | the base of any block that has the tail's slot, older or newer, leads to the slot of the block looked up |
| IndexRuns.OldestLeft | DotsRuntime/concurrentqueue.h:2892-2906 | when the slot behind the tail has a live block, the index holds exactly the last blocks, as many as it has slots |
| IndexRuns.DoubledView | DotsRuntime/concurrentqueue.h:2966-2990 | the doubled index has every block of the old one in the slot of its number, and no other |
| IndexRuns.PublishedStays | DotsRuntime/concurrentqueue.h:2886-2991 | in every run a published block stays in the index, through insertions, undoing and doubling, until its own entry is emptied |
| IndexRuns.InsertSucceeds | DotsRuntime/concurrentqueue.h:2886-2916 | in every run the producer gets its next block in and published, at once or after doubling the index |
| IndexRuns.InsertFailsIff | DotsRuntime/concurrentqueue.h:2892-2907 | in every run an insertion fails, and changes nothing, if and only if the slot has a live block and there can be no larger index |
| IndexRuns.UndoSucceeds | DotsRuntime/concurrentqueue.h:2654-2659 | in every run taking back ends with exactly the published blocks in the index |
| IndexRuns.FailSucceeds | DotsRuntime/concurrentqueue.h:2646-2659 | in every run a failed insertion is taken back, with all since the last publication |
| IndexRuns.ProceedsToNext | DotsRuntime/concurrentqueue.h:2853-2853 | from a block that was found, a bulk dequeue goes on to the next one of its blocks |
| Pipeline.Touch | Dots/Codebase.cpp:192-214 | what registering a read, a write or a presence leaves in a dependency entry |
| Pipeline.Awaited | Dots/Codebase.cpp:248-279 | which passes one access makes a new pass wait for; columns skip expired readers, shared resources do not |
| Pipeline.Apply | Dots/Codebase.cpp:123-133 | the protocol: create, start when the dependencies are done, finish, expire, sync and return |
| Pipeline.ConflictsFirst | Dots/Codebase.cpp:192-214 | a new pass waits, directly or through others, for every unfinished earlier pass it conflicts with on an entry |
| Pipeline.CreateKeepsInv | Dots/Codebase.cpp:227-371 | creating a pass keeps every entry's record of its last writer and of the readers since |
| Pipeline.SyncKeepsInv | Dots/Codebase.cpp:61-83 | forgetting an archetype's entries while waiting for the collected passes keeps the invariant |
| Pipeline.MutualExclusion | Dots/Codebase.cpp:192-214 | in every run a pass that has started finds every earlier conflicting pass done, so the two never run together |
| Pipeline.WaitsForEarlier | Dots/Codebase.cpp:216-225 | dependencies always point to earlier passes |
| Pipeline.WaitsOnlyForConflicts | Dots/Codebase.cpp:192-214 | a pass is made to wait only for passes it conflicts with |
| Pipeline.SomePassCanGoOn | Dots/Codebase.cpp:192-214 | while a pass is unfinished, one that is no later is running or can start |
| Pipeline.StartsIff | Dots/Codebase.cpp:216-225 | in every run a created pass can be started if and only if the passes recorded for it are done |
| Pipeline.StartsWithoutConflict | Dots/Codebase.cpp:192-214 | in every run a created pass can be started if the earlier passes it conflicts with are done, whatever others are doing |
| Pipeline.RunTogether | Dots/Codebase.cpp:192-214 | two created passes whose earlier conflicts are done run at the same time |
| Pipeline.DependsOnConflicts | Dots/Codebase.cpp:192-214 | in every run what is recorded for a pass are earlier passes that it conflicts with |
| Pipeline.Creates | Dots/Codebase.cpp:216-225 | a pass can be created whenever the main thread is not blocked |
| Pipeline.SyncsWithUsers | Dots/Codebase.cpp:61-83 | a sync waits for users of the entries it is about, and for no other pass |
| Pipeline.ReturnsIff | Dots/Codebase.cpp:61-83 | it returns if and only if these are done |
| Pipeline.SyncReturnsAfterAll | Dots/Codebase.cpp:61-83 | when a sync of an archetype returns, every pass that uses its entity list or a column of it is done |
| Pipeline.Tracker.SetupDependency | Dots/Codebase.cpp:216-225 | the loop over accesses leaves the entries and collects the dependencies that the specification says |
| Pipeline.Tracker.SyncEntry | Dots/Codebase.cpp:248-279 | one access: the new entry and the passes awaited |
| Pipeline.Tracker.SyncArchetype | Dots/Codebase.cpp:61-83 | the loop collects the readers, or else the writer, of every entry of the archetype and resets exactly those |
| Tasks.CreateTasks | Dots/Codebase.cpp:136-176 | tasks cover every row once and in order, none is empty or leaves its chunk or is shorter than its chunk and its group allow, indices are prefix sums, groups partition the tasks and all but the last hold exactly a batch |
| Tasks.CutChunk | Dots/Codebase.cpp:146-169 | one chunk is cut into slices that fill the open group, and the loop ends |
| Tasks.CloseGroup | Dots/Codebase.cpp:162-168 | a group without room left is closed behind the groups before it |
| Tasks.IndexIsPosition | Dots/Codebase.cpp:154-157 | row r of a task is row indexInKernel + r of all rows to process |
| Tasks.NoGroupTooMany | Dots/Codebase.cpp:162-174 | there are exactly as many groups as the rows need, rounded up |
| Chunks.BinFor | Dots/Database.cpp:1192-1204 | which bin a new chunk comes from, with the 32-bit product |
| Chunks.BinBySize | Dots/Database.cpp:1192-1204 | below 2^32 bytes, a small chunk for requests below a kilobyte while there are fewer than eight chunks, a large one above half a megabyte |
| Chunks.HugeRequestIsSmall | Dots/Database.cpp:1195-1195 | a request for 357913942 entities of 12 bytes opens a small chunk |
| Chunks.Chunk.Link | Dots/Database.cpp:140-150 | links a chunk behind another and fixes the neighbours |
| Chunks.Chunk.Unlink | Dots/Database.cpp:152-159 | takes a chunk out and joins its neighbours |
| Chunks.Archetype.Remove | Dots/Database.cpp:852-859 | removes exactly one chunk from the list, keeping it well linked at both ends |
| Chunks.Archetype.MarkFree | Dots/Database.cpp:1251-1261 | moves the chunk to the back and keeps or sets firstFree |
| Chunks.Archetype.UnmarkFree | Dots/Database.cpp:1263-1279 | advances firstFree past the chunk, or moves it to the front |
| Chunks.Archetype.RemoveChunk | Dots/Database.cpp:1232-1249 | removes a chunk and keeps full chunks first and firstFree at the first one with room |
| Chunks.Archetype.ResizeChunk | Dots/Database.cpp:1626-1639 | after any resize the list holds exactly the right chunks in order, full ones first, firstFree right |
| Chunks.Archetype.AddChunk | Dots/Database.cpp:1207-1225 | appends a chunk with room, or the first chunk, and keeps the order |
| Chunks.Archetype.LinkSecond | Dots/Database.cpp:1226-1229 | linking a full chunk second keeps the list in order if and only if a chunk is full already and there are at least two |
| Chunks.Archetype.NoSuchList | Dots/Database.cpp:1226-1229 | no order of the chunks fits the pointers that are left otherwise |
| Chunks.Archetype.RelinkBreaks | Dots/Database.cpp:1226-1229 | a list of one chunk with room, behind which a full one is linked: no order fits any more |
| Chunks.Archetype.NewChunk | Dots/Database.cpp:1192-1205 | a new chunk comes from the right bin and ends up last, as firstFree if there was none |
| Chunks.Archetype.AllocateSlice | Dots/Database.cpp:1721-1732 | always obtains at least one row, from the first chunk with room, and as many as it can give |
| Handles.Recycle | DotsRuntime/DotsRuntime.h:83-86 | the version arithmetic, skipping the transient mark and wrapping at 8 bits |
| Handles.VersionCycles | DotsRuntime/DotsRuntime.h:83-86 | n frees move a version n places on, modulo 255 |
| Handles.FreeKeepsChain | Dots/Database.cpp:2875-2891 | freeing a slice puts its records in front of the chain in order; freeing record 0 cuts the chain there |
| Handles.NewAllocates | Dots/Database.cpp:2799-2830 | an allocation that leaves no more than 2^24 records gives distinct handles of dead records with ids that fit, none transient, all accepted |
| Handles.BareAllocates | Dots/Database.cpp:2832-2853 | the same for handles without a slice |
| Handles.ChainHoldsFreedRecords | Dots/Database.cpp:2799-2891 | after every sequence of operations within 2^24 records the chain is acyclic and holds only freed, dead records |
| Handles.GivenHandlesAreFresh | Dots/Database.cpp:2799-2861 | after any such sequence, an allocation within 2^24 records hands out no live id, no id twice, none that does not fit, and no transient handle |
| Handles.AcceptedAgainAfter255 | Dots/Database.cpp:2788-2791 | a handle is accepted again if and only if its record has meanwhile been freed a multiple of 255 times |
| Handles.NewAllTakes | Dots/Database.cpp:2799-2830 | an allocation takes the chain in order, then new records, places each at its row and changes no other record; within 2^24 records the ids fit |
| Handles.IdsFitIff | Dots/Database.cpp:2799-2830 | the ids given out fit 24 bits if and only if no more than 2^24 records are left |
| Handles.FullTableRepeats | Dots/Database.cpp:2815-2829 | with all 2^24 records in use, the next handle carries the id of record 0 |
| Handles.GrowIsNewAll | Dots/Database.cpp:2815-2829 | the fast path, one resize for all, does what taking records one by one does |
| Handles.Entities.NewEntities | Dots/Database.cpp:2799-2830 | the two loops compute the specified table, handles and chain |
| Handles.Entities.Reuse | Dots/Database.cpp:2803-2812 | the first loop takes freed records until they or the rows run out |
| Handles.Entities.Grow | Dots/Database.cpp:2815-2829 | the second loop appends and places the rest |
| Handles.Entities.FreeEntities | Dots/Database.cpp:2875-2891 | the loop chains the records in slice order in front of the old chain and recycles their versions |
| Handles.Entities.Relocate | Dots/Database.cpp:2893-2911 | exactly the given records change, to the given rows |
| Placement.SurvivorsMatch | Dots/Database.cpp:1739-1745 | the rows that survive a free and the rows of the shrunk chunk match one to one |
| Placement.CopiedIsSwept | Dots/Database.cpp:195-206 | copying the tail over the hole and shrinking leaves every surviving row exactly once |
| Placement.RefillRelocates | Dots/Database.cpp:2905-2911 | the records of the moved tail, and no others, follow their rows |
| Placement.HoleClosed | Dots/Database.cpp:1734-1747 | moving the tail into the hole loses, duplicates and changes no surviving entity, and records and rows agree again |
| Placement.RowsFilled | Dots/Database.cpp:2893-2903 | writing handles into rows and redirecting their records keeps records and rows in agreement |
| Placement.NewPlaced | Dots/Database.cpp:2799-2830 | new handles in fresh rows agree with their records and touch no live entity |
| Placement.MovedPlaced | Dots/Database.cpp:2893-2903 | moving handles to another chunk keeps agreement outside the rows they left |
| Placement.FreedPlaced | Dots/Database.cpp:2875-2891 | freeing a slice's handles leaves exactly its rows without an entity |
| Placement.HandleIsWhereItSays | Dots/Database.cpp:2788-2791 | a handle is stored in a row if and only if it is accepted and its record names that row |
| Placement.TailMoveIff | Dots/Database.cpp:1739-1744 | with the source row passed in 16 bits, the moved rows are right for all contents if and only if nothing moves or the source row is below 65536 |
| Worlds.World.GetArchetype | Dots/Database.cpp:868-876 | gives the archetype with exactly these types, adding one without chunks only if there is none |
| Worlds.ResizedLists | Dots/Database.cpp:1626-1639 | resizing a chunk keeps every archetype's list complete, without repetition, full chunks first |
| Worlds.World.ResizeChunk | Dots/Database.cpp:1626-1639 | the new list is the one the linked list would have; an archetype goes with its last chunk |
| Worlds.World.AllocateSlice | Dots/Database.cpp:1721-1732 | opens at least one row behind the occupied ones of the archetype's first chunk with room, or of a new one from the bin of the request, as many as it can give, and touches no entity |
| Worlds.World.FreeSlice | Dots/Database.cpp:1734-1747 | closes the hole: records and rows agree everywhere, and if the tail is reached with 16 bits every entity keeps handle, archetype and components |
| Worlds.World.MoveTail | Dots/Database.cpp:1739-1745 | the row copy, with the index narrowed to 16 bits, and the records move together |
| Worlds.World.MoveRows | Dots/Database.cpp:1759-1760 | the moved entities hold their cast rows in the new archetype |
| Worlds.World.CastSlice | Dots/Database.cpp:1749-1766 | every entity of the slice ends up in the returned slices, in order; each but the last filling its chunk; if each part and the tail begin below row 65536 its components are cast and no other entity changes |
| Worlds.World.Allocate | Dots/Database.cpp:1894-1908 | n distinct new entities with default components lie in the returned slices, which sum to n and fill their chunks but for the last; no live entity changes |
| Worlds.DefaultRowByKind | Dots/Database.cpp:225-242 | plain components start as zeros, buffers empty, managed ones constructed, the mask as ones |
| Worlds.World.DestroySingle | Dots/Database.cpp:1595-1613 | entities being cleaned are left alone, those with something to clean by hand end up in the archetype of just that and the cleanup tag, all others are freed |
| Worlds.World.GetCleaning | Dots/Database.cpp:1027-1057 | none if and only if nothing is cleaned by hand, else the archetype of what is, and the cleanup tag |
| Worlds.World.Replay | Dots/Database.cpp:1734-1813 | any sequence of creations, destructions and casts: each does to the state it finds what it should, and records, rows and chunk lists agree throughout |
| Worlds.World.Destroy | Dots/Database.cpp:1602-1606 | the handles of the slice are rejected from then on, and no other entity changes if the tail is reached |
| Worlds.World.Cast | Dots/Database.cpp:1791-1813 | casting to nothing frees, to the same archetype changes nothing, to another one casts |
| Placement.HighTailMoved | Dots/Database.cpp:1739-1744 | freeing row 5 of 70001 rows fills it with the components of row 4464 and the record of row 70000 |
| Placement.CastReadIff | Dots/Database.cpp:1759-1760 | with the first row passed in 16 bits, the rows to cast are read right for all contents if and only if it is below 65536 |
| Duplicates.LayoutsAreOk | Dots/Database.cpp:998-1018 | the computed offsets keep all columns of a chunk apart from each other and behind the entities |
| Duplicates.OffsetsTellBins | Dots/Database.cpp:1002-1018 | two chunks of an archetype with a column have the same offsets if and only if they hold equally many rows |
| Duplicates.Memdup | Dots/Database.cpp:273-283 | copying once and then doubling repeats the cell exactly count times |
| Duplicates.Duplicate | Dots/Database.cpp:293-354 | each column whose types match is written, in kind order, where the layout of the source chunk says; also within one chunk |
| Duplicates.CopiesIff | Dots/Database.cpp:293-354 | the new rows equal the source row, whatever it holds and whatever was there, if and only if there is no column, or the destination has the offsets of the source and the source row is below 65536 |
| Duplicates.HighRowCopied | Dots/Database.cpp:1542-1543 | in a large chunk a copy of the entity of row 70000 has the components of row 4464 |
| Duplicates.WritesInColumns | Dots/Database.cpp:293-354 | rows that the source's chunk has room for are written inside its columns and nowhere else |
| Duplicates.SourceUntouched | Dots/Database.cpp:293-354 | rows written behind the source row of the same chunk leave it as it is |
| Duplicates.HandlesLeaveColumns | Dots/Database.cpp:1542-1543 | handles written afterwards leave every column as it is |
| Duplicates.CopiesAmongHandles | Dots/Database.cpp:1533-1548 | a thousand copies of an entity that is alone in a small chunk: beyond the first slice no byte of the column is written |
| Groups.Patcher.Patch | Dots/Database.cpp:1414-1420 | marks a reference with its member's number, or resolves a number, or leaves the reference alone |
| Groups.Patcher.PatchSlice | Dots/Database.cpp:357-444 | column by column and row by row, each row resolves from its own place of the table |
| Groups.GroupToPrefab | Dots/Database.cpp:1401-1426 | all members' rows are marked |
| Groups.PrefabToGroup | Dots/Database.cpp:1428-1451 | all members' rows are resolved back |
| Groups.FillTable | Dots/Database.cpp:1487-1499 | copy k of member i is at place k * size + i of the table |
| Groups.DuplicateSite | Dots/Database.cpp:1541-1543 | the rows of a slice are what duplicate leaves at the places of the slice's own layout |
| Groups.DuplicatedInSameBin | Dots/Database.cpp:1541-1543 | in a chunk with the original's offsets these are copies of its row, if that is below 65536 |
| Groups.PatchCopies | Dots/Database.cpp:1519-1529 | however the copies were cut into slices, each row is what was duplicated there, resolved from the place of its own copy |
| Groups.ResolveMarked | Dots/Database.cpp:1509-1515 | resolving a marked reference gives the copy's own member |
| Groups.MarkedIs | Dots/Database.cpp:1414-1420 | the m-th member is marked with number m, and a reference to anything else stays or is cut off |
| Groups.CloneRefIs | Dots/Database.cpp:1479-1531 | copy j refers to its own copy of a member, and to the same as the original elsewhere |
| Groups.ReadsBeyondIff | Dots/Database.cpp:1509-1515 | a copy reads behind the table of new handles if and only if it is the last one and the reference is transient, no member's and numbered with the group's size |
| Groups.KeptIff | Dots/Database.cpp:1509-1515 | a copy keeps a reference to something outside the group if and only if it does not look like a number, or is what lies behind the table |
| Groups.RestoredIff | Dots/Database.cpp:1435-1441 | a reference is restored if and only if it is one to a member, does not look like a number, or is what lies behind the members |
| Groups.StrayReference | Dots/Database.cpp:1435-1441 | a transient reference numbered 0 becomes one to the copy, and in the original one to the member |
| Groups.ClonesAreIsomorphic | Dots/Database.cpp:1479-1531 | in a copy two references are equal if and only if they were in the original |
| Groups.CopiesAreSeparate | Dots/Database.cpp:1479-1531 | no copy refers to another copy's members |
| Groups.InstantiateGroup | Dots/Database.cpp:1470-1477 | if the original is below row 65536, in every slice whose chunk has its offsets each reference that does not look like a number is the copy's own member or unchanged, for every split into slices; such references of the originals are restored |
| Sets.Merge | DotsRuntime/Set.h:55-73 | the sorted union |
| Sets.Substract | DotsRuntime/Set.h:75-91 | the sorted difference |
| Sets.Any | DotsRuntime/Set.h:109-122 | whether two sets meet |
| Sets.All | DotsRuntime/Set.h:124-137 | whether one set contains the other |
| Sets.SortedUnique | DotsRuntime/Set.h:29-34 | sorted arrays with the same elements are equal |
| Casting.StartCopying | Dots/Database.cpp:1086-1103 | type by type, each hand-copied one becomes its pending copy and the others stay; the result is sorted |
| Casting.CompleteCopying | Dots/Database.cpp:1118-1141 | exactly the pending copies whose original is there disappear |
| Casting.InterruptCopying | Dots/Database.cpp:1143-1159 | shrinking a hand-copied type also names its pending copy |
| Casting.GetCasted | Dots/Database.cpp:1064-1181 | the resulting types, as a formula of set algebra, and meta entities, sorted, exactly when there is no result, and for a plain instantiation each type in its place |
| Casting.CastedIsInCasted | Dots/Database.cpp:1064-1181 | that formula agrees with the phases by membership |
| Casting.InstanceIsCopying | Dots/Database.cpp:1086-1103 | an instance of an archetype with a hand-copied type waits for that copy |
| Casting.GetCleaning | Dots/Database.cpp:1027-1057 | the types to be cleaned in, sorted, and exactly when there are none |
| Casting.CleanTwice | Dots/Database.cpp:1595-1613 | entities that wait to be cleaned are left alone by a second destruction |
| Casting.PlainCast | Dots/Database.cpp:1064-1181 | without pending copies the result is the union with the extension minus the shrink |
| Casting.ShrinkInterrupts | Dots/Database.cpp:1143-1170 | shrinking t removes t and a pending t + 1 |
| Casting.InstantiateThenComplete | Dots/Database.cpp:1086-1141 | instantiating and then extending by the hand-copied types gives back the original archetype |
| Columns.Valid | Dots/Database.cpp:285-291 | a pending copy has the layout of its original |
| Columns.KindRanges | Dots/Database.cpp:891-935 | sorting groups the kinds, and valid types stay in their group |
| Columns.SourceFirst | Dots/Database.cpp:535-541 | the smaller source type in front of the merge has no destination column |
| Columns.DestinationFirst | Dots/Database.cpp:542-548 | the smaller destination type in front of the merge has no source column |
| Columns.Merge | Dots/Database.cpp:531-555 | the loop fills every destination column passed and disposes of every unmatched source column passed |
| Columns.Cast | Dots/Database.cpp:517-643 | each destination column receives the source column of its valid type or its default; each unmatched buffer or managed column is disposed of once |
| Columns.CastIsRowwise | Dots/Database.cpp:517-643 | the column merge computes, row by row, the cast of a single row |
| Columns.CastRoundTrip | Dots/Database.cpp:517-643 | casting there and back keeps exactly the columns both archetypes have |
| Queries.Match | Dots/Database.cpp:2960-3010 | match decides the set-algebra meaning of all, any, none, shared and owned |
| Queries.MatchesByType | Dots/Database.cpp:2960-3010 | the same meaning, type by type and meta entity by meta entity |
| Queries.PassesIff | Dots/Database.cpp:739-808 | a query sees matching archetypes, and those being cleaned or disabled only if its filter names what shows them |
| Queries.ScanFlags | Dots/Database.cpp:749-765 | the scan computes the flags, stopping at the first pending copy |
| Queries.FlagsMeaning | Dots/Database.cpp:749-766 | archetypes being cleaned are seen if and only if the filter names cleanup and no pending copy below it; disabled ones if and only if it names disable, cleanup or a pending copy |
| Queries.World.GetQueryCache | Dots/Database.cpp:739-808 | a query lists exactly the live archetypes that pass, and building it changes no other |
| Queries.World.UpdateCache | Dots/Database.cpp:829-849 | appending or swapping out one archetype keeps a cache exact |
| Queries.World.UpdateQueries | Dots/Database.cpp:810-850 | every cache stays exact |
| Queries.World.AddArchetype | Dots/Database.cpp:1021-1025 | adding an archetype keeps every cache exact |
| Queries.World.RemoveArchetype | Dots/Database.cpp:1242-1248 | removing an archetype keeps every cache exact |
| RingBuffer.Ring.Ptr | Dots/RingBuffer.h:55-62 | the slot of a position and the longest piece from there: as much as wanted, as available, or up to the end |
| RingBuffer.StoredAppend | Dots/RingBuffer.h:40-43 | writing free slots and publishing appends to the contents and overwrites nothing |
| RingBuffer.Ring.PushRange | Dots/RingBuffer.h:115-136 | stores exactly the smaller of the request and the free space, across the end of the array |
| RingBuffer.Ring.PopRange | Dots/RingBuffer.h:154-176 | hands out exactly the smaller of the request and the contents, in order |
| RingBuffer.ProduceStep | Dots/RingBuffer.h:34-39 | one load, element copy or publication of the producer |
| RingBuffer.ConsumeStep | Dots/RingBuffer.h:44-53 | one load, element copy or publication of the consumer |
| RingBuffer.OutputIsPrefixOfInput | Dots/RingBuffer.h:34-73 | in every interleaving the output is a prefix of the input and the write index is at most the capacity ahead of the read index |
| RingBuffer.NoSlotShared | Dots/RingBuffer.h:34-73 | slots being written and slots being read are different |
| RingBuffer.SentFromSource | Dots/RingBuffer.h:115-136 | what a push in progress has sent is the beginning of its source |
| RingBuffer.ReturnsWhenFull | Dots/RingBuffer.h:115-136 | in every interleaving a push returns when all its source is in, or when its last load has found the ring full |
| RingBuffer.ReceivedInOrder | Dots/RingBuffer.h:154-176 | what a pop in progress has received follows what was received before, never more than it wants |
| RingBuffer.ReturnsWhenEmpty | Dots/RingBuffer.h:154-176 | in every interleaving a pop returns when it has all it wants, or when its last load has found the ring empty |
| RingBuffer.CallsGoOn | Dots/RingBuffer.h:115-176 | in every interleaving each step of a call brings it nearer to its end |
| RingBuffer.CallsBegin | Dots/RingBuffer.h:115-176 | a call begins with its whole source, or with nothing received, and changes nothing else |
| TicketRuns.StepKeepsInv | DotsTest/include/marl/ticket.h:179-253 | every atomic step of take and done, in which done gets the lock only for linked tickets or inside a batch, keeps queue and batches chained by the records' pointers and the first ticket called |
| TicketRuns.ExactlyFirstCalled | DotsTest/include/marl/ticket.h:179-253 | in every run of such steps, also between the two unlocked writes of a hand-out, exactly the first ticket in the queue is called, and none before its link |
| TicketRuns.CalledInOrder | DotsTest/include/marl/ticket.h:179-253 | in every such run tickets are called in the order linked, none twice, and none while an earlier one is unfinished |
| TicketRuns.SomeTicketIsUp | DotsTest/include/marl/ticket.h:216-227 | in every such run, with no done under way, a ticket in the queue means that a called one has not seen done |
| TicketRuns.NoTicketLost | DotsTest/include/marl/ticket.h:180-222 | in every such run a ticket is in the queue or on its way there exactly until its done has had the lock |
| TicketRuns.DoneAfterTakeIsRight | DotsTest/include/marl/ticket.h:179-253 | if every done is called for a ticket that is linked already, as after its take has returned, every interleaving is such a run: of the tickets that wait exactly the one linked first is called |
| TicketRuns.CriticalSectionsApart | DotsTest/include/marl/ticket.h:180-227 | a critical section of done in such a run touches no pointer that a take under way writes without the lock |
| TicketCalls.TakeQueues | DotsTest/include/marl/ticket.h:179-203 | in every such run, an uninterrupted take queues up as many new tickets as asked for, in order, and calls the first of them if nobody is in front |
| TicketCalls.DoneTakesOut | DotsTest/include/marl/ticket.h:216-227 | in every such run, the first done on a ticket in the queue takes it out and calls the next one if it was up |
| TicketCalls.LockTakesOut | DotsTest/include/marl/ticket.h:220-226 | the same for a done that had to wait for the lock |
| TicketCalls.DoneTakesOutOfBatch | DotsTest/include/marl/ticket.h:216-227 | a done on a ticket inside its batch takes it out and calls nobody |
| TicketCalls.SecondDoneDoesNothing | DotsTest/include/marl/ticket.h:217-219 | a second done on a ticket does nothing |
| TicketFailures.RightIff | DotsTest/include/marl/ticket.h:179-227 | a done that gets the lock keeps calls right in every continuation by such steps if and only if its ticket is linked or has neighbours in its batch on both sides |
| TicketFailures.NoneBehindIsCalled | DotsTest/include/marl/ticket.h:180-225 | after a done on the newest ticket of a take, before it points to anything, or alone with no queue before the link, no ticket linked behind it is ever called |
| TicketFailures.NextIsCalledUnlinked | DotsTest/include/marl/ticket.h:216-226 | a done on the first ticket of a batch that points to a second record calls that one, which is not linked |
| TicketFailures.TailIsLost | DotsTest/include/marl/ticket.h:195-222 | a done on the last ticket between the write of its next and the link makes the tail forget the queue |
| TicketFailures.FirstStaysUncalled | DotsTest/include/marl/ticket.h:195-203 | if that ticket was one of several, the link then leaves the first ticket of the batch uncalled, and with no queue that is the first of all |
| TicketFailures.DoneLetsOvertake | DotsTest/include/marl/ticket.h:195-222 | if that ticket is the only one of its take, the next take's ticket is called while the first one waiting still is |
| TicketFailures.WindowFails | DotsTest/include/marl/ticket.h:186-189 | after a done between the two unlocked writes behind its ticket, some harmless continuation ends in a wrong call |
| TicketFailures.WindowGoesOn | DotsTest/include/marl/ticket.h:186-222 | that continuation: the next ticket is linked and done, and a ticket taken then waits behind one that has left |
| TicketFailures.TakeTwoSticks | DotsTest/include/marl/ticket.h:180-225 | two tickets taken, with done on the first at once: the second is never called |
| TicketFailures.TakeThreeLosesOne | DotsTest/include/marl/ticket.h:186-222 | three tickets taken, with done on the second between the two writes: after all three are done the next ticket waits alone and is not called |
| Tickets.CallbacksRunOnce | DotsTest/include/marl/ticket.h:148-242 | after any sequence of take, onCall and done the callbacks of a called ticket have run exactly once, in order, and those of any other are kept |
| Tickets.Queue.Borrow | DotsTest/include/marl/ticket.h:180-195 | the records of a take are linked to each other one by one, the last one to the tail |
| Tickets.Queue.Link | DotsTest/include/marl/ticket.h:196-203 | the batch joins behind the last record, and its first is called, with its callbacks, if nobody was in front |
| Tickets.Queue.Finish | DotsTest/include/marl/ticket.h:216-227 | the record leaves the linked list; the one behind it is called, and its callbacks are scheduled, if it was first, and nothing is scheduled otherwise; every other record keeps its callbacks |
| Tickets.Queue.CallRecord | DotsTest/include/marl/ticket.h:229-242 | a record is called once and its callbacks are scheduled then |
| Tickets.Queue.OnCall | DotsTest/include/marl/ticket.h:148-167 | a callback is kept until the call or scheduled at once after it |
| Tickets.Record.Unlink | DotsTest/include/marl/ticket.h:244-253 | takes a record out and joins its neighbours |
| Dag.Builder.AddDependency | DotsTest/include/marl/dag.h:335-339 | adds one edge and keeps the number of incoming edges of every node |
| Dag.Builder.Node | DotsTest/include/marl/dag.h:319-332 | a new node behind the nodes named |
| Dag.Builder.Build | DotsTest/include/marl/dag.h:342-354 | exactly the nodes with several incoming edges get a counter of their own, set to their number |
| Dag.Notify | DotsTest/include/marl/dag.h:150-161 | one decrement; a node without a counter is ready at once |
| Dag.Step | DotsTest/include/marl/dag.h:164-199 | run a node's work, follow one edge, or turn to the buffered node |
| Dag.EdgeArrives | DotsTest/include/marl/dag.h:149-161 | following an edge brings a waiting child one nearer, and notify says whether it was the last |
| Dag.EachOnceAfterParents | DotsTest/include/marl/dag.h:164-199 | under any scheduling no node runs twice, and none before all its parents |
| Dag.AllRanWhenRunReturns | DotsTest/include/marl/dag.h:373-379 | when the caller is through and the wait group is at zero every node has run |
| Dag.RunEnds | DotsTest/include/marl/dag.h:164-199 | a task that has not ended can step, every step is progress, and there are only so many |
| Dag.ReachableIsRooted | DotsTest/include/marl/dag.h:88-89 | in an acyclic graph reachable from the root only the root has no parent |
| KdTree.NthElement | DotsTest/kdtree.h:76-79 | what nth_element promises: a rearrangement with the middle element in its sorted place |
| KdTree.BuildRecursive | DotsTest/kdtree.h:70-86 | the nodes from id on form a tree, in axis order, of exactly the given points, each once; nothing else changes |
| KdTree.PartsBuilt | DotsTest/kdtree.h:80-85 | two built parts and the root between them make a built tree |
| KdTree.SquaredDistance | DotsTest/kdtree.h:88-94 | the sum of the squared coordinate distances |
| KdTree.AlongOneAxis | DotsTest/kdtree.h:88-94 | points that differ along one axis are as far apart as they are along it |
| KdTree.Pythagoras | DotsTest/kdtree.h:88-94 | squared distances add up at a right angle |
| KdTree.FarSide | DotsTest/kdtree.h:105-109 | beyond the splitting plane no point is closer than the plane |
| KdTree.Index.constructor | DotsTest/kdtree.h:17-24 | every point is in exactly one node |
| KdTree.Index.SearchRadius | DotsTest/kdtree.h:40-45 | reports each index once, if and only if its squared distance is below the squared radius |
| KdTree.Index.SearchRadiusRecursive | DotsTest/kdtree.h:96-110 | the same for a subtree, appended to what was found before |
| KdTree.Index.SearchNearest | DotsTest/kdtree.h:53-61 | returns a minimiser, or -1 if and only if no point is closer than the largest distance |
| KdTree.Index.SearchNearestRecursive | DotsTest/kdtree.h:132-149 | improves on the best so far exactly as looking at every point would |

## Left out

- Weaker memory orders, and wrap-around of the queue's and the ring's counters.
- Serializers, callbacks of components, the C wrapper, GUIDs, allocation of raw memory, and hashing.
- The compile-time type plumbing of the pipeline, command buffers, random-access parameters and passes that use one column in both modes.
- merge_chunks, copying and serializing worlds, context diffs, recursive destruction of groups, the shared branch of component lookup.
- archetype::size, which is subtracted more than once; entities and rows are conserved instead.
- The mask phase of chunk::cast, masks in query caches, and timestamps.
- Duplicates.Duplicate: what is written past the end of a small chunk goes on in memory of its own; which other chunk lies there is open.  New GUIDs, and the deep copy of managed cells and buffers, are plain copies of a cell.
- Worlds.World.Cast: does not model the relinking of a whole castable chunk, and always takes the slice path.
- Worlds.World.DestroySingle: archetypes are told apart by their types; their meta entities are not modelled here.
- Meta entities that are themselves shared through archetypes that come and go: a query sees an archetype's shared types as a fixed attribute.
- search_k_radius, which is not a k-nearest search.
- The algorithm of nth_element, a library function: KdTree.NthElement meets its promise by selection.
- Floating-point rounding: coordinates are reals.
- The scheduler, mutexes and condition variables of marl: scheduling is "some later step", a lock is one atomic step.
- TicketRuns.Apply: each critical section is one step, which TicketRuns.CriticalSectionsApart justifies while done gets the lock in harmless places; callAndUnlock and the callbacks are in Tickets.
- Tickets.Queue.Borrow: handing each ticket to the caller during the loop is in TicketRuns, not in the class.
- Exceptions thrown by element constructors in the queue, but for the blocks they give back, and the memory of blocks.
- IndexRuns.Step: publishing counts whole blocks, the value of an entry that was never stored to is null, and the copying into a new index, which nobody sees yet, is one step with its publication.
- Dag.Step: one step notifies a child and, if need be, counts and schedules the task for the node held before it; these touch no state another task can observe in between.
- Groups.InstantiateGroup: a slice in a smaller chunk than the original's is written past its end, into memory of its own here; members' rows and the copies once duplicated are passed by value; the new handles, the slices with their chunks, and what lies behind the tables are inputs, so every allocation is covered.
- Worlds.World.Allocate: chunks and archetypes are addressed by number; that pointers link them in the same order is proved in Chunks.
- Pipeline.Tracker.SetupDependency: which passes have expired is read once per call, not once per entry.
