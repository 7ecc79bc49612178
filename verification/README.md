# ChampSim state machines in Dafny

This project models the state machines at the heart of the ChampSim
trace-driven simulator and proves what they keep true over whole runs. Each
component is modelled twice: as functions on values, about which the lemmas
speak, and as a class with the fields of the source, whose methods have the
loops of the source and are proved to compute those functions.
`dafny verify dfyconfig.toml` checks everything.

* **Out-of-order core** (`RegisterAllocation`, `ReorderBuffer`,
  `LoadStoreQueue`, `LoadStoreInvariant`, `FrontEnd`, `O3Core`, `O3Forwarding`,
  `O3Readiness`, `O3Loads`, `O3Choices`, `O3Stages`, `O3Cpu`).
  Physical registers form, for each architectural register, a chain of versions
  from the backend table through the destinations in flight to the frontend
  table. That chain is the invariant behind "every read sees the youngest older
  write", the conservation of registers and the dataflow order. Memory
  operations are counted as multisets of instruction ids over the reorder
  buffer and both queues; the front end keeps one merged program order across
  its split buffers. `O3Core.Reached` is the core after any number of cycles,
  for any trace and any behaviour of the caches, the branch predictor and the
  decoded-instruction buffer. `O3Readiness` ties loads and stores to the
  execution of their instruction, `O3Loads` accounts for how each load ends,
  `O3Choices` says which entries each step takes, and `O3Stages` that a cycle
  takes an instruction at most one stage further.
* **DRAM** (`Bits`, `DramMapping`, `DramChannel`, `DramInvariant`, `DramRuns`,
  `DramCycles`, `DramDevice`). Address decoding with its exclusive-or permutation as a
  bijection, and the channel scheduler, whose bank requests point into the two
  slot queues. Iterators are pairs of a queue and an index. `DramRuns` says what
  is never lost, `DramCycles` what a cycle may do: what is answered and done, and
  when rows, bus, mode and refresh change.
* **Caches and channels** (`SetUnion`, `Channels`, `Algorithms`, `FlatSets`,
  `CacheModel`, `CacheInvariant`, `CacheSteps`, `CacheRuns`, `CacheAnswers`,
  `CacheDistinct`, `CacheWrites`, `CacheChoices`, `CacheDevice`).
  Collision merging and forwarding, tag checks, the translation stash, miss
  registers, fills and the block array. A run is any interleaving of the steps
  of `CACHE::operate` with arrivals from above and answers from below; the level
  below gives one answer for each request that asked for one, and
  `CacheAnswers` shows that a cache keeps that promise towards its upper levels.
  `CacheWrites` follows each write to the writeback of its block, and
  `CacheChoices` says what each step takes and how long data and lookups wait.
* **LRU table** (`LruTable`). Timestamps with a hand-written comparator refine a
  list of tags in order of recency.
* **Folded history** (`FoldedRegister`), **virtual memory** (`VirtualMemory`) and
  the tables of the **signature path prefetcher** (`SppPatterns`,
  `SppSignatures`, with `Permutations`).

How some things are expressed:

* Counters, times and ids are unbounded; machine words whose width matters are
  natural numbers with the masks of the source (`Bits`, `FoldedRegister`,
  `SppSignatures`).
* Several comparators given to `min_element`, `max_element`, `minmax_element`
  are not strict weak orders. They are scanned left to right, pairwise for
  `minmax_element`, as the GNU library does, and lemmas say what the scan finds.
* `retired`, `written`, `trace`, `accepted`, `taken`, `done`, `ledger`, `out`,
  `pages`, `asked`, `wrote` and `evicted` are histories of a run and exist for
  the statements only.
* The invariants of the core are sealed: `RobInv`, `LsqInv` and `Inv` are written
  `forall k :: Seal(k) ==> Parts`, which is the conjunction `Parts`, and lemmas
  named `Open...` give the parts back where a proof needs them.

What holds only under a condition, or not at all:

* The register file has at most `ARCH_REGS` (256) registers. The guard of
  `schedule_instruction` looks sources up by number also in entries that are
  already renamed (`champsim/src/ooo_cpu.cc:434-436`); with a larger file it can
  index past the table, and exactly then (`ReorderBuffer.NamesFitTable`,
  `ReorderBuffer.LargeFileLeavesTable`).
* Warmup ends once and never starts again, as `champsim/src/main.cc:112-114`
  does; that keeps ready times in the reorder buffer monotone.
* Collision checks try only the first match of a block. They leave one entry for
  each block exactly when entries agree on `is_translated`
  (`Channels.MergeDeduplicates`); and no two entries with equal block and flag
  exactly when equal ones agree with the first entry of their block
  (`Channels.CheckDeduplicates`, `Channels.MixedFlagsKeepDuplicates`).
* A cache that takes writebacks can hold a block in two ways, or hold a block that
  it waits for, because `handle_write` looks neither at the miss registers nor at
  the pending writes, and `handle_miss` not at the pending writes
  (`CacheDistinct.WritebackCopiesBlock`). It keeps blocks distinct, however its
  fills are completed, exactly when no miss finds another fill of its own block
  under way (`CacheDistinct.DistinctExactlyWhenClean`). Without writebacks that
  is always so (`CacheRuns.NoBlockTwice`).
* A cache that treats writes like reads forgets a store when a load of its block is
  merged into the store's miss register: `mshr_type::merge` keeps the type of the
  newer one (`champsim/src/cache.cc:117`), so the block is filled clean
  (`CacheWrites.ReadForgetsWrite`). Exactly without such merges each write is
  remembered all along a run (`CacheWrites.WritesRememberedExactly`); a cache that
  fills its writebacks never forgets one (`CacheWrites.NoWriteForgotten`).
* A write may not bypass the cache (`champsim/src/cache.cc:182` asserts it): the
  replacement policy gives a victim inside the set when the next fill is a write.
* The mode of a DRAM channel that has just changed does not change back at once,
  exactly unless its write queue is empty and has one slot
  (`DramCycles.ModeSettles`).
* A page-table walk takes a page also without a fault, when no slot is open
  (`VirtualMemory.WhatALookupTakes`), and pages are handed out again once the
  list was used up (`VirtualMemory.DistinctUntilRefilled`).
* Swizzling ends only with a positive segment size, that is with at least one
  bank or bank group bit (`DramMapping.SwizzleEnds`); of the channel bits only the
  lowest one is permuted (`DramMapping.FieldsMixRow`).
* The DRAM queues and the bank array are not empty: the scans of the scheduler
  dereference what they find.

## Model

| member | source | states |
|---|---|---|
| `O3Core.ReadsSeeYoungestWrite` | champsim/src/ooo_cpu.cc:452-466 | In every state the core reaches, each source of a renamed instruction names the version made by the youngest older writer of that architectural register; that version is not free, and is valid exactly when its writer has completed or retired |
| `O3Core.DataflowOrder` | champsim/src/ooo_cpu.cc:468-483 | In every reachable state an executed instruction has no older in-flight writer of one of its sources that has not completed |
| `O3Core.RegistersConserved` | champsim/src/register_allocator.cc:5-43 | Free registers, committed mappings and unretired renamed destinations always add up to the register file, the free list has no duplicates, and renamed instructions form a prefix of the reorder buffer |
| `O3Core.MemoryOperationsAccounted` | champsim/src/ooo_cpu.cc:509-603 | For each instruction in the reorder buffer, completed memory operations plus occupied load slots plus unexecuted stores are all its memory operations, in every reachable state |
| `O3Forwarding.ParkedLoadsWaitOnce` | champsim/src/ooo_cpu.cc:517-534 | In every reachable state a load that waits keeps its slot unissued and is listed exactly once, by an unexecuted store that is a youngest of the older queued stores to its address; while a load that does not wait holds a slot, no older store to its address is queued; no other load is listed |
| `O3Forwarding.AddLoadForwarded` | champsim/src/ooo_cpu.cc:512-536 | Entering a load keeps that each queued load waits for a store at least as young as any older store queued to its address, if there is one |
| `O3Forwarding.LoadsBeforeDispatch` | champsim/src/ooo_cpu.cc:538-541 | Queued loads are no younger than what is dispatched next, so that its stores are older than none of them |
| `O3Readiness.MemoryWaitsForExecution` | champsim/src/ooo_cpu.cc:548-582 | In every reachable state a queued store has not executed and a queued load has not been issued before their instruction has executed and its result is ready; until then they have no ready time, afterwards the instruction's |
| `O3Readiness.InstructionsWait` | champsim/src/ooo_cpu.cc:428-483 | In every reachable state nothing is renamed, or completed, before it is due |
| `O3Loads.LoadsEndRightly` | champsim/src/ooo_cpu.cc:587-705 | In every reachable state the loads of an instruction from an address are those that hold a slot, those that had been issued when a response for their block was taken, and those whose youngest older store to the address executed: none is lost, ends twice or ends otherwise |
| `O3Loads.ResponsesClear` | champsim/src/ooo_cpu.cc:691-702 | After responses for some blocks no slot holds an issued load of one of them, and every slot with an unissued load or a load of another block is unchanged |
| `O3Choices.ReturnsWithinBandwidth` | champsim/src/ooo_cpu.cc:691-702 | Responses of the L1D beyond its bandwidth change nothing in the cycle |
| `O3Choices.CompletesOldest` | champsim/src/ooo_cpu.cc:633-659 | Exactly the first EXEC_WIDTH executed entries that are due and have no memory operation left complete |
| `O3Choices.ExecutesOldest` | champsim/src/ooo_cpu.cc:468-507 | Exactly the first EXEC_WIDTH renamed entries that are due with all sources valid execute, and are ready after the execution latency |
| `O3Choices.SchedulesInOrder` | champsim/src/ooo_cpu.cc:428-450 | Exactly the entries that are due are renamed up to where the search stops: at the end, at its bandwidth in entries not executed, or at an entry short of registers |
| `O3Choices.IssuesFirst` | champsim/src/ooo_cpu.cc:571-582 | Exactly the first loads that are due, unissued and wait for no store are issued, as many as LQ_WIDTH and the L1D allow |
| `O3Choices.StoresExecuteInOrder` | champsim/src/ooo_cpu.cc:557-565 | Of the stores that have not executed the oldest do, while they are due and SQ_WIDTH lasts |
| `O3Choices.StoresLeaveInOrder` | champsim/src/ooo_cpu.cc:552-569 | Stores leave from the front exactly while their instruction has left the reorder buffer, they are due, and bandwidth and room last |
| `O3Choices.DispatchesDue` | champsim/src/ooo_cpu.cc:407-426 | Instructions are dispatched from the front while they are due, and dispatch stops only for the bandwidth or for want of room |
| `O3Choices.RetiresOldest` | champsim/src/ooo_cpu.cc:707-731 | The completed entries in front retire, as many as the width allows, and no other |
| `O3Choices.CoreDecodesDue` | champsim/src/ooo_cpu.cc:323-403 | Decoding takes what is due from both buffers, oldest first, stops only for want of slots or decoders or at one that is not due, and stamps it with the dispatch latency |
| `O3Choices.PromotesFetched` | champsim/src/ooo_cpu.cc:286-321 | The fetched and due instructions in front leave for the two buffers, decoded ones to one and the rest to the other, as many as fit, each with its latency |
| `O3Choices.MarksFetched` | champsim/src/ooo_cpu.cc:203-233 | A DIB hit makes an instruction fetched, decoded and due at once, an L1I response makes it fetched, and nothing else changes |
| `O3Choices.EntersInOrder` | champsim/src/ooo_cpu.cc:108-125 | Trace instructions enter in order as width and room allow, due at once, and without registers in warmup |
| `O3Stages.OneStagePerCycle` | champsim/src/ooo_cpu.cc:37-53 | In every cycle of every run each instruction of the program stays in its stage or moves on to the next: the order of the steps in operate lets none pass two stages, and none goes back |
| `O3Stages.EightCyclesAtLeast` | champsim/src/ooo_cpu.cc:37-53 | Nothing retires in the first seven cycles |
| `O3Stages.CycleRetires` | champsim/src/ooo_cpu.cc:707-731 | A cycle retires exactly what had completed in front before it, up to RETIRE_WIDTH |
| `O3Stages.StoresShareWidth` | champsim/src/ooo_cpu.cc:548-569 | In one cycle stores that execute and stores that leave number at most SQ_WIDTH together |
| `O3Core.StoresWrittenInOrder` | champsim/src/ooo_cpu.cc:548-569 | The L1D has received stores of retired instructions only, in program order and each once; the rest are still queued |
| `O3Core.RetiresTheProgram` | champsim/src/ooo_cpu.cc:707-731 | Retired instructions followed by those in flight are the fetched program: nothing is lost, duplicated or reordered, ids increase end to end, and no buffer overflows |
| `O3Core.HistoriesGrow` | champsim/src/ooo_cpu.cc:37-53 | What retired, was written or was fetched by one cycle is never revised by a later one |
| `O3Core.StartInv` | champsim/src/register_allocator.cc:5-14 | The core as constructed satisfies the invariant every step keeps |
| `O3Core.ReturnsAreSafe` | champsim/src/ooo_cpu.cc:691-702 | In every state of the invariant the assertions of LSQ_ENTRY::finish hold for each load an L1D response finishes |
| `O3Core.FetchesAreSafe` | champsim/src/ooo_cpu.cc:587-603 | In every state of the invariant the assertions of do_finish_store hold, and executed stores form a prefix of the store queue |
| `O3Core.DispatchIsSafe` | champsim/src/ooo_cpu.cc:521-528 | All queued stores are older than what is still to be dispatched, so the forwarding assertion holds |
| `O3Core.DispatchOneInOrder` | champsim/src/ooo_cpu.cc:407-426 | Dispatching keeps program order and the program content |
| `O3Core.EnterOneFlow` | champsim/src/ooo_cpu.cc:108-125 | A trace instruction enters as the youngest and keeps program order |
| `O3Core.CompleteStoresSpan` | champsim/src/ooo_cpu.cc:567-569 | Erasing the span of stores that may leave is handing them to the L1D one at a time |
| `O3Core.RetireAllSpan` | champsim/src/ooo_cpu.cc:709-728 | Erasing the span of completed instructions is retiring them one at a time |
| `O3Cpu.Simulate` | champsim/src/ooo_cpu.cc:37-53 | Cycle after cycle on the mutable core gives exactly the state the theorems above speak about |
| `O3Cpu.O3Cpu.Operate` | champsim/src/ooo_cpu.cc:37-53 | One call of operate runs the steps of the source in its order and keeps the invariant |
| `O3Cpu.O3Cpu.RetireRob` | champsim/src/ooo_cpu.cc:707-731 | The loops over the retired span retire instructions in order, at most RETIRE_WIDTH, up to the first that is not completed |
| `O3Cpu.O3Cpu.CompleteInflightInstruction` | champsim/src/ooo_cpu.cc:633-659 | Completes executed instructions that are due and whose memory operations are done, oldest first within the bandwidth |
| `O3Cpu.O3Cpu.ExecuteInstruction` | champsim/src/ooo_cpu.cc:468-507 | Executes renamed instructions whose sources are valid and wakes their queue entries |
| `O3Cpu.O3Cpu.ScheduleInstruction` | champsim/src/ooo_cpu.cc:428-450 | Renames oldest first under the guard on free registers, stopping at the first instruction that does not fit |
| `O3Cpu.O3Cpu.HandleMemoryReturn` | champsim/src/ooo_cpu.cc:691-702 | The loop over responses and slots is the specified return, of which `O3Loads.ResponsesClear` and `O3Loads.LoadsEndRightly` say which loads it finishes |
| `O3Cpu.O3Cpu.FinishEntry` | champsim/src/ooo_cpu.cc:810-822 | The halving search finds the entry's own instruction and counts one memory operation; both assertions hold |
| `O3Cpu.O3Cpu.DoFinishStore` | champsim/src/ooo_cpu.cc:587-603 | Executing a store finishes it and every load that waits for it, with the assertions of the loop |
| `O3Cpu.O3Cpu.ExecuteReadyStores` | champsim/src/ooo_cpu.cc:557-565 | The search and the loop execute the specified span of stores, which `O3Choices.StoresExecuteInOrder` and `O3Readiness.MemoryWaitsForExecution` pin to stores whose instruction has executed |
| `O3Cpu.O3Cpu.CompleteStores` | champsim/src/ooo_cpu.cc:552-569 | Hands finished stores to the L1D in order while bandwidth and room last |
| `O3Cpu.O3Cpu.IssueReadyLoads` | champsim/src/ooo_cpu.cc:571-582 | Issues due loads that wait for no store, in slot order within the bandwidth |
| `O3Cpu.O3Cpu.DoMemoryScheduling` | champsim/src/ooo_cpu.cc:509-546 | Gives each load a free slot, forwards it or parks it, and queues the stores; the assertions in it hold |
| `O3Cpu.O3Cpu.DispatchInstruction` | champsim/src/ooo_cpu.cc:407-426 | Moves instructions to the reorder buffer while there is room for all their parts |
| `O3Cpu.O3Cpu.DecodeInstruction` | champsim/src/ooo_cpu.cc:323-403 | The three loops and the merge move instructions to the dispatch buffer |
| `O3Cpu.O3Cpu.PromoteToDecode` | champsim/src/ooo_cpu.cc:286-322 | Splits the fetched window between the two buffers, as far as both have room |
| `O3Cpu.O3Cpu.InitializeInstruction` | champsim/src/ooo_cpu.cc:108-125 | Takes instructions from the trace while the fetch buffer has room |
| `O3Cpu.PartitionPoint` | champsim/src/ooo_cpu.cc:812 | The halving search of partition_point returns the first entry not older than an id |
| `O3Cpu.UnfetchedBegin` | champsim/src/ooo_cpu.cc:557 | The halving search returns the first store that has not executed |
| `O3Cpu.MaxElement` | champsim/src/ooo_cpu.cc:518-520 | The left-to-right scan with the source's comparator returns the store the forwarding lemma describes |
| `RegisterAllocation.RenameDestInv` | champsim/src/register_allocator.cc:16-26 | Renaming a destination keeps the version chain from backend to frontend table, extended by the new version |
| `RegisterAllocation.RenameSrcInv` | champsim/src/register_allocator.cc:28-43 | Renaming a source returns the youngest version and changes no version an older instruction reads |
| `RegisterAllocation.CompleteInv` | champsim/src/register_allocator.cc:45-49 | Completion sets the valid bit of that version only |
| `RegisterAllocation.RetireInv` | champsim/src/register_allocator.cc:51-70 | Retiring the oldest write commits it, frees the version it replaces and keeps every other register's home |
| `RegisterAllocation.Conservation` | champsim/src/register_allocator.cc:5-14 | Every physical register has exactly one home: free, committed or in flight |
| `RegisterAllocation.NotFree` | champsim/src/register_allocator.cc:66-70 | No committed or in-flight register is on the free list |
| `RegisterAllocation.Exclusive` | champsim/src/register_allocator.cc:16-26 | No register is both committed and in flight, nor in flight twice |
| `RegisterAllocation.FreedComesLast` | champsim/src/register_allocator.cc:51-70 | A register freed at retirement is handed out after all that were free before |
| `RegisterAllocation.RegisterAllocator.constructor` | champsim/src/register_allocator.cc:5-14 | All registers start free and nothing is mapped |
| `RegisterAllocation.RegisterAllocator.RenameDestRegister` | champsim/src/register_allocator.cc:16-26 | The updates of the tables, free list and register file are the specified renaming |
| `RegisterAllocation.RegisterAllocator.RenameSrcRegister` | champsim/src/register_allocator.cc:28-43 | As above for a source, allocating one that was never mapped |
| `RegisterAllocation.RegisterAllocator.CompleteDestRegister` | champsim/src/register_allocator.cc:45-49 | Sets the valid bit |
| `RegisterAllocation.RegisterAllocator.RetireDestRegister` | champsim/src/register_allocator.cc:51-64 | Commits the version and frees the old one |
| `RegisterAllocation.RegisterAllocator.FreePhysical` | champsim/src/register_allocator.cc:66-70 | Blanks the register and queues it behind the other free ones |
| `ReorderBuffer.SourceNamesYoungestWriter` | champsim/src/ooo_cpu.cc:452-466 | The invariant gives each renamed source the youngest older writer of the whole program, retired or in flight |
| `ReorderBuffer.ExecutesAfterProducers` | champsim/src/ooo_cpu.cc:468-483 | The invariant gives that nothing executed ahead of a producer it reads from |
| `ReorderBuffer.DispatchInv` | champsim/src/ooo_cpu.cc:407-426 | A dispatched instruction keeps the invariant of the reorder buffer |
| `ReorderBuffer.ScheduleFromInv` | champsim/src/ooo_cpu.cc:428-466 | Scheduling keeps the invariant, and no rename takes from an empty free list |
| `ReorderBuffer.CompleteEntryInv` | champsim/src/ooo_cpu.cc:633-645 | Completing an executed instruction keeps the invariant |
| `ReorderBuffer.RetireEntryInv` | champsim/src/ooo_cpu.cc:718-728 | Retiring the oldest instruction frees only versions no remaining instruction names |
| `ReorderBuffer.NamesFitTable` | champsim/src/ooo_cpu.cc:434-436 | The numbers the guard of the scheduler looks up stay inside the alias table exactly for register files no larger than it |
| `ReorderBuffer.LargeFileLeavesTable` | champsim/src/register_allocator.cc:16-26 | In any larger file 257 writes hand out id 256, and the next guard looks it up past the table |
| `LoadStoreQueue.ForwardsYoungestStore` | champsim/src/ooo_cpu.cc:517-521 | The scan finds a store to exactly the load's address whenever one is queued, and then a youngest one |
| `LoadStoreInvariant.Accounting` | champsim/src/ooo_cpu.cc:509-603 | The counts of one instruction's memory operations add up |
| `LoadStoreInvariant.FindsItself` | champsim/src/ooo_cpu.cc:810-822 | In a sorted buffer the search for an instruction's id finds that instruction |
| `LoadStoreInvariant.FirstStoreSafe` | champsim/src/ooo_cpu.cc:587-603 | Executing the first unexecuted store fails none of the assertions on the way |
| `LoadStoreInvariant.FetchOneInv` | champsim/src/ooo_cpu.cc:561-565 | Executing a store and releasing its loads keeps the accounting, the parking and the order |
| `LoadStoreInvariant.CompleteOneInv` | champsim/src/ooo_cpu.cc:552-569 | A store whose instruction has left the reorder buffer has executed, and may be written next |
| `LoadStoreInvariant.ReturnBlocksInv` | champsim/src/ooo_cpu.cc:691-702 | L1D responses keep the invariant of the queues |
| `LoadStoreInvariant.AnswerIsSafe` | champsim/src/ooo_cpu.cc:694-696 | A load that is finished by a response finds its own instruction with operations left |
| `LoadStoreInvariant.DispatchLsqInv` | champsim/src/ooo_cpu.cc:509-546 | With a free slot for each load, an instruction enters the queues with all operations accounted for |
| `LoadStoreInvariant.ParkedOnce` | champsim/src/ooo_cpu.cc:526-528 | A parked load is listed by exactly one store |
| `LoadStoreInvariant.WrittenInProgramOrder` | champsim/src/ooo_cpu.cc:567-569 | The written stores are the first stores of the retired program |
| `FrontEnd.DecodeTakesPrefix` | champsim/src/ooo_cpu.cc:340-363 | The three loops take a prefix of the merged program order, no more than there is room for |
| `FrontEnd.DecodeKeepsOrder` | champsim/src/ooo_cpu.cc:365-400 | Decoding neither reorders nor loses instructions |
| `FrontEnd.PromoteKeepsOrder` | champsim/src/ooo_cpu.cc:300-320 | The stable partition between two buffers keeps the merged program order |
| `DramMapping.SwizzleBits` | champsim/src/dram_controller.cc:555-566 | The loop ends, its result fits the field, and permuting again gives the field back |
| `DramMapping.SwizzleEnds` | champsim/src/dram_controller.cc:555-566 | The loop, with a segment size that may be zero, returns after some number of turns exactly when the size is positive, and then returns the swizzled field |
| `DramMapping.SwizzleTwice` | champsim/src/dram_controller.cc:555-566 | For a fixed row the permutation is its own inverse |
| `DramMapping.SwizzleMixesRow` | champsim/src/dram_controller.cc:555-566 | Each result bit is the field bit exclusive or all row bits of its residue |
| `DramMapping.FieldsMixRow` | champsim/src/dram_controller.cc:568-592 | What the bank, bank group and channel getters return, bit by bit |
| `DramMapping.EncodeDecode` | champsim/src/dram_controller.cc:568-598 | Decoding an address below size() loses nothing |
| `DramMapping.DecodeEncode` | champsim/src/dram_controller.cc:568-598 | Every location and offset has an address that decodes to it |
| `DramMapping.CollisionIsSameLocation` | champsim/src/dram_controller.cc:417-422 | Below size(), two addresses collide exactly when they share channel, rank, bank group, bank, row and column |
| `DramMapping.CollisionSameLocation` | champsim/src/dram_controller.cc:417-422 | Colliding addresses share their location at any size |
| `DramMapping.BankIndexInRange` | champsim/src/dram_controller.cc:300-313 | Both request indices stay inside their arrays |
| `DramMapping.BankIndexInjective` | champsim/src/dram_controller.cc:300-313 | Two addresses have one bank index exactly when they share rank, bank group and bank |
| `DramMapping.SubBit` | champsim/inc/address.h:508-518 | A slice of a slice has the bits of the clamped extent |
| `DramMapping.FieldsAre` | champsim/inc/extent_set.h:52-69 | Contiguous extents start at the sum of the widths before them |
| `DramMapping.GlueFields` | champsim/inc/extent_set.h:52-69 | The fields of a contiguous extent set put back together are the address |
| `DramMapping.FieldsGlue` | champsim/inc/extent_set.h:52-69 | Any in-range field values are the fields of their concatenation |
| `DramRuns.BankStateMachine` | champsim/src/dram_controller.cc:132-202 | In every reachable state valid banks and scheduled slots correspond one to one, each request is at the bank, group and row of its address, scheduled slots are collision-checked, no valid bank is refreshing, and off the bus it serves the current mode |
| `DramRuns.NoReadLost` | champsim/src/dram_controller.cc:446-534 | Each accepted read's return queue and dependents are in a read slot of its block or in a response pushed since the read was accepted |
| `DramRuns.NoWriteLost` | champsim/src/dram_controller.cc:424-444 | Each accepted write's block is in a write slot until a write of that block has been done, counted since the write was accepted |
| `DramRuns.CycleLeavesDistinct` | champsim/src/dram_controller.cc:424-493 | After a cycle each queue holds pairwise distinct blocks |
| `DramRuns.RefreshNotDropped` | champsim/src/dram_controller.cc:164-202 | Over any run a refresh that is due stays due until the bank has been under refresh |
| `DramRuns.SecondHalfKeepsRefresh` | champsim/src/dram_controller.cc:164-202 | Within a cycle a due refresh is still owed or in progress after the steps that could take the bank |
| `DramRuns.ReachedInPlace` | champsim/src/dram_controller.cc:517-553 | Every queued request is at the place its address decodes to |
| `DramRuns.ServiceKeepsRefresh` | champsim/src/dram_controller.cc:343-366 | Servicing a packet never overwrites a pending refresh nor a valid bank |
| `DramRuns.MinBankIsFirst` | champsim/src/dram_controller.cc:251-252 | The scan with the source's comparator returns a valid bank with the earliest ready time if any bank is valid |
| `DramRuns.MinSlotIsPreferred` | champsim/src/dram_controller.cc:320-333 | The scan returns a waiting request, preferably one with an idle bank, and among those the longest ready |
| `DramRuns.SchedulesPreferred` | champsim/src/dram_controller.cc:316-341 | schedule_packet returns the preferred slot of the current mode's queue |
| `DramRuns.SwapLinked` | champsim/src/dram_controller.cc:204-244 | Swapping the mode releases exactly the banks off the bus and keeps the correspondence |
| `DramCycles.ResponsesJustified` | champsim/src/dram_controller.cc:143-162 | Outside warmup a response answers a queued read, and its block has a queued write or has come over the bus |
| `DramCycles.DoneOnBus` | champsim/src/dram_controller.cc:143-162 | Outside warmup the only write a cycle finishes is the one on the data bus |
| `DramCycles.ServedRowIsOpen` | champsim/src/dram_controller.cc:343-366 | In every reachable state a bank that serves a packet has the row of the packet's address open |
| `DramCycles.ServiceDelay` | champsim/src/dram_controller.cc:343-366 | A packet is serviced exactly when it is due and its bank idle and not refreshing; an open row costs the column access, a closed bank an activation too, another open row also a precharge |
| `DramCycles.BusTakesFirst` | champsim/src/dram_controller.cc:247-298 | A free bus takes a due bank with the earliest ready time exactly if one is due, and the data wait for the cooldown of the bank group |
| `DramCycles.SwapsAtWatermarks` | champsim/src/dram_controller.cc:204-216 | The mode changes to writes above seven eighths, or when only writes are queued, and back below six eighths if reads wait, or when no write is left |
| `DramCycles.ModeSettles` | champsim/src/dram_controller.cc:204-244 | Having changed, the mode does not change back at once, exactly unless the write queue is empty and has one slot |
| `DramCycles.SwapReleases` | champsim/src/dram_controller.cc:218-243 | A mode change releases every bank but the one on the bus, closes the row only if the access was nearly done, makes the requests wait again, and turns the bus around after the transfer |
| `DramCycles.RefreshFallsDue` | champsim/src/dram_controller.cc:164-185 | A refresh falls due every tREF, and then every bank owes one or has begun it |
| `DramCycles.RefreshRules` | champsim/src/dram_controller.cc:178-200 | A bank that owes a refresh begins it as soon as it is idle, for tRFC, and has no row open afterwards |
| `DramCycles.RefreshRowsWrap` | champsim/src/dram_controller.cc:164-176 | Refreshes advance through the rows modulo their number |
| `DramInvariant.CheckWritesLinked` | champsim/src/dram_controller.cc:424-444 | Removing colliding writes leaves no bank dangling |
| `DramInvariant.CheckWritesHolds` | champsim/src/dram_controller.cc:424-444 | The write check keeps exactly the blocks that were queued |
| `DramInvariant.CheckReadsLinked` | champsim/src/dram_controller.cc:446-493 | Removing colliding or forwarded reads leaves no bank dangling |
| `DramInvariant.FinishBusLinked` | champsim/src/dram_controller.cc:143-162 | Finishing the request on the bus frees its bank and its slot together |
| `DramInvariant.ScheduleRefreshLinked` | champsim/src/dram_controller.cc:164-202 | Refreshing touches idle banks only |
| `DramInvariant.PopulateBusLinked` | champsim/src/dram_controller.cc:247-298 | The bus takes a valid bank and only times change |
| `DramInvariant.ServicePacketLinked` | champsim/src/dram_controller.cc:343-366 | A serviced packet and the bank it takes point at each other |
| `DramInvariant.CheckReadsSorted` | champsim/src/dram_controller.cc:468-485 | Dependent and return lists stay sorted, as set_union needs |
| `DramDevice.DramChannelDevice.Operate` | champsim/src/dram_controller.cc:107-141 | One call of operate on the mutable channel is one cycle of the state machine |
| `DramDevice.DramChannelDevice.CheckWriteCollision` | champsim/src/dram_controller.cc:424-444 | The loop over the write queue, which keeps the set of blocks queued (`DramInvariant.CheckWritesHolds`) |
| `DramDevice.DramChannelDevice.CheckReadCollision` | champsim/src/dram_controller.cc:446-493 | The loop over the read queue with forwarding and the two merging branches |
| `DramDevice.DramChannelDevice.DrainQueues` | champsim/src/dram_controller.cc:111-130 | During warmup every read is answered and both queues are emptied |
| `DramDevice.DramChannelDevice.FinishDbusRequest` | champsim/src/dram_controller.cc:143-162 | Answers and removes the request on the bus when it is due |
| `DramDevice.DramChannelDevice.SwapMode` | champsim/src/dram_controller.cc:204-244 | The watermarks decide; scheduled requests are put back |
| `DramDevice.DramChannelDevice.RefreshAll` | champsim/src/dram_controller.cc:164-202 | The refresh pass over the banks |
| `DramDevice.DramChannelDevice.PopulateDbus` | champsim/src/dram_controller.cc:247-298 | Puts the first due bank on a free bus |
| `DramDevice.DramChannelDevice.NextToSchedule` | champsim/src/dram_controller.cc:316-341 | The left-to-right scan for the packet to schedule |
| `DramDevice.DramChannelDevice.Service` | champsim/src/dram_controller.cc:343-366 | Gives an idle bank that is not refreshing to a due packet |
| `DramDevice.DramChannelDevice.AddRq` | champsim/src/dram_controller.cc:517-534 | A read takes the first free slot, at the place of its address, or is refused when there is none |
| `DramDevice.DramChannelDevice.AddWq` | champsim/src/dram_controller.cc:536-553 | A write takes the first free slot, at the place of its address, or is refused when there is none |
| `Channels.MergeDeduplicates` | champsim/src/channel.cc:32-86 | Checking the write queue from its first unchecked entry on leaves one entry for each block exactly when the checked ones were distinct and entries of one block agree on translation |
| `Channels.CheckDeduplicates` | champsim/src/channel.cc:72-115 | One collision check leaves no two entries of equal block and flag in the write, read and prefetch queue exactly when the checked entries had none and, among those no write answers, equal entries agree with the first entry of their block |
| `Channels.MergeTwinless` | champsim/src/channel.cc:77-86 | The same for one queue, from any entry on |
| `Channels.ReadsForwardThenMerge` | champsim/src/channel.cc:88-114 | Forwarding and merging in one loop leaves the queue that forwarding first and merging afterwards leaves |
| `Channels.MixedFlagsKeepDuplicates` | champsim/src/channel.cc:38-46 | A queue with mixed flags in which duplicates remain |
| `Channels.ReadFromSorted` | champsim/src/channel.cc:50-114 | Dependent lists stay sorted through forwarding and merging |
| `Channels.MergeFromSorted` | champsim/src/channel.cc:50-86 | Dependent lists stay sorted through merging |
| `CacheDevice.ChannelDevice.CheckCollisions` | champsim/src/channel.cc:72-115 | The three loops over the queues of a channel |
| `CacheDevice.ChannelDevice.CheckReads` | champsim/src/channel.cc:88-114 | Reads are forwarded from the write queue, merged, or marked, in that order |
| `CacheDevice.ChannelDevice.CheckWriteQueue` | champsim/src/channel.cc:77-86 | Writes are merged into earlier ones or marked |
| `CacheDevice.ChannelDevice.AddRq` | champsim/src/channel.cc:117-151 | Appends an unchecked request unless the queue is full |
| `CacheRuns.NoRequestLost` | champsim/src/cache.cc:257-420 | For every request that asked for a response, its return queue and all its dependents stay in an entry of its block until a response carries them, pushed after the request was accepted and at the address, virtual or translated, that the request is for |
| `CacheRuns.MshrDiscipline` | champsim/src/cache.cc:617-640 | Miss registers name distinct blocks, never exceed MSHR_SIZE, those with data form a prefix in order of readiness, and no due entry waits behind one that is not due |
| `CacheRuns.AnswersAreExpected` | champsim/src/cache.cc:617-640 | A block is requested from below and unanswered exactly when a register waits for it, so finish_packet finds its register |
| `CacheRuns.NoBlockTwice` | champsim/src/cache.cc:169-255 | A cache that takes no writebacks never holds a block in two ways, nor one it is waiting for |
| `CacheDistinct.DistinctExactlyWhenClean` | champsim/src/cache.cc:327-396 | For any cache: no block is in two ways, and none both held and waited for, at each point of a run and however its fills are completed from there, exactly when no miss of the run finds a fill of its own block that it does not look for |
| `CacheDistinct.CleanRunsStayDistinct` | champsim/src/cache.cc:169-255 | A run of such misses, in any cache, ends with blocks distinct and none outstanding that is held |
| `CacheDistinct.MissApart` | champsim/src/cache.cc:327-396 | The guard on a miss decides whether the fills still to come are of different blocks |
| `CacheDistinct.ClashMeets` | champsim/src/cache.cc:169-255 | Two fills of one block on their way are led by time and fills alone to a block in two ways, or held and waited for |
| `CacheDistinct.WritebackCopiesBlock` | champsim/src/cache.cc:381-396 | A read miss, a writeback of the same block and the two fills leave the block in both ways of a set |
| `CacheWrites.WritesRememberedExactly` | champsim/src/cache.cc:107-301 | All along a run, and after each miss within a tag check, every block that a write hit or was handled for is dirty, about to be filled dirty, or written back since, exactly when no read is merged into the register of a write |
| `CacheWrites.NoWriteForgotten` | champsim/src/cache.cc:107-301 | So in a cache that fills its writebacks, and in any run without such a merge, no write is ever forgotten |
| `CacheWrites.MissForgetsExactly` | champsim/src/cache.cc:107-139 | A single miss keeps all writes remembered exactly if it is not such a merge |
| `CacheWrites.ReadForgetsWrite` | champsim/src/cache.cc:107-139 | A store miss followed by a load of its block, before the data is there: the reached state has forgotten the store |
| `CacheWrites.WritebacksCovered` | champsim/src/cache.cc:188-206 | Over any run the writebacks of a block, with those its dirty ways and write entries will cause, never outnumber the writes of it that were taken |
| `CacheChoices.ChecksWhatIsDue` | champsim/src/cache.cc:514-521 | A tag check looks at the lookups in front that are due and translated, as many as the bandwidth allows; it leaves some misses among them and all lookups behind |
| `CacheChoices.HitsTakenOut` | champsim/src/cache.cc:518 | The first pass takes out exactly the lookups that hit and keeps the order of the rest |
| `CacheChoices.MissWaitsExactly` | champsim/src/cache.cc:327-379 | A miss waits exactly when it is no writeback, no register has its block, and the registers are full or the level below refuses |
| `CacheChoices.MissGoesOn` | champsim/src/cache.cc:327-396 | Any other miss becomes a write to fill, joins the register of its block, or gets one with its block asked for, unless it is a prefetch not to be filled here |
| `CacheChoices.StashesWhatIsDue` | champsim/src/cache.cc:501-505 | Exactly the lookups that are due and not translated go to the end of the stash |
| `CacheChoices.PageTranslated` | champsim/src/cache.cc:642-669 | After a translation no lookup of its page waits for it any more |
| `CacheChoices.BeginsInOrder` | champsim/src/cache.cc:399-420 | A check begins with the front of a channel queue as far as bandwidth and stash allow, due after the hit latency, and remembers who asked |
| `CacheChoices.RestartsInOrder` | champsim/src/cache.cc:466-468 | Translated lookups leave the stash from the front, as far as the bandwidth allows |
| `CacheChoices.PrefetchesInOrder` | champsim/src/cache.cc:493-495 | So do prefetches of the cache, while the stash has room or they are translated |
| `CacheChoices.OnlyFillsHere` | champsim/src/cache.cc:303-325 | A prefetch of this cache that misses takes a register exactly if it is to be filled here |
| `CacheChoices.FillsWhenDue` | champsim/src/cache.cc:449-457 | The front entry is filled exactly when it is due and a dirty victim can go below |
| `CacheChoices.FillTakesOneWay` | champsim/src/cache.cc:169-236 | A fill changes one way of the set: an empty one while there is one, the victim otherwise; exactly a dirty block that leaves goes below |
| `CacheChoices.HitTouchesOneWay` | champsim/src/cache.cc:284-300 | A hit changes one way: a write makes it dirty, and a lookup from elsewhere ends its being a prefetched block |
| `CacheChoices.DataWaitsFillLatency` | champsim/src/cache.cc:617-640 | Data that comes back cannot be filled before the fill latency has passed, whatever happens meanwhile |
| `CacheChoices.LookupWaitsHitLatency` | champsim/src/cache.cc:399-420 | A lookup is neither answered nor missed before its ready time, whatever happens meanwhile |
| `CacheChoices.TakenWhileRoom` | champsim/src/channel.cc:117-175 | A queue takes a request exactly while it has room, at its end and unchecked |
| `CacheChoices.QueuesBounded` | champsim/src/channel.cc:117-175 | In every reachable state no queue holds more than it has room for |
| `CacheAnswers.AnswersAskedFor` | champsim/src/cache.cc:169-301 | Over any run, responses pushed to a return queue for a block never outnumber the accepted requests that asked for one |
| `CacheAnswers.CheckCovered` | champsim/src/channel.cc:72-115 | Merging and forwarding never make more responses due than were asked for |
| `CacheAnswers.MissCovered` | champsim/src/cache.cc:107-139 | Nor does merging a miss into a register |
| `CacheAnswers.TranslationCovered` | champsim/src/cache.cc:642-669 | Nor does moving a lookup to its physical block |
| `CacheSteps.FinishPacketMshr` | champsim/src/cache.cc:617-640 | Swapping the returned entry behind the other returned ones keeps the discipline |
| `CacheSteps.FillFrontMshr` | champsim/src/cache.cc:169-255 | Filling from the front keeps the discipline |
| `CacheSteps.MergeMshr` | champsim/src/cache.cc:107-139 | Merging a successor keeps the discipline |
| `CacheSteps.HandleMissMshr` | champsim/src/cache.cc:327-379 | A miss that merges, allocates or forwards keeps the discipline |
| `CacheSteps.DueFirst` | champsim/src/cache.cc:449-457 | Entries that are due form a prefix |
| `CacheInvariant.CheckUpperCarried` | champsim/src/channel.cc:72-115 | Collision checks of a channel lose no request: it is still in an entry, or answered since it was accepted |
| `CacheInvariant.MissCarried` | champsim/src/cache.cc:327-379 | A handled miss loses no request: its waiters are in the register or the write |
| `CacheInvariant.HitCarried` | champsim/src/cache.cc:257-301 | A hit answers, now, everyone who waits for the lookup |
| `CacheInvariant.FillFrontCarried` | champsim/src/cache.cc:169-255 | A fill answers, now, everyone who waits for the entry |
| `CacheInvariant.MergeCarries` | champsim/src/cache.cc:107-139 | A merged register carries the waiters of both |
| `CacheInvariant.FinishTranslationCarried` | champsim/src/cache.cc:642-669 | A translation moves waiting lookups to the block of their physical address |
| `CacheDevice.CacheUnit.FinishPacket` | champsim/src/cache.cc:617-640 | The two searches and the swap |
| `CacheDevice.CacheUnit.FinishTranslated` | champsim/src/cache.cc:642-669 | Translates lookups in place, and the stash's by a search, a stable partition and a marking loop, in front of those still waiting |
| `CacheDevice.CacheUnit.HandleFill` | champsim/src/cache.cc:169-255 | Victim choice, writeback, the block array and the responses |
| `CacheDevice.CacheUnit.TryHit` | champsim/src/cache.cc:257-301 | A hit answers and touches one block as `CacheChoices.HitTouchesOneWay` says, dirty if the lookup writes; a miss changes nothing |
| `CacheDevice.CacheUnit.HandleMissed` | champsim/src/cache.cc:327-396 | Merge, allocate, bypass or refuse |
| `CacheDevice.CacheUnit.CheckTags` | champsim/src/cache.cc:507-521 | Hits are removed first, then misses while they can be handled |
| `CacheDevice.CacheUnit.BeginFromUpper` | champsim/src/cache.cc:398-420 | Moves checked requests into the tag check in order |
| `CacheDevice.CacheUnit.StashMisses` | champsim/src/cache.cc:501-505 | Untranslated lookups that are due move to the stash |
| `CacheDevice.CacheUnit.PrefetchOne` | champsim/src/cache.cc:583-604 | Queues a prefetch unless the queue is full |
| `Algorithms.GetSpan` | champsim/inc/util/span.h:38-43 | Stops at the first element that fails, or at the bandwidth |
| `Algorithms.TransformWhileN` | champsim/inc/util/algorithm.h:41-49 | The span moves to the other list and leaves the queue |
| `Algorithms.ExtractIf` | champsim/inc/util/algorithm.h:27-39 | In place, what satisfies the test moves out and the rest closes up, both in order |
| `Algorithms.FilterSplits` | champsim/inc/util/algorithm.h:27-39 | The two parts together are the whole range |
| `LruTable.TableIsRecencyLists` | champsim/inc/msl/lru_table.h:127-166 | After any operations every set is a recency list of at most NUM_WAY distinct tags, and each answer was the list's answer |
| `LruTable.StepRefines` | champsim/inc/msl/lru_table.h:127-166 | One operation on timestamps is the same operation on recency lists |
| `LruTable.HitRefines` | champsim/inc/msl/lru_table.h:128-139 | check_hit is lookup and move to front |
| `LruTable.FillRefines` | champsim/inc/msl/lru_table.h:141-154 | fill puts the element in front, replacing its tag or dropping the last when full |
| `LruTable.InvalidateRefines` | champsim/inc/msl/lru_table.h:156-166 | invalidate removes the tag |
| `LruTable.MinMaxBounds` | champsim/inc/msl/lru_table.h:114-125 | minmax_element with the hand-written comparator returns a least and a greatest block |
| `LruTable.LruTable.CheckHit` | champsim/inc/msl/lru_table.h:128-139 | The search in the flat array and the timestamp |
| `LruTable.LruTable.Fill` | champsim/inc/msl/lru_table.h:141-154 | The pairwise scan and the overwrite |
| `LruTable.LruTable.Invalidate` | champsim/inc/msl/lru_table.h:156-166 | The search and the exchange |
| `LruTable.MakeTable` | champsim/inc/msl/lru_table.h:168-179 | Which sizes are refused, and with which error |
| `Bits.MaskTest` | champsim/inc/msl/lru_table.h:177 | The mask test accepts exactly the powers of two |
| `FoldedRegister.PushesThenValue` | champsim/branch/hashed_perceptron/folded_shift_register.h:49-97 | After any pushes, bit j of the value is the exclusive or of the most recent `length` history bits whose index is j modulo WORD_LEN, for every length |
| `FoldedRegister.ValueFoldsHistory` | champsim/branch/hashed_perceptron/folded_shift_register.h:55-70 | The fold of packed words is the fold of the history they hold |
| `FoldedRegister.PushHolds` | champsim/branch/hashed_perceptron/folded_shift_register.h:72-97 | Pushing a bit prepends it to the history |
| `FoldedRegister.FoldedShiftRegister.PushBack` | champsim/branch/hashed_perceptron/folded_shift_register.h:72-97 | Carries between the words and masks the last one |
| `FoldedRegister.FoldedShiftRegister.FoldedValue` | champsim/branch/hashed_perceptron/folded_shift_register.h:55-70 | Joins the words and unpacks them in a loop |
| `VirtualMemory.NothingIsShared` | champsim/src/vmem.cc:107-156 | Until the free list is used up, distinct virtual pages have distinct pages, none holds page-table entries, and distinct page-table keys have distinct addresses |
| `VirtualMemory.RequestsShareExactly` | champsim/src/vmem.cc:107-156 | Until the free list is used up: two lookups have one page exactly for one processor and virtual page, two walks one address exactly for one processor, level and region of virtual pages, and no walk leads into a data page |
| `VirtualMemory.WalksShareSlots` | champsim/src/vmem.cc:132-134 | However often the list was filled, two walks have one slot exactly for one processor, level and virtual page number without the bits of the levels below |
| `VirtualMemory.AnswerPointsAtRegion` | champsim/src/vmem.cc:141-145 | The offset in the answer to a walk is that number modulo the entries of a page-table page |
| `VirtualMemory.FirstRequestFaults` | champsim/src/vmem.cc:107-156 | A request pays the fault penalty exactly when none before it was for the same page or entry |
| `VirtualMemory.DistinctUntilRefilled` | champsim/src/vmem.cc:57-68 | No page is handed out twice exactly as long as no more pages were handed out than the list had |
| `VirtualMemory.AnswersRepeat` | champsim/src/vmem.cc:107-156 | A repeated request gets the first answer with no penalty, whatever happened in between |
| `VirtualMemory.WhatALookupTakes` | champsim/src/vmem.cc:127-130 | A page-table walk takes a page exactly when no slot is open, also without a fault |
| `VirtualMemory.WalksUseUpTheList` | champsim/src/vmem.cc:127-130 | With page-table pages as large as pages every walk takes one |
| `VirtualMemory.PagesFitMemory` | champsim/src/vmem.cc:57-68 | When the pages handed out fit the memory |
| `VirtualMemory.PteAddressFields` | champsim/src/vmem.cc:141-145 | An entry's address names its page, its slot and its offset |
| `VirtualMemory.RunOwned` | champsim/src/vmem.cc:107-156 | Each hand-out belongs to one translation or to the page table, each slot to one entry |
| `VirtualMemory.VirtualMemory.VaToPa` | champsim/src/vmem.cc:107-123 | Looks up or allocates, with the fault penalty |
| `VirtualMemory.VirtualMemory.GetPtePa` | champsim/src/vmem.cc:125-156 | As va_to_pa for an entry of the page table, with the keys that `VirtualMemory.WalksShareSlots` describes |
| `VirtualMemory.VirtualMemory.PpagePop` | champsim/src/vmem.cc:95-103 | Takes the front page and fills the list again when it is empty |
| `VirtualMemory.VirtualMemory.PopulatePages` | champsim/src/vmem.cc:57-68 | The list is the consecutive pages above the reserved memory |
| `VirtualMemory.VirtualMemory.ShufflePages` | champsim/src/vmem.cc:70-74 | The list is an arbitrary rearrangement of itself |
| `SppPatterns.ConfidencesShareHundred` | champsim/prefetcher/spp_dev/spp_dev.cc:291-349 | After any updates of a set no assertion has failed and the confidences of its ways add up to at most 100 |
| `SppPatterns.UpdateKeepsCounts` | champsim/prefetcher/spp_dev/spp_dev.cc:291-349 | An update finds a victim, the counters sum to at most c_sig <= C_SIG_MAX also across halving, and a delta has one live counter |
| `SppPatterns.UpdateCountsOne` | champsim/prefetcher/spp_dev/spp_dev.cc:291-349 | An update counts for one way: the first with the delta goes up by one, or the first least counted takes the delta and starts again; the update that overflows the set halves its counters |
| `SppPatterns.UpdatesAreCounted` | champsim/prefetcher/spp_dev/spp_dev.cc:291-349 | After n updates of a fresh set c_sig is n up to C_SIG_MAX, and goes round between 8 and 15 from then on |
| `SppPatterns.ScanIsFirstMinimum` | champsim/prefetcher/spp_dev/spp_dev.cc:316-325 | The victim scan finds the first smallest counter, and none exactly when no counter is below C_SIG_MAX |
| `SppPatterns.LookaheadIsFirstMaximum` | champsim/prefetcher/spp_dev/spp_dev.cc:360-373 | The lookahead way is the first most confident candidate, if there is a candidate |
| `SppPatterns.CandidatesShareBudget` | champsim/prefetcher/spp_dev/spp_dev.cc:357-366 | Candidates at any depth lie at or above the threshold and add up to at most 100, or deeper to at most the confidence of the path scaled by the accuracy |
| `SppPatterns.CandidatesAreAll` | champsim/prefetcher/spp_dev/spp_dev.cc:357-366 | Exactly the ways at or above the threshold are proposed, each with its delta and confidence, in order |
| `SppPatterns.ConfidenceIsShare` | champsim/prefetcher/spp_dev/spp_dev.cc:359-360 | The confidence is the way's share of the updates in percent, rounded down, and deeper the accuracy's part of it in percent of the path's |
| `SppPatterns.LookaheadFalls` | champsim/prefetcher/spp_dev/spp_dev.cc:357-387 | With an accuracy of at most 100 percent the lookahead confidence never rises from one depth to the next |
| `SppPatterns.PatternTable.UpdatePattern` | champsim/prefetcher/spp_dev/spp_dev.cc:291-349 | The arrays of one set are updated as specified and no other set changes |
| `SppPatterns.PatternTable.ReadPattern` | champsim/prefetcher/spp_dev/spp_dev.cc:351-400 | At any depth the candidates are appended at the tail in way order, the rest of the queues is unchanged, and way, confidence, tail and depth are as the scan leaves them; without history one confidence is cleared |
| `SppSignatures.VictimAlwaysFound` | champsim/prefetcher/spp_dev/spp_dev.cc:234-286 | In any run of accesses the "no victim" assertion is unreachable, and lru values order the ways by their last use |
| `SppSignatures.SignaturesFollowTrails` | champsim/prefetcher/spp_dev/spp_dev.cc:170-289 | In every run each page in the table has the signature of the deltas it made since it entered, from the signature it entered with, and the offset it was last at |
| `SppSignatures.ReadingsFollowTrails` | champsim/prefetcher/spp_dev/spp_dev.cc:170-289 | An access of such a page reads that signature, the new delta and the signature they make; no delta, or a page that enters, trains nothing |
| `SppSignatures.ReadKeepsTable` | champsim/prefetcher/spp_dev/spp_dev.cc:170-289 | lru stays a permutation, valid tags stay distinct, the page accessed ends up in front, and training is asked for only with a nonzero delta |
| `SppSignatures.LruIsRecency` | champsim/prefetcher/spp_dev/spp_dev.cc:273-288 | The aging loop keeps the ways ordered by last use |
| `SppSignatures.VictimIsLeastRecent` | champsim/prefetcher/spp_dev/spp_dev.cc:237-252 | The way with the greatest value was used least recently |
| `SppSignatures.HistoriesMeet` | champsim/prefetcher/spp_dev/spp_dev.cc:193-198 | Two histories that end in the same four deltas have the same signature |
| `SppSignatures.SigDeltaInjective` | champsim/prefetcher/spp_dev/spp_dev.cc:195-197 | Deltas within a page have distinct seven-bit codes |
| `SppSignatures.SignatureTable.ReadAndUpdateSig` | champsim/prefetcher/spp_dev/spp_dev.cc:170-289 | The searches, the writes and the aging loop on the arrays are the specified access |
| `SppSignatures.SignatureTable.Promote` | champsim/prefetcher/spp_dev/spp_dev.cc:273-288 | The aging loop; its assertion on the lru values holds |

## Left out

- Trace reading, command line, configuration generation, statistics, printing and deadlock detection: input, output and counters that nothing above depends on.
- Floating point: tRFC, default latencies and instructions per cycle; the results are parameters.
- Branch predictor, branch target buffer, decoded-instruction buffer and L1I: their answers are arbitrary inputs of each cycle, so fetch stalls, mispredict penalties and which instruction a response belongs to are not modelled.
- Stack pointer folding and the choice of architectural registers for an instruction: a trace instruction arrives with its registers.
- `reset_frontend_RAT`: the core never calls it.
- Fields that only travel with a request: asid, instruction pointer, data, prefetch metadata and cpu number in caches and DRAM.
- Bandwidth arithmetic of `CACHE::operate` and the rotation of upper levels: each step moves an arbitrary number of entries, and steps come in any order, which includes the source's.
- Replacement policy and prefetcher decisions: an arbitrary victim in range, or none, and arbitrary prefetches.
- `CACHE::invalidate_entry`: a single search and reset.
- Progress: every theorem says what holds after any number of steps, not that a step is taken in time.
- Channel selection by `MEMORY_CONTROLLER` and retries in `initiate_requests`: one channel is modelled, with requests arriving at it.
- Bus congestion counters: statistics.
- Prefetch filter, global history register and lookahead loop of the signature path prefetcher: the entry a history lookup returns, the accuracy and the confidence of the path so far are inputs of one read.
- `get_hash` of the same prefetcher: the index of a pattern set is an input.
- `ooo_cpu.cc` sub-steps that only touch statistics or the branch state of an instruction.
- VirtualMemory.Upper: a virtual page is any natural number, not only one of 64 minus LOG2_PAGE_SIZE bits; levels whose bits do not fit 64 are excluded by the configuration, where the source throws.
- LruTable: the check that a set index has an integer type, which is a property of C++ types.
