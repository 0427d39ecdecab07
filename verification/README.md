# Proofs about the TTL caches and the shims beneath them

This project models, in Dafny, the two TTL caches of the benchmark suite, the epoch-based
reclamation they rest on, the atomic and threading shims, and the PlantUML text tools, and proves
what they promise.

- **Lock-free cache** (`Cache*.dfy`). Any number of threads probe, store and sweep one table of
  compare-and-swapped pointers. The machine of `CacheMachine` has one transition per atomic
  step: a load, a compare-and-swap, each half of entering an epoch section, the node push of a
  retirement, each look of the reclaimer at a thread, the advance, each cleanup call, each
  counter update. Reclamation is not assumed: the scan, the advance and the two-epoch
  grace period of `src/mem/epoch.c` are steps of the machine, with the epoch compared as the 32-bit
  word the program stores. `CacheTable` is the same table run by one thread, as a class over an
  array with the probe loops.
- **Epoch-ring cache** (`Ring*.dfy`). Workers SET, GET and DELETE in sharded maps while a rotation cleans
  the next slot of a ring of generations key by key and then frees its items. A critical
  section is one step, except that a GET finds its item and reads it in two. The growing lists and the two rotation loops are methods on arrays.
- **Shims** (`AtomicCell`, `FallbackCells`, `NegatedAdd`, `PthreadShims`): compare-and-swap loops, the
  64-lock fallback, fetch-sub by negated add, `pthread_once`, and the read-write lock
  that infers its unlock mode from a flag. The contracts are those of sections 7.17.7.3 to
  7.17.7.5 of ISO/IEC 9899:2011 and of `pthread_once` and `pthread_rwlock_unlock` in the System
  Interfaces volume of IEEE Std 1003.1-2017.
- **Mixers, pacing, PlantUML** (`Hashing`, `WritePacing`, `PlantEncoding`, `LayoutGuards`).

## How the steps follow the code

| step of the model | code |
|---|---|
| `DoLoad`, `DoInspect`, `DoRemove`, `DoInsert` | the loads and exchanges of lookup, store and sweep, `bench/ttl-cache-multithread-bench/ttl_cache_bench_lockfree.c` lines 339-432; a lost exchange ends a lookup as a miss and moves a store to the next bucket |
| `BeginWrite`, `Fresh`, `GiveBack` | allocation, filling and direct free of a block, lines 471-486 |
| `RetireLoad`, `RetirePush`, `DropNode` | reading the epoch, pushing the node, and giving up without memory for a node, `src/mem/epoch.c` lines 505-543 |
| `Account`, `AccountRetired`, `Flush`, `Drain` | the additions to shared counters, the flush of a worker and the reporter's exchange, lines 363, 426-427, 569-595 and 880-888 of the benchmark |
| `EnterSection`, `Entering`, `Entered`, `ExitSection` | `include/ttak/mem/epoch.h` lines 77-94 |
| `ReclaimBegin` to `ReclaimEnd` | `src/mem/epoch.c` lines 557-639; a call that advances does not end before everything retired and of age at the advance is freed |
| `Choose`, `Make`, `RecordItem`, `InsertEntry`, `RecordKey` | SET, `bench/ttl-cache-multithread-bench/ttl_cache_bench.c` lines 257-282 |
| `GetFind`, `GetRead`, `GetMiss` | GET, lines 237-254 of the same file: the lookup and the read of the first byte under one read lock, which keeps writers of the shard out, but not the bulk free |
| `BeginRotation` to `Publish` | rotation, lines 310-353 of the same file |

Fields marked *history* (who unlinked a block, which pointers a section has read, which readers a
scan has missed, the log of swaps) are never read by a step.

## Findings

- **The scan can miss a lagging reader.** It compares a thread's epoch with the current one as plain
  32-bit words (`src/mem/epoch.c` lines 582-586), although the comment on ageing (lines 604-605) promises that a
  wrapped counter still works. A reader is *exposed* if a scan missed it while it lagged and the epoch advanced before it
  left its section (`CacheSafety.ExposedByOversight`). In every run, every reader that is not exposed is safe, whoever else is;
  the lifecycle of payloads, the counters and the sweeper's bound hold in every run without exception.
  `CacheWrap.SafeExactlyWithoutMistakes`: if scans pass over active threads only with epochs from some set of
  pairs, all such runs are safe for all readers if and only if the set has no pair that is compared wrongly; each wrong pair
  alone is the one comparison of a run that frees a payload in a reader's hand
  (`CacheWrap.FreedUnderReader`). In particular runs are safe when no section that a scan passes over
  straddles a wrap (`SafeWithoutStraddling`), and 2^32 is the largest number of advances within which every
  run is safe (`GracePeriodIsExact`); many longer runs are safe too.
- **Grace calls can leave one node.** `include/ttak/mem/epoch.h` lines 108-110 promise that, with nobody inside, two consecutive
  calls free everything retired before them. `CacheGrace.GraceCallsFree`: they do, except for a node that is one
  epoch short of a whole turn of the 32-bit counter old. Some run reaches such a node (`LateNodeStays`).
- **A live key can be missed.** Unlinking leaves a hole, and a lookup stops at holes. `CacheHoles.LiveKeyIsFound`
  says exactly when a lookup finds a linked, live key, and `CacheHoles.NeverHidesExactly` exactly which
  tables never hide one: those with one probe, one bucket, a time to live of at most one tick, or keys that all have
  different homes; the last is impossible with more keys than buckets (`MoreKeysThanBuckets`).
- **A slow SET dangles.** If a SET is still on its way to an entry when the ring comes round to its slot, its item is
  freed and its entry then points to it. `RingLimits.ClearIsExact` gives, at each state, the exact condition for
  a rotation to be safe, and `RingLimits.DisciplineIsExact` the exact condition on any rule for beginning rotations.
  The same condition decides whether a GET can read a freed item (`ReadsAreExact`).
  Waiting for all SETs on the slot is enough (`WaitingIsEnough`); the program goes by the clock alone, which is not (`ClockDangles`).
- **Index 1 expires early.** Slots 0 and 1 share id 1 (`ttl_cache_bench.c` lines 352 and 505), so an entry written at
  index 1 can go one rotation early: exactly if slot 0 lists its key, or is about to, and is still to be
  cleaned of it (`RingIndexOne.IndexOneGoesExactly`; `RingLimits.IndexOneGoesEarly` is a run).
- **Subtracting a narrower unsigned operand adds.** `NegatedAdd.NegatedAddSubtracts` says exactly when
  the negated add of `include/stdatomic.h` lines 119-120 is a subtraction.
- **A write share of zero still writes.** With a shift of at most 30, the largest the environment can set, a
  share of 0 becomes at least one percent: `WritePacing.ZeroShareStillWrites`.
- **A blank last line can be lost** by `inject_layout_guards`: `LayoutGuards.LinesSurvive` says exactly when, and
  `BlankLineLost` gives a text.

## Model

| member | source | states |
|---|---|---|
| CacheInvariant.StepKeepsInv | bench/ttl-cache-multithread-bench/ttl_cache_bench_lockfree.c:339-432 | Every step of every thread, of the reporter and of the reclaimer keeps the one invariant that ties buckets, blocks, owners, unretired winners, retired nodes, pools, epochs and the readers that are not exposed together. |
| CacheInvariant.RunKeepsInvariant | bench/ttl-cache-multithread-bench/ttl_cache_bench_lockfree.c:497-624 | The invariant holds in every state reached by an interleaving, of any length, whatever scans miss. |
| CacheInvariant.AgedIsUnseen | src/mem/epoch.c:602-611 | A node that the reclaimer finds of age belongs to a block that no thread inside a section, unless exposed, has read since it entered. |
| CacheInvariant.AgeIsExact | src/mem/epoch.c:604-606 | The unsigned 32-bit age reaches the grace period only if the true age does. |
| CacheInvariant.ScanComparesEpochs | src/mem/epoch.c:582-586 | Within any one 2^32 block of epochs, comparing the stored words is comparing the epochs. |
| CacheInvariant.FreeEffect | bench/ttl-cache-multithread-bench/ttl_cache_bench_lockfree.c:281-287 | The cleanup callback returns the block to the pool it came from, which is the pool its header names. |
| CacheSafety.GraceSafety | include/ttak/mem/epoch.h:77-94 | In every run, a pointer read inside a section by a thread that is not exposed is still the allocation it was read from, is in no pool, and is linked, or unlinked and awaiting its retire, or retired in an epoch the reader holds back, or leaked because no node could be had. |
| CacheSafety.ExposedByOversight | src/mem/epoch.c:582-592 | A thread becomes exposed only by an advance after a scan that compared its lagging epoch and passed over it because the words did not show the lag; leaving the section ends it. |
| CacheSafety.NoUseAfterFree | bench/ttl-cache-multithread-bench/ttl_cache_bench_lockfree.c:346-373 | No instruction of a thread that is not exposed, about to read through a pointer it took from the table, finds the block freed or reused, in any run. |
| CacheSafety.SeenUntilExit | include/ttak/mem/epoch.h:91-94 | Protection of a pointer ends only by the reader's own leaving of the section. |
| CacheSafety.RemovalIsNotAba | bench/ttl-cache-multithread-bench/ttl_cache_bench_lockfree.c:359-369 | In every run, when a removing exchange of a thread that is not exposed succeeds, the bucket holds the very allocation inspected, with the same key and expiry; lookup and sweep remove only what has expired at their own time, store only its own key or what has expired. |
| CacheSafety.LinkedOnceAtATime | bench/ttl-cache-multithread-bench/ttl_cache_bench_lockfree.c:384-408 | In every run no block is in two buckets, and a linked block is not in a pool, not retired, and owned by nobody. |
| CacheSafety.WonByOne | bench/ttl-cache-multithread-bench/ttl_cache_bench_lockfree.c:487-490 | In every run at most one thread has won a block's removal, it has no node before that thread retires it, and never two nodes. |
| CacheSafety.PayloadLifecycle | bench/ttl-cache-multithread-bench/ttl_cache_bench_lockfree.c:471-495 | In every run any step leaves a block as it is, or takes it along allocate, fill, link or give back, unlink, retire, return to the home pool, each by the thread entitled to it, and each change of status raises the stage of the allocation. |
| CacheSafety.StageGrowsOverRuns | bench/ttl-cache-multithread-bench/ttl_cache_bench_lockfree.c:471-495 | Over any run the stage never falls, so each edge is taken at most once in an allocation. |
| CacheSafety.LinkedOnceInALife | bench/ttl-cache-multithread-bench/ttl_cache_bench_lockfree.c:384-408 | An allocation linked now and linked later is in the same bucket: it never moved. |
| CacheSafety.FailedStoreWasPrivate | bench/ttl-cache-multithread-bench/ttl_cache_bench_lockfree.c:483-486 | In every run: when a failed store frees its block directly, every pointer into the block that any thread has read, at any earlier point, was into an earlier allocation of it. |
| CacheWrap.SafeExactlyWithoutMistakes | src/mem/epoch.c:573-592 | For every set of epoch pairs: all runs whose scans pass over active threads only with pairs from the set are safe if and only if no pair in it is a lag that the words do not show. |
| CacheWrap.SafeWithoutStraddling | src/mem/epoch.c:582-586 | All runs, of any length, are safe in which no section that a scan passes over straddles a wrap of the counter. |
| CacheWrap.GracePeriodIsExact | src/mem/epoch.c:557-639 | Every run with at most n advances is safe, for exactly the n up to 2^32. |
| CacheWrap.FreedUnderReader | src/mem/epoch.c:582-587 | For any two epochs whose lag the words do not show, a run that makes this one comparison and returns to the pool the payload a reader is about to read. |
| CacheWrap.ScanSeesLagUnlessWrapped | src/mem/epoch.c:582-586 | For epochs less than 2^32 apart, the scan's comparison is right if and only if they do not straddle a wrap. |
| CacheGrace.CallsFreeWhatAges | src/mem/epoch.c:594-611 | With nobody inside, a node is still queued after k calls if and only if its age, as the program computes it, stayed below the grace period in each of them. |
| CacheGrace.GraceCallsFree | include/ttak/mem/epoch.h:103-111 | With nobody inside, as many consecutive calls as the grace period free a node retired before them if and only if its age is not one short of a multiple of 2^32. |
| CacheGrace.LateNodeStays | src/mem/epoch.c:602-611 | A run reaches such a node, with nobody inside and no call under way. |
| CacheConservation.StepBalance | bench/ttl-cache-multithread-bench/ttl_cache_bench_lockfree.c:537-595 | Each step changes the weighed sum of drained, shared, local and owed counts by exactly the links it makes or breaks. |
| CacheConservation.Conservation | bench/ttl-cache-multithread-bench/ttl_cache_bench_lockfree.c:880-888 | With no operation in progress: writes = linked payloads + retirements, retirements = expired lookups + cleanups + replacements, reads = hits + misses + expired lookups, and evictions = replacements of another key, however counts are spread over drained, shared and local counters. |
| CacheSweep.BoundedReclamation | bench/ttl-cache-multithread-bench/ttl_cache_bench_lockfree.c:414-433 | In every run, a payload linked and expired when ceil(buckets / budget) consecutive sweeper calls begin is not linked when they end, whatever others do. |
| CacheSweep.StepKeepsRound | bench/ttl-cache-multithread-bench/ttl_cache_bench_lockfree.c:608-617 | Every step, of the sweeper or another thread, keeps the target's bucket ahead of the sweeper while the target is linked. |
| CacheSweep.RoundVisitsAll | bench/ttl-cache-multithread-bench/ttl_cache_bench_lockfree.c:419-432 | As many consecutive buckets as the table has, from any cursor, include every bucket. |
| CacheTable.BucketCount | bench/ttl-cache-multithread-bench/ttl_cache_bench_lockfree.c:310-318 | The bucket count is the least power of two that suffices, and 2^20 when doubling overflows. |
| CacheTable.Table.constructor | bench/ttl-cache-multithread-bench/ttl_cache_bench_lockfree.c:310-326 | The new table has that many buckets, all empty. |
| CacheTable.Table.Lookup | bench/ttl-cache-multithread-bench/ttl_cache_bench_lockfree.c:339-374 | The probe loop answers from the first probe that is empty or holds the key, and unlinks exactly an expired payload found there. |
| CacheTable.Table.Store | bench/ttl-cache-multithread-bench/ttl_cache_bench_lockfree.c:376-412 | The loop writes the payload at the first probe that is empty, of the key, or expired, reports what it displaced and whether of another key, and changes nothing else. |
| CacheTable.Table.Cleanup | bench/ttl-cache-multithread-bench/ttl_cache_bench_lockfree.c:414-433 | Exactly the expired payloads of the swept buckets are gone, the count is their number, and the cursor moved on. |
| CacheTable.SlotDist | bench/ttl-cache-multithread-bench/ttl_cache_bench_lockfree.c:343-371 | The probe number computed for a bucket leads to that bucket. |
| CacheTable.DistSlot | bench/ttl-cache-multithread-bench/ttl_cache_bench_lockfree.c:343-371 | Within one turn a bucket has one probe number. |
| CacheHistory.HistoryIsOrderly | bench/ttl-cache-multithread-bench/ttl_cache_bench_lockfree.c:339-433 | After any calls in time order with one TTL, copies of each key are newest-first in probe order, for every table size and probe limit. |
| CacheHistory.NoStaleHit | bench/ttl-cache-multithread-bench/ttl_cache_bench_lockfree.c:351-357 | A hit returns the payload of the most recent successful store of the key, despite holes, duplicates and takeovers. |
| CacheHistory.StoreGoesFirst | bench/ttl-cache-multithread-bench/ttl_cache_bench_lockfree.c:384-408 | A store lands at or before every copy of its key in probe order. |
| CacheHistory.LookupFindsFirst | bench/ttl-cache-multithread-bench/ttl_cache_bench_lockfree.c:345-372 | The copy a lookup stops at is in front of all other copies. |
| CacheMap.TableIsMap | bench/ttl-cache-multithread-bench/ttl_cache_bench_lockfree.c:339-412 | While nothing linked has expired, a lookup hits, with the last stored payload, if and only if some store of the key succeeded. |
| CacheMap.CalmHistoryIsMap | bench/ttl-cache-multithread-bench/ttl_cache_bench_lockfree.c:339-412 | In such histories every payload is within its probes with no hole before it, and keys have one copy. |
| CacheHoles.LiveKeyIsFound | bench/ttl-cache-multithread-bench/ttl_cache_bench_lockfree.c:345-372 | After any calls in time order, a lookup of a key whose latest payload is linked and live hits it if no bucket on the way to it is empty, and misses otherwise. |
| CacheHoles.NeverHidesExactly | bench/ttl-cache-multithread-bench/ttl_cache_bench_lockfree.c:347-350 | With keys below any given bound, a table hides no live key in any history if and only if it probes at most one bucket, has one bucket, keeps payloads for at most one tick, or no two of the keys share a home. |
| CacheHoles.MoreKeysThanBuckets | bench/ttl-cache-multithread-bench/ttl_cache_bench_lockfree.c:347-350 | With more keys than buckets, only the first three of these remain, whatever the hash. |
| CacheHoles.HoleHidesLiveKey | bench/ttl-cache-multithread-bench/ttl_cache_bench_lockfree.c:347-369 | In every other table, any two keys of one home have a history in which one hides the other. |
| RingLists.GrowingList.Record | bench/ttl-cache-multithread-bench/ttl_cache_bench.c:200-218 | Appends in place, doubling (or to 4096 from 0) when full; without memory it reports failure and leaves the list as it was. |
| RingLists.CleanShard | bench/ttl-cache-multithread-bench/ttl_cache_bench.c:320-338 | Deletes exactly the entries of listed keys that point to items of the epoch's id, counts them, and empties the list, though keys repeat. |
| RingLists.FreeAll | bench/ttl-cache-multithread-bench/ttl_cache_bench.c:344-349 | Frees every listed item, once per listing, and empties the list. |
| RingLists.FreeEachCounts | bench/ttl-cache-multithread-bench/ttl_cache_bench.c:345-347 | An item is freed as often as it is listed, and others not at all. |
| RingInvariant.StepKeepsBase | bench/ttl-cache-multithread-bench/ttl_cache_bench.c:237-353 | Every step keeps, whenever rotations begin, the ties between items, item lists, free counts, slot ids, SETs in flight and GETs under way. |
| RingInvariant.StepKeepsInv | bench/ttl-cache-multithread-bench/ttl_cache_bench.c:237-353 | Every step, if rotations begin in clear states only, keeps besides that map entries point to unfreed items of the slot that lists their key. |
| RingInvariant.TargetEntriesAreDropped | bench/ttl-cache-multithread-bench/ttl_cache_bench.c:325-334 | Each entry of the shard being cleaned that points into the target slot is one that cleaning drops. |
| RingInvariant.FreeItemsOnce | bench/ttl-cache-multithread-bench/ttl_cache_bench.c:344-349 | The bulk free frees each item of the target exactly once, though it walks a list, and no other item. |
| RingInvariant.NothingPointsToTarget | bench/ttl-cache-multithread-bench/ttl_cache_bench.c:344-349 | When it comes, no map entry points to an item it frees, if rotations began in clear states. |
| RingSafety.NoDanglingEntry | bench/ttl-cache-multithread-bench/ttl_cache_bench.c:310-350 | In every run whose rotations begin in clear states, each map entry points to an unfreed item, with its slot's id, on its list, whose key is listed or about to be. |
| RingSafety.GetReadsUnfreed | bench/ttl-cache-multithread-bench/ttl_cache_bench.c:237-254 | In such runs a GET that has found an item reads it unfreed, although the bulk free takes no lock. |
| RingSafety.FreedExactlyOnce | bench/ttl-cache-multithread-bench/ttl_cache_bench.c:310-350 | In every run, whenever rotations begin: no item is freed twice; until freed it is on exactly one slot's list or with the SET that made it, afterwards on none. |
| RingSafety.CleaningDeletes | bench/ttl-cache-multithread-bench/ttl_cache_bench.c:325-334 | After clear beginnings, cleaning deletes an entry if and only if its key is listed there and it was written one turn ago, or at index 1 by the rotation that cleans slot 0. |
| RingSafety.EntryLeavesOnTime | bench/ttl-cache-multithread-bench/ttl_cache_bench.c:310-353 | In every run, apart from a SET or DELETE of the key, only a rotation whose slot lists the key takes an entry out, and none before the one a turn after its index, except that index 1 may go one rotation early. |
| RingSafety.RetainedForATurn | bench/ttl-cache-multithread-bench/ttl_cache_bench.c:310-353 | In every run, an entry of any index i that is not written over or deleted stays until a rotation to i + max_epochs begins; for index 1, unless slot 0 lists its key, or is about to, and is still to be cleaned of it. |
| RingSafety.GoneAfterATurn | bench/ttl-cache-multithread-bench/ttl_cache_bench.c:310-353 | After clear beginnings, once the rotation to i + max_epochs is published, no entry of index i is left. |
| RingLimits.ClearIsExact | bench/ttl-cache-multithread-bench/ttl_cache_bench.c:307-313 | At each state reached by clear beginnings, for every ring size: a rotation that begins here can, with clear beginnings after it, lead to a dangling entry if and only if a SET is on its way to an entry on the slot or an entry points into it under a key not listed there. |
| RingLimits.DisciplineIsExact | bench/ttl-cache-multithread-bench/ttl_cache_bench.c:307-353 | Whatever the rule for beginning rotations, its runs never have a dangling entry if and only if it begins them in such states only. |
| RingLimits.ReadsAreExact | bench/ttl-cache-multithread-bench/ttl_cache_bench.c:237-254 | Whatever the rule for beginning rotations, no GET in its runs is ever about to read a freed item if and only if it begins them in such states only. |
| RingLimits.WaitingIsEnough | bench/ttl-cache-multithread-bench/ttl_cache_bench.c:257-282 | A rule that waits for all SETs on the slot never has a dangling entry. |
| RingLimits.ClockDangles | bench/ttl-cache-multithread-bench/ttl_cache_bench.c:305-313 | The program's rule, the clock alone, has one in some run. |
| RingLimits.IndexOneGoesEarly | bench/ttl-cache-multithread-bench/ttl_cache_bench.c:498-506 | A run in which every rotation waits and an entry of index 1 is deleted by the rotation to max_epochs. |
| RingIndexOne.IndexOneGoesExactly | bench/ttl-cache-multithread-bench/ttl_cache_bench.c:315-353 | In every run: an entry of index 1 can go, by steps that do not touch its key, before the rotation to 1 + max_epochs begins if and only if slot 0 lists its key, or is about to, and is still to be cleaned of it. |
| AtomicCell.CasLoopIsAtomic | include/stdatomic.h:600-634 | In every interleaving of fetch_sub, fetch_or, fetch_and and exchange loops, also with spurious failures, the swaps are a sequential run on one cell, and each call returns the value at its own swap. |
| AtomicCell.FetchSubsAddUp | include/stdatomic.h:600-605 | N fetch_subs in any interleaving end at the initial value minus the sum of operands modulo 2^w. |
| AtomicCell.FailureIsExplained | include/stdatomic.h:386-392 | A non-spurious failure means another thread changed the cell since this one looked. |
| FallbackCells.FallbackIsAtomic | include/stdatomic.h:530-557 | Under the 64 address-chosen locks, every interleaving leaves the memory what the callers' own operations, done one at a time, leave, and each that has returned reports its value there. |
| FallbackCells.OneInside | include/stdatomic.h:530-551 | Two operations on one cell are never in their critical sections together. |
| NegatedAdd.NegatedAddSubtracts | include/stdatomic.h:119-120 | Adding the negated operand subtracts, whatever the cell holds, if and only if the operand is 0, signed, or at least as wide as the cell. |
| NegatedAdd.NarrowOperandAdds | include/stdatomic.h:119-120 | A 64-bit 10 minus a 32-bit unsigned 1 becomes 10 + 2^32 - 1. |
| PthreadOnce.OnceRunsOnce | include/pthread.h:225-237 | For any number of callers the routine starts at most once, every caller that has returned did so after it completed, and the control word only steps 0, 1, 2. |
| PthreadOnce.SomebodyWorksWhileOthersWait | include/pthread.h:225-237 | While the word is 1, some thread is running the routine or about to publish it. |
| PthreadRwLock.UnlockReleasesHeldMode | include/pthread.h:188-205 | When holders unlock, the flag read is set exactly if the thread holds the lock exclusively, it is clear while the lock is shared, and each release is of the mode held. |
| PthreadRwLock.Exclusion | include/pthread.h:188-205 | While a thread writes, no other is between lock and unlock. |
| Hashing.Mix | bench/ttl-cache-multithread-bench/ttl_cache_bench_lockfree.c:301-308 | The result is a 64-bit word from which the inverse steps give the key back. |
| Hashing.MixIsBijection | bench/ttl-cache-multithread-bench/ttl_cache_bench_lockfree.c:301-308 | The mixer and the explicit inverse undo each other on all 64-bit words. |
| Hashing.MixSeparatesKeys | bench/ttl-cache-multithread-bench/ttl_cache_bench_lockfree.c:343-343 | Different keys have different hashes. |
| Hashing.Generator.Draw | bench/ttl-cache-multithread-bench/ttl_cache_bench_lockfree.c:435-442 | A draw never leaves zero, is undone by the inverse step from any non-zero state, and takes the fallback exactly from zero. |
| Hashing.ShiftIsBijection | bench/ttl-cache-multithread-bench/ttl_cache_bench_lockfree.c:437-439 | The step and its explicit inverse undo each other on all words, and only zero maps to zero. |
| Hashing.DrawsAreReversible | bench/ttl-cache-multithread-bench/ttl_cache_bench_lockfree.c:435-442 | From a non-zero seed the fallback is never taken, every state is non-zero, and n draws are undone by n inverse steps. |
| WritePacing.Settings.Refresh | bench/ttl-cache-multithread-bench/ttl_cache_bench_lockfree.c:224-242 | The new share, mask and period for every configured share and shift. |
| WritePacing.RefreshSettles | bench/ttl-cache-multithread-bench/ttl_cache_bench_lockfree.c:224-242 | The share is at most 100, refreshing again changes nothing, and writing is off if and only if the share was 0 and the shift at least 31. |
| WritePacing.ZeroShareStillWrites | bench/ttl-cache-multithread-bench/ttl_cache_bench_lockfree.c:672-685 | With a shift the environment can set, a share of 0 becomes at least one percent. |
| WritePacing.Worker.ConsumeOps | bench/ttl-cache-multithread-bench/ttl_cache_bench_lockfree.c:257-272 | The loop leaves the remainder modulo the period and asks for a write exactly if a period was completed. |
| WritePacing.PacingIsExact | bench/ttl-cache-multithread-bench/ttl_cache_bench_lockfree.c:550-550 | From a below 100, n calls at p percent ask for floor((a + n*p)/100) writes and leave (a + n*p) mod 100. |
| WritePacing.PacingFromAnyStart | bench/ttl-cache-multithread-bench/ttl_cache_bench_lockfree.c:257-272 | From any start one call brings the accumulator below 100, and the pacing is exact from then on. |
| WritePacing.WindowsAreEven | bench/ttl-cache-multithread-bench/ttl_cache_bench_lockfree.c:550-550 | In any window of n later calls the writes differ from n*p/100 by less than one. |
| PlantEncoding.EncodeSix | blueprints/scripts/render_blueprints.py:43-55 | The subtracting branches give the letter of the number. |
| PlantEncoding.LetterIsBijection | blueprints/scripts/render_blueprints.py:43-55 | Numbers below 64 and the 64 letters correspond one to one, and a question mark appears exactly from 64 on. |
| PlantEncoding.EncodeThree | blueprints/scripts/render_blueprints.py:32-41 | Masks and shifts of three bytes give the letters of the base-64 digits of the 24-bit number. |
| PlantEncoding.Encode64 | blueprints/scripts/render_blueprints.py:20-30 | The loop encodes the zero-padded input group by group. |
| PlantEncoding.QuadIsBijection | blueprints/scripts/render_blueprints.py:32-41 | Byte triples and four-letter words correspond one to one. |
| PlantEncoding.RoundTrip | blueprints/scripts/render_blueprints.py:20-30 | Decoding gives the padded input; the length is 4*ceil(n/3); all characters are letters. |
| PlantEncoding.SameEncoding | blueprints/scripts/render_blueprints.py:20-30 | Two inputs encode alike if and only if one is the other with zeros appended within its last group; equal lengths are told apart. |
| PlantEncoding.EveryTextIsAnEncoding | blueprints/scripts/render_blueprints.py:20-30 | A text decodes if and only if it is letters in whole groups of four, and then it is the encoding of what it decodes to. |
| LayoutGuards.InjectLayoutGuards | blueprints/scripts/render_blueprints.py:57-106 | The scan and the copying loop return the text with the missing directives between blank lines after the first start line, or unchanged. |
| LayoutGuards.GuardsArePresent | blueprints/scripts/render_blueprints.py:75-85 | After one pass all directives are present if and only if none was missing or there is a start line. |
| LayoutGuards.PassIsIdempotent | blueprints/scripts/render_blueprints.py:57-106 | A second pass changes nothing, on every text. |
| LayoutGuards.LinesAfterPass | blueprints/scripts/render_blueprints.py:87-106 | The exact lines of the result. |
| LayoutGuards.LinesSurvive | blueprints/scripts/render_blueprints.py:87-106 | The old lines survive in order if and only if it is not the case that directives are put into a text that ends in a blank line and a line feed and has something written below the start line. |
| LayoutGuards.BlankLineLost | blueprints/scripts/render_blueprints.py:106-106 | A three-line text whose last, blank line is lost. |

## Left out

- Weak memory ordering: each atomic access is one sequentially consistent step; inline assembly, fences and operating-system locks are not modelled.
- Thread registration and reuse of thread records: the set of threads is fixed, and a registered thread is always on the reclaimer's list.
- The reclaimer takes and frees nodes from one multiset: the bucket coordinates, the stacks and the splicing back of young nodes in `src/mem/epoch.c` are not modelled, so nodes may be freed in any order, and one of age that is pushed during the call may or may not be.
- The free list, bitmap and search order of the object pool: a pool hands out any free block of its arena.
- The hash map behind a shard: a finite map from keys to items.
- Liveness: nothing is said about loops or waits ending under a fair scheduler, beyond the sweeper's bound in calls.
- CacheTable.BucketCount: the memory request itself, which may fail, is not modelled.
- CacheMachine.Act: expiry times, counters and cursors are unbounded, so 64-bit overflow of `now + ttl` or of a counter is not modelled; `& mask` is a remainder, since sizes are powers of two.
- NegatedAdd.NegatedAddSubtracts: a signed operand is negated exactly, so negating the least value of its type is not modelled.
- CacheHistory.NoStaleHit: is about calls one after the other; with concurrent stores of one key a lost exchange moves on to the next bucket, and an older copy can sit in front.
- CacheSafety.GraceSafety: does not cover an exposed thread; `CacheWrap.SafeExactlyWithoutMistakes` shows which comparisons expose one, and that each of them can do harm.
- RingSafety.NoDanglingEntry: covers runs whose rotations begin in clear states, which `RingLimits.DisciplineIsExact` shows to be exactly what a rule for beginning them must keep to.
- RingMachine.Act: a slot's id is read together with the item it is stored in; failing to grow a key list, which the code does not check, is not modelled; and a freed item keeps its epoch id, so what the program does with a dangling entry after the free is not.
- AtomicCell.Apply: signed cells are taken as their two's-complement words.
- PthreadRwLock.UnlockReleasesHeldMode: only holders unlock, and the native lock's misuse is not modelled.
- WritePacing.Worker.ConsumeOps: the period is 100 or "never", the two values the program sets.
- LayoutGuards.InjectLayoutGuards: lower-casing is a parameter that must respect line breaks; `splitlines` and `strip` are written out for Python's break and space characters.
- Copying and checking of payload bytes, key selection, latency sampling, clocks, printing, environment parsing and process set-up.
- The zlib step, the HTTP request and the file handling of `render_blueprints.py`.
