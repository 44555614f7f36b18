# Verified model of MemoryTraceTool's tracking engine

MemoryTraceTool is a preloaded library that intercepts `malloc`, `free`, `realloc` and `fork`, keeps a
record of every live allocation, and periodically reports what has leaked. This project models its
engine in Dafny and proves what the engine keeps to: in every interleaving of any number of threads,
over whole runs, and through forks.

`dafny verify dfyconfig.toml` checks everything.

## How it is laid out

| modules | what they hold |
|---|---|
| `Sums`, `Chains`, `Paths` | sums over lists; a bucket chain as a value: newest-first stacks of records per pointer; paths of a step relation, and what every returning path ends in |
| `Tracker` | the tracker as a step system: 4096 chains under 64 bucket locks, 64 pool free lists under 64 pool locks, nine atomic counters; a step is one atomic or lock operation of one thread inside malloc, free, realloc, fork or the report scan |
| `TrackerLaws`, `TrackerSafety`, `TrackerInvariant`, `TrackerRuns` | eight conservation laws, each a weight on records, slots, counters and thread positions; the invariant; runs, fork and its child |
| `TrackerTheorems`, `TrackerStacks`, `TrackerProgress`, `TrackerPeak`, `TrackerSnapshot`, `TrackerVolume` | what follows: slot ownership, exact counters, bounds, each pointer's records under interleaving, deadlock freedom and bounded calls, the peak, the snapshot scan, total_bytes as a bound |
| `TrackerCalls`, `TrackerScanCall`, `TrackerForkCall` | the whole effect of one undisturbed malloc, free, realloc, scan or fork, whatever choices its steps meet, and what a free undoes |
| `EntryTable` | the same table as code: arrays of heads and a slab of slots linked in place; each operation is proved to be the tracker's step on the chains and lists it stands for |
| `Hashing`, `StackCache`, `AddressCache` | the 64-bit frame hash and bucket hash, the interning cache of stacks, the overwriting cache of symbols |
| `LeakSites`, `GrowthLedger`, `EndToEnd` | grouping by hash, growth since the last scan, and the path from the table to the reported total |
| `Sampling`, `ThreadSlots`, `TimeSeries`, `RegisterStack` | the sampler, slots per thread without thread-local storage, the ring of samples, register-stack addresses |

A theorem about `Inv(s)` is about every reachable state: `TrackerRuns.RunInv` proves the invariant of
every state of every run, from initialisation on, including the states of a fork's child. The bucket
hash, the addresses of the pool slots and the pool's size are parameters of the step system;
`TrackerRuns.Initialised` instantiates them with the real seeded hash.

Atomics are sequentially consistent steps, and byte and call counters are integers without a width, so
that "never below zero" is a statement to prove. The next call, the clock, the captured frames, what
the raw allocator answers and spurious failures of a weak compare-and-swap are free choices of a step.

## What came out false, and exactly when it holds

- Byte sampling is documented as one tracked request per 2^rate bytes on average. The count is the floor
  of that in every run exactly for rates of at least 10 (`Sampling.FloorIffRate`).
- The sampling accumulator is unsigned and wraps if it is taken below zero. It stays at or above zero in
  every run exactly if no two threads owe their subtraction at once (`Sampling.NeverUnderflowsIff`), which
  is the case exactly for serialised calls (`Sampling.SerialIffOneOwes`).
- The samples read back are the most recent ones in order exactly as long as the 32-bit count has not
  wrapped or is past 3600 again, or both it and the ring start over together (`TimeSeries.RangeCorrectIff`).
- No two live threads share a slot as long as no thread is born with an id that another thread has just
  found gone and is about to swap out (`ThreadSlots.NoSharing`). After any run within that proviso a birth
  is harmless exactly if it meets it too (`ThreadSlots.RespawnIffInRuns`), also when the swap is stale
  because a third thread has taken the slot meanwhile; and there is a run from the initial state, with all 512 slots taken,
  in which it fails and two threads use one slot (`ThreadSlots.SharingHappens`).
- All growth of a leak site is accounted for, whatever scans came before and however they ended, exactly
  after the scans that had memory to sort their sites (`GrowthLedger.GrowthReportedIff`).
- Counting registers after skipping them gives the same number exactly if the skip stays within the
  address space (`RegisterStack.CountOfSkipIff`).
- Code and comments disagree in two places, and the model follows the code. `src/tracker.c:1636` says
  that initialisation in a fork child does not reallocate; it does, and `TrackerRuns.Next` has it start
  over with new parameters. `src/reporter.h:25` calls a site's total its count times its first size; it
  is the sum of its rows' sizes.

## Model

| member | source | states |
|---|---|---|
| Chains.StackPop | src/tracker.c:841-896 | whatever shares a bucket, find and remove act on the newest record of the pointer, and unlinking it leaves every other pointer's records untouched |
| Chains.StackPush | src/tracker.c:928-939 | linking a record puts it on top of its own pointer's stack and leaves all others alone |
| TrackerLaws.StepBalances | src/hooks.c:267-307 | every single atomic step of every operation keeps each conservation law in balance: what it adds to a list or counter it takes from another place |
| TrackerInvariant.StepInv | src/tracker.c:863-1013 | no step of any thread, inside any operation, breaks the invariant |
| TrackerRuns.InitialisedOk | src/mtt_internal.h:310-317 | for any seed the real bucket hash stays within the table |
| TrackerRuns.SeededBucketOf | src/mtt_internal.h:310-317 | pointers that are 64-bit words are hashed as they are |
| TrackerRuns.FreshInv | src/tracker.c:1598-1628 | initialisation and the reset of a fork child establish the invariant |
| TrackerRuns.HomeOfSlot | src/tracker.c:950-970 | with the real parameters a slot is returned to the stripe of its own address: the seeded bucket hash of it, modulo 64 |
| TrackerRuns.RunInv | src/hooks.c:148-415 | the invariant holds in every state of every run, any number of threads, forks included |
| TrackerSafety.ChainGuarded | src/mtt_internal.h:320-330 | a chain changes only in the hands of the thread that holds its stripe's lock |
| TrackerTheorems.SlotIsSomewhere | src/mtt_internal.h:237-247 | in every interleaving every pool slot is on a free list, on a chain, or with a thread |
| TrackerTheorems.SlotIsNowhereElse | src/mtt_internal.h:237-247 | and in exactly one such place, so no slot is linked twice and no list is cyclic |
| TrackerTheorems.CountersMatchLists | src/tracker.c:863-1013 | pool_used, entry_count, alloc_count and current_bytes differ from the lists' contents by exactly the threads between the two atomics concerned |
| TrackerTheorems.SlotsAddUp | src/tracker.c:1362-1369 | linked, free and held slots add up to the pool's capacity |
| TrackerTheorems.AtRestExact | src/mtt_internal.h:239-240 | at rest pool_used == entry_count == linked records == capacity minus free slots, current_bytes is the sum of their sizes, alloc_count == free_count + entry_count |
| TrackerTheorems.TableBounded | src/hooks.c:267-279 | the check under one of 64 locks bounds entry_count by MTT_MAX_ENTRIES + 63 in every interleaving, and the pool's capacity bounds it in pool mode |
| TrackerTheorems.BehindBound | src/hooks.c:392-411 | bytes already subtracted for records still linked never exceed the linked bytes |
| TrackerTheorems.NoUnderflow | src/hooks.c:394-399 | no subtraction takes current_bytes below zero, and no thread ever reaches a branch that stores 0 |
| TrackerTheorems.PeakCovers | src/hooks.c:284-304 | peak_bytes >= current_bytes whenever no thread is between its addition and the end of its compare-and-swap loop |
| TrackerTheorems.SerialsUnique | src/hooks.c:282 | no two linked records share an allocation number |
| TrackerStacks.StepStacks | src/tracker.c:863-939 | in every interleaving a pointer's records are pushed by exactly the step that links one of them, popped by exactly the step that unlinks one, and left alone by every other step |
| TrackerVolume.TotalCovers | src/hooks.c:283-285 | in every interleaving total_bytes covers all linked records, and current_bytes exceeds it by at most the additions still in flight |
| TrackerVolume.ScanBytesBounded | src/reporter.c:354-376 | a scan beside any mallocs and frees holds at most total_bytes |
| TrackerPeak.PeakWasReached | src/hooks.c:287-304 | peak_bytes never exceeds what current_bytes has really reached, in every interleaving |
| TrackerPeak.PeakNeverFalls | src/hooks.c:287-304 | no step of any thread lowers peak_bytes |
| TrackerPeak.SerialPeak | src/tracker.c:1775-1785 | for calls that do not overlap peak_bytes is the historical maximum of current_bytes |
| TrackerCalls.MallocCall | src/hooks.c:245-312 | however its steps are answered and however often a compare-and-swap fails, an undisturbed malloc returns with exactly one new record, numbered, counted and the peak raised; with the skip counted if the table is full; or unchanged if no record can be had |
| TrackerCalls.FreeCall | src/hooks.c:392-411 | every undisturbed free returns with exactly the newest record of its pointer, its bytes and its slot taken away, or unchanged |
| TrackerCalls.ReallocCall | src/hooks.c:592-654 | every undisturbed realloc returns with the old record replaced by one for the new pointer; an untracked pointer stays untracked, and a failed raw realloc changes nothing |
| TrackerCalls.CopyReallocCall | src/hooks.c:663-741 | without a raw realloc the new record is made first and the call ends unchanged if it cannot be; if it is refused under the lock its slot goes back |
| TrackerCalls.EmptyCalls | src/hooks.c:492-497 | a malloc of no bytes tracks nothing; a realloc to no bytes is a free of the old pointer |
| TrackerCalls.RefusedInsert | src/hooks.c:267-279 | a record that meets a table of 131072 under its lock is counted as skipped and its slot goes back; nothing else changes |
| TrackerCalls.MallocRecords | src/tracker.c:1016-1035 | what is recorded: pointer, size, time, the next number and the first 64 frames of the stack, in the slot at the head of a free list, on top of the pointer's other records |
| TrackerCalls.MallocCounts | src/hooks.c:282-307 | what it adds to each of the nine counters |
| TrackerCalls.ProbeCall | src/tracker.c:985-1013 | every undisturbed probe ends at the first stripe with a slot, or after all 64 without one |
| Tracker.ProbeNext | src/tracker.c:993-996 | probing starts at the stripe of the pointer's own bucket and goes around the 64 stripes one by one |
| TrackerCalls.RecordedPushes | src/tracker.c:928-939 | a recorded allocation is the newest record of its pointer and touches no other pointer's |
| TrackerCalls.FreedPops | src/tracker.c:863-896 | a free pops its own pointer's records and touches no other's |
| TrackerCalls.FreeUndoesMalloc | src/hooks.c:267-411 | freeing what was just allocated restores every chain, current_bytes, entry_count and pool_used |
| TrackerScanCall.ScanCall | src/reporter.c:337-377 | every undisturbed scan, from its call on, comes to the report of as many records in scan order as its memory has room for, or to nothing without memory |
| TrackerScanCall.ScanReportsAll | src/reporter.c:337-377 | given room for x rows it reports min(x, entry_count) rows; with room for all of them every linked record exactly once, with sizes that add up to current_bytes |
| TrackerScanCall.ReserveRows | src/reporter.c:337-352 | a scan gets room for all records, or else for the largest half, quarter and so on that memory can be had for, never less than 1024 rows |
| TrackerForkCall.ForkCall | src/tracker.c:1522-1530 | every undisturbed fork comes to the fork itself with all 64 bucket locks and nothing else changed |
| TrackerForkCall.ForkParent | src/tracker.c:1532-1539 | and in the parent to the state before the call |
| TrackerForkCall.ChildStarts | src/tracker.c:1594-1623 | the child has empty chains, counters at zero, free locks, and slot i on free list i mod 64 |
| TrackerProgress.LockOrder | src/tracker.c:985-1013 | nothing waits while holding a pool lock, and a bucket lock is waited for only while holding smaller ones |
| TrackerProgress.OneLockEach | src/tracker.c:878-884 | outside fork a thread holds at most one bucket lock, and always at most one pool lock |
| TrackerProgress.DeadlockFree | src/tracker.c:1522-1539 | in every reachable state with unfinished work some unfinished thread can step, scans and forks included |
| TrackerProgress.StepAdvances | src/hooks.c:148-741 | every step of every operation brings its call nearer to its end, by a measure of the thread's position alone, except a failed compare-and-swap |
| TrackerProgress.CallsEnd | src/hooks.c:148-741 | so in no interleaving does a thread inside a call take more of its own steps than that measure, failed compare-and-swaps aside: none goes on for ever |
| TrackerProgress.CallLeft | src/hooks.c:148-741 | it is at most 338 steps for a malloc, 12 for a free, 353 for a realloc, 131 for a fork and 262403 for a scan |
| TrackerSnapshot.SnapshotComplete | src/reporter.c:354-376 | while mutators run, a record linked for the whole scan has been copied exactly once when the scan has passed its bucket, unless the scan ran out of room |
| TrackerSnapshot.RowsWereLinked | src/reporter.c:354-376 | every row was linked at a moment when the scan held that row's own stripe lock |
| TrackerSnapshot.QuietScanExact | src/reporter.c:337-377 | a scan of a quiet table, from the step that asks for memory on and whatever other threads do outside the table, copies entry_count rows whose sizes add up to current_bytes, or exactly as many rows as it got memory for |
| TrackerSnapshot.QuietScanComplete | src/reporter.c:337-377 | and with memory for entry_count rows has every linked record exactly once |
| EntryTable.FollowsCut | src/tracker.c:870-874 | redirecting one link takes exactly one slot out of a linked list |
| EntryTable.FollowsKept | src/tracker.c:928-939 | writing a slot that is not on a list leaves that list as it was |
| EntryTable.ListPushed | src/tracker.c:878-882 | linking a slot in front of a list gives the list with that slot in front, each slot once |
| EntryTable.SameRecordsIff | src/tracker.c:863-896 | leaving the records alone means that every slot keeps all its fields but the link |
| EntryTable.EntryTable.Find | src/tracker.c:841-852 | the walk returns the newest record of the pointer, or none exactly if it has none |
| EntryTable.EntryTable.Add | src/tracker.c:928-939 | in-place linking is the tracker's link step: the pointer's stack is pushed, all else is unchanged |
| EntryTable.EntryTable.Detach | src/tracker.c:863-874 | the walk and the redirected link are the tracker's unlink step: the pointer's stack is popped, all else is unchanged |
| EntryTable.EntryTable.Give | src/tracker.c:950-970 | a returned slot is cleared and becomes the head of the free list its own address hashes to |
| EntryTable.EntryTable.Remove | src/tracker.c:863-896 | the newest record of the pointer is gone, its slot heads its home free list, every other pointer keeps its records |
| EntryTable.EntryTable.Take | src/tracker.c:978-1008 | the slot comes from the pointer's own stripe or else from the first non-empty one of the 63 after it |
| EntryTable.EntryTable.New | src/tracker.c:978-1035 | serialised, making a record fails exactly when the whole pool is in use; otherwise the record is filled in and its slot was on no chain |
| EntryTable.EntryTable.ProbeCovers | src/tracker.c:993-996 | the probe reaches every one of the 64 stripes |
| EntryTable.FreedNext | src/tracker.c:1362-1369 | distributing one more slot keeps all free lists in order |
| EntryTable.EntryTable.Reset | src/tracker.c:1598-1623 | whatever the table was, all chains are empty after it and slot i is on free list i mod 64 |
| Sampling.Sampler.ShouldTrack | src/tracker.c:557-596 | from 1024 bytes on, and without a mode, every request is tracked and the sampler unchanged; byte mode tracks the small request that brings the accumulator to 2^rate and takes 2^rate out; count mode tracks one in period; what is not tracked is counted as skipped |
| Sampling.EveryRequestCounted | src/tracker.c:569-595 | every small request is either tracked or counted as skipped |
| Sampling.LargeUnsampled | src/tracker.c:559-567 | large requests have no influence on which small ones are tracked |
| Sampling.LargeAllTracked | src/tracker.c:559-567 | every large request of a run is tracked |
| Sampling.TracksAll | src/tracker.c:586-588 | with neither mode set every request of a run is tracked and nothing is counted |
| Sampling.BytesConserved | src/tracker.c:571-583 | after small requests of S bytes with T tracked, 2^rate * T + accum == S plus the initial accum, for any rate |
| Sampling.TrackedIsFloor | src/tracker.c:571-583 | for rates of at least 10, T is the floor of S / 2^rate |
| Sampling.FloorIffRate | src/tracker.c:571-583 | the floor law holds of all runs exactly for rates of at least 10 |
| Sampling.TrackedIsCeiling | src/tracker.c:585-592 | count mode tracks exactly n / period, rounded up, of n small requests |
| Sampling.RaceConserves | src/tracker.c:573-578 | with the two atomics apart the byte law still holds in every interleaving |
| Sampling.AloneIsDecide | src/tracker.c:571-583 | a call whose addition and subtraction nobody comes between decides and leaves the accumulator as the one-step decision does |
| Sampling.NeverUnderflowsIff | src/tracker.c:571-578 | for every step above 1, bounding by k how many threads owe a subtraction at once keeps the accumulator at or above zero in every run of small requests if and only if k <= 1 |
| Sampling.SerialIffOneOwes | src/tracker.c:573-578 | at most one thread owes at every moment if and only if the calls are serialised |
| Sampling.SerialNeverUnderflows | src/tracker.c:573-578 | so serialised calls keep the accumulator at or above zero, for any step |
| Sampling.OverlapUnderflows | src/tracker.c:573-578 | for every step above 1 there is a run of small requests with two threads owing that ends at 1 - step, at rate 10 at -1023 (`Sampling.RaceUnderflows`) |
| LeakSites.LeakTable.Find | src/reporter.c:434-442 | the walk of one chain finds the hash's site exactly if the hash has one |
| LeakSites.LeakTable.Add | src/reporter.c:434-489 | a row goes into its hash's site, or a new site, or is skipped; every site stays the aggregate of its rows |
| LeakSites.SiteIsAggregate | src/reporter.c:444-483 | a site's count, total and last_seen are the exact aggregates of its rows, first_seen and per_leak_size those of the first; it has expired exactly if there is a threshold and some row is more than that many seconds old |
| LeakSites.FirstHashesKept | src/reporter.c:461-489 | with memory, exactly the first 2048 distinct hashes get a site and exactly their rows are counted |
| LeakSites.SiteExistsIff | src/reporter.c:461-489 | with memory failing at any rows, a hash has a site exactly if some row of it came when there was memory and room for one |
| LeakSites.RowCountedIff | src/reporter.c:461-489 | and a row is counted exactly if its hash has a site once the row is done |
| LeakSites.KeptSiteIsExact | src/reporter.c:434-489 | with memory a site aggregates over all rows of the snapshot with its hash, its expiry included |
| LeakSites.LeakTable.LeakBytes | src/reporter.c:508-518 | the sites' totals add up to the bytes of the rows that went in |
| LeakSites.Group | src/reporter.c:401-518 | grouping a whole snapshot, allocation failures included |
| LeakSites.KeptBytesBounded | src/reporter.c:508-518 | leak_bytes_total never exceeds the bytes of the snapshot, whatever is skipped |
| LeakSites.AllBytesIff | src/reporter.c:461-518 | it equals them exactly when there are at most 2048 distinct hashes |
| EndToEnd.ReportedBytes | src/reporter.c:337-518 | from a quiet table and the scan's first step on: leak_bytes_total <= current_bytes, and with memory for entry_count rows equal exactly when at most 2048 keys occur |
| EndToEnd.ConcurrentReportBounded | src/reporter.c:337-518 | beside any mallocs and frees a scan reports at most total_bytes, whatever it skips |
| EndToEnd.ComputeKey | src/reporter.c:408-432 | the program's way to a record's grouping key, through the cache or not, gives the key the theorems speak of |
| EndToEnd.WordAt | src/stack_cache.c:104-110 | a captured frame that is a 64-bit word enters the hash as it is |
| EndToEnd.SameStackSameSite | src/reporter.c:408-432 | records with the same frames, Thumb bits aside, are grouped together |
| EndToEnd.StacksApart | src/reporter.c:408-432 | stacks of at most four frames that differ in exactly one hashed frame are never grouped together |
| EndToEnd.SizesApart | src/reporter.c:427-429 | records without a stack are grouped together exactly if their sizes are equal |
| EndToEnd.SiteCountsRecords | src/reporter.c:401-489 | whatever the key, a site counts exactly the scanned records with its key and their bytes |
| EndToEnd.SiteTimesRecords | src/reporter.c:444-483 | it has the latest of their times, and has expired exactly if one of them is older than the threshold |
| GrowthLedger.Ledger.Diffs | src/reporter.c:565-578 | each site's difference is its rise over the first saved value of its hash, 0 if it fell |
| GrowthLedger.Ledger.Save | src/reporter.c:815-837 | the ledger after a scan: kept if the report could not be opened, else replaced, or emptied if memory is short for the sites or the ledger |
| GrowthLedger.Ledger.Account | src/reporter.c:565-837 | each site of a scan is reported with exactly the difference that the laws below add up for its hash |
| GrowthLedger.KnownIsLastWritten | src/reporter.c:815-837 | what the ledger knows is what the last scan held whose report was written, however many unwritten ones came after it |
| GrowthLedger.DiffSinceWritten | src/reporter.c:565-578 | so a difference is the rise over the last scan that was written and saved |
| GrowthLedger.DiffsCoverTotal | src/reporter.c:565-578 | over any run of scans, however they end, a hash's differences add up to at least its total at every scan that sorts |
| GrowthLedger.DiffsExact | src/reporter.c:565-578 | when every scan saves they exceed it by exactly what the total has fallen back |
| GrowthLedger.DiffsEqualTotalIff | src/reporter.c:565-578 | and are equal exactly when it never fell |
| GrowthLedger.GrowthReportedIff | src/reporter.c:542-578 | the endings of a scan after which a hash's differences cover its total, whatever scans came before, are exactly those with the sites sorted |
| GrowthLedger.UnsortedScanLosesGrowth | src/reporter.c:542-560 | a first scan without memory to sort reports no growth, however else it ends |
| ThreadSlots.IdInOneSlot | src/per_thread.h:61-113 | in every interleaving of look-ups, exits, births, id reuse and fork sweeps a thread id is in at most one slot |
| ThreadSlots.NoSharing | src/per_thread.h:136-147 | every answer, cached or searched, is a slot with the caller's own id that no other live thread is using, provided no id is reused between a test and its swap |
| ThreadSlots.RespawnIffInRuns | src/per_thread.h:93-110 | after every run within the proviso, the birth of a thread is followed by sharing in no continuation within the proviso if and only if it meets the proviso |
| ThreadSlots.RespawnIff | src/per_thread.h:93-110 | the same for every marked state |
| ThreadSlots.RunMarked | src/per_thread.h:61-113 | every state of every run within the proviso is marked: slots passed in search of an empty one are taken, and an id about to be swapped out is where it was tested or nowhere |
| ThreadSlots.RespawnShares | src/per_thread.h:61-147 | for any slot that still holds the id under test, a birth with that id leads to two live threads using it |
| ThreadSlots.StaleShares | src/per_thread.h:61-147 | and so it does when another thread has taken the slot meanwhile: the new thread can put the id back before the stale swap |
| ThreadSlots.UnderTestReached | src/per_thread.h:71-110 | such a state is reached from the initial one: 512 threads claim a slot each and exit, and the next one tests slot 0 |
| ThreadSlots.SharingHappens | src/per_thread.h:61-147 | so a run from the initial state exists in which two live threads use one slot |
| ThreadSlots.SafeStep | src/tracker.c:1567-1579 | each step keeps ownership, the sweep of a fork child included |
| ThreadSlots.ChildAlone | src/tracker.c:1567-1579 | in a fork child every slot but its own is empty and nothing is cached |
| ThreadSlots.Sweep | src/tracker.c:1567-1592 | the child's loops leave exactly its own ids in the slots, and clear the inherited depth and in_hook of its own |
| ThreadSlots.NoSlotSkipped | src/per_thread.h:61-113 | no search skips a slot, also after losing one to another thread, and none ends without a slot before the last |
| ThreadSlots.Get | src/per_thread.h:61-113 | the answer is a slot that holds the caller's id; a slot of its own is untouched, a new one has depths -1 and its flags clear, no other slot changes; there is no answer exactly if all 512 belong to other living threads |
| ThreadSlots.GetCached | src/per_thread.h:136-147 | a cached slot that still holds the cached id is the answer; otherwise the search's answer is cached, so that the next call finds it |
| ThreadSlots.ClaimedAgain | src/per_thread.h:61-113 | a second look-up of the same thread gives the same slot and changes nothing |
| ThreadSlots.ClaimedApart | src/per_thread.h:61-113 | another living thread that asks next gets another slot |
| ThreadSlots.ClaimedIsSolo | src/per_thread.h:61-113 | the ids a look-up leaves are those of the step system |
| ThreadSlots.SoloIsChosen | src/per_thread.h:61-113 | the step system run without disturbance ends at the slot the loops choose |
| Hashing.ComputeHash | src/stack_cache.c:94-169 | the loops over blocks, words and the mix compute the hash as specified |
| Hashing.ComputeJoin | src/stack_cache.c:122-131 | the lanes rotated by 1, 7, 12 and 18 and added, and one more round for each |
| Hashing.RoundSeesInput | src/stack_cache.c:75-81 | different frames take a lane to different values |
| Hashing.RoundKeepsApart | src/stack_cache.c:75-81 | and different lanes stay different |
| Hashing.BlocksSeeChange | src/stack_cache.c:104-120 | so changing exactly one frame anywhere in the blocks of four changes the lanes |
| Hashing.OneFrameMatters | src/stack_cache.c:139-169 | changing exactly one frame outside the blocks of four changes the hash: any frame of up to three |
| Hashing.ShortStacksApart | src/stack_cache.c:333-349 | stacks whose at most three hashed frames differ in exactly one never share a hash |
| Hashing.CapturedApart | src/stack_cache.c:333-349 | captured stacks of at most four frames that differ in exactly one frame but the innermost never share a hash |
| Hashing.InnermostIgnored | src/stack_cache.c:333-349 | the innermost of several frames does not matter |
| Hashing.StackHashIgnoresThumb | src/stack_cache.c:342-347 | the stack hash does not see Thumb bits |
| Hashing.ClearedSame | src/stack_cache.c:342-347 | clearing the Thumb bit identifies exactly the addresses that differ at most in bit 0 |
| Hashing.ClearedEqualIff | src/stack_cache.c:333-349 | two stacks are the same to the cache exactly if they are equally long and their frames agree up to the Thumb bit |
| Hashing.BucketsDistinct | src/mtt_internal.h:310-317 | of 4096 consecutive 8-byte steps no two share a bucket, for any seed |
| Hashing.BucketsCovered | src/mtt_internal.h:310-317 | and every bucket is that of one of them |
| Hashing.SeedMatters | src/mtt_internal.h:310-317 | seeds that differ in their low twelve bits send every pointer to different buckets |
| Hashing.ComputeBucket | src/mtt_internal.h:310-317 | the shift, the multiplication, the exclusive-or and the mask compute the bucket as specified |
| StackCache.HashOfStack | src/stack_cache.c:333-349 | skipping the innermost frame and hashing a cleaned copy is the stack hash |
| StackCache.StackCache.Search | src/stack_cache.c:363-385 | the walk finds the entry with these frames exactly if there is one, past any that only share the hash |
| StackCache.StackCache.Lookup | src/stack_cache.c:354-416 | the table behaves as a growing list of distinct stacks; its count is its total chain length, at most 4096; an entry returned carries the hash of the frames asked for |
| StackCache.GroupKey | src/reporter.c:414-426 | the key of a stack is its hash, whether it comes from the cached entry or is computed because the cache has none |
| StackCache.LookAll | src/stack_cache.c:354-416 | a run of look-ups from the empty cache stores exactly what the laws say, and two of them get the same object exactly when their frames agree up to Thumb bits |
| StackCache.StoredGrows | src/stack_cache.c:401-412 | stored stacks never change, stay distinct, and are at most 4096 |
| StackCache.SameEntryIff | src/stack_cache.c:363-416 | two successful look-ups of a run return the same entry exactly when their frames agree up to Thumb bits |
| StackCache.FailsIff | src/stack_cache.c:387-399 | a look-up fails exactly for an unseen stack with the cache full or memory short |
| AddressCache.AddressCache.Lookup | src/stack_cache.c:210-230 | a hit exactly when the address has a slot anywhere; it yields the last symbol inserted for it, cut to the buffer |
| AddressCache.WritesOwnSlot | src/stack_cache.c:249-261 | an address that has a slot is written there |
| AddressCache.InsertKeepsTable | src/stack_cache.c:241-267 | no address is ever in two slots, each is in its window of four with no empty slot before it |
| AddressCache.EvictsOnlyWhenFull | src/stack_cache.c:249-267 | another address is overwritten only if all four slots of the window are taken by others, and then in the first of them |
| AddressCache.SameBucketIff | src/stack_cache.c:243-244 | two addresses share a bucket exactly if bits 3 to 11 of the addresses agree |
| AddressCache.AddressCache.Insert | src/stack_cache.c:241-267 | the whole table after an insertion; the address then has a slot with the new symbol |
| AddressCache.AddressCache.ResolveStack | src/stack_cache.c:796-804 | memoised resolution of a stack equals the deterministic resolver frame by frame, whatever was cached or overwritten |
| AddressCache.AddressCache.Resolve | src/stack_cache.c:525-787 | the same for one frame; symbols of up to 255 characters are whole |
| TimeSeries.TimeSeries.Record | src/time_series.c:105-119 | after n records head is n mod 3600 and the last 3600 samples are in their slots |
| TimeSeries.TimeSeries.GetRange | src/time_series.c:135-181 | the copying loop returns the requested slice of the ring's window |
| TimeSeries.WindowIsRecent | src/time_series.c:151-163 | the window is the last min(n, 3600) samples in recording order if the count has not wrapped |
| TimeSeries.RangeIsRecent | src/time_series.c:135-181 | for fewer than 2^32 samples a read gives exactly those asked for, out of the last 3600 |
| TimeSeries.RangeCorrectIff | src/time_series.c:135-181 | all reads are right exactly when the count and the ring agree |
| RegisterStack.SkipsAdd | open/libunwind/include/tdep-ia64/rse.h:56-63 | skipping m and then n registers is skipping m + n, for all signed counts and all addresses |
| RegisterStack.SkipAvoidsRnat | open/libunwind/include/tdep-ia64/rse.h:56-63 | a skip never lands on a NaT slot |
| RegisterStack.NumRegsCounts | open/libunwind/include/tdep-ia64/rse.h:44-50 | num_regs is the number of slots between two addresses that hold registers, counted one by one |
| RegisterStack.CountOfSkipIff | open/libunwind/include/tdep-ia64/rse.h:44-63 | counting after a skip of n >= 0 gives n exactly if the skip stays within the address space |
| RegisterStack.SkipOfCountIff | open/libunwind/include/tdep-ia64/rse.h:44-63 | skipping what was counted leads to the target exactly if the target is not a NaT slot |

## Left out

- Weak memory: atomics are taken as sequentially consistent steps, although the program uses relaxed ordering.
- Widths of the counters: byte, call and entry counters and the sampling accumulator have no width; only the sample count of the time series and the 64-bit hashes and addresses wrap.
- Walks under a lock: in the step system a walk of one chain, or the pop of one free list, is one step; `TrackerSafety.ChainGuarded` shows that nobody else can change that chain meanwhile, and `EntryTable` proves the walks as code.
- The hooks as sequential code: malloc, free and realloc are modelled as steps, because their properties are about interleavings; `TrackerCalls` adds up the steps of an undisturbed call. The per-call flags in_hook and hook_depth are not modelled.
- Requests that never reach the table (null or sampled-out, blacklisted and tool-internal calls, failed raw allocations) are one choice of a step, `Pass`.
- calloc and aligned allocation: thin wrappers over malloc.
- temp_alloc_count, free_expired_count and peak_updated: written by the tracker and read only for display.
- Fork by other means than the intercepted call, and hooks re-entered from inside the raw fork; a child is followed from the end of its reset.
- Fallback mode in `EntryTable`: there records are single raw allocations; the step system covers it, the in-place table is the pool's.
- The initialisation protocol itself: start-up, environment variables, symbol resolution and the bootstrap allocator.
- ThreadSlots.Get: the liveness test is given as the set of live ids; the step system has it as an atomic test per slot.
- The other fields of a thread's slot in the step system: only ids, the cached pointer and the cached id are modelled there, and `ThreadSlots.Get` initialises the rest.
- StackCache.StackCache.Lookup: the frames are passed as a value, and symbol resolution is in `AddressCache`.
- LeakSites.Group: the leak threshold is read once for the scan; sites are values in the chains, so pointers from the sorted array into the table are not modelled, nor is the sorting by size.
- Bootstrapping of symbols: dladdr, backtrace_symbols and demangling are one resolver function from addresses to strings without NUL characters.
- Stack capture: any frames, at most 64; unwinding is not modelled.
- 32-bit pointers: frames are hashed as 64-bit words, so the four-byte and single-byte tails of the hash are never taken; the hash does follow the code and not the published xxHash where they differ, from four frames on.
- RegisterStack.SkipRegs: overflow of the signed count itself, undefined in C, is not modelled.
- Report files, the HTTP server, the flame graph, heartbeats and the JSON output.
