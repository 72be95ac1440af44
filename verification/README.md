# A verified model of qunix

qunix is a small x86-64 kernel with an asynchronous block layer, and a package builder, qpkg,
beside it. This project models the parts of both whose correctness is hardest to see from the
code, and proves what they promise over every input, every run and every interleaving.

Shared state is modelled at the level of its locks. Each section run under a lock is one step,
each lone atomic operation is one step, and each thing a device does to shared memory is one
step, so a run is any interleaving of processors, threads, timers and the device, for any number
of them. Code that updates state in place is also given as classes with arrays and loops, each
method proved to be the specified step.

- **Scheduler** (`RunQueue`, `SchedSpec`, `SchedInv`, `SchedTheorems`, `SchedExits`,
  `SchedSearch`, `SchedStates`, `SchedKernel`): parking, waking, handing off, stealing, switching
  and exiting on any number of processors.
- **Timers and `block_on`** (`Timers`, `BlockOn`, `SleepTimes`): the timer table, and its
  composition with the scheduler into statements about whole sleeps.
- **Buffer cache** (`BcacheSpec`, `BcacheInv`, `BcacheTheorems`, `BcacheSync`, `BcacheLate`,
  `BcacheFlags`, `BcacheKernel`, `BcacheFlush`): a concurrent write-back cache as a map from block to bytes.
- **Block driver** (`VirtQueue`, `BlkSpec`, `BlkSafe`, `BlkInv`, `BlkSteps`, `BlkTheorems`,
  `BlkAnswers`, `BlkCounts`, `BlkRuns`, `BlkKernel`): a split virtqueue (section 2.7 of VIRTIO 1.2) and the driver over it, against a
  device that writes anything and against one that completes only what it fetched.
- **Program loader** (`Elf`, `ElfFormat`, `VmSpace`, `Loader`): parsing, page mapping, copying,
  permissions and frame ownership.
- **qpkg text algorithms** (`Vercmp`, `VersionOrder`; `Toolchain`, `Rewriter`, `RewriterText`,
  `RewriterLog`): version order and the tool-name rewriter.

`Wrappers`, `Seqs` and `Strings` hold small shared definitions.

## What the proofs found

Eight promises do not hold on every input. Each has the exact condition under which it does, and
a concrete run, text or family of inputs on which it does not.

- A wake that reaches a thread between its second re-check in `park` and the next locking of the
  table is lost. Everywhere else it is heeded (`SchedTheorems.WakeHeededExactly`). A sleep that
  loses its only wake so never ends (`BlockOn.LostSleepNeverEnds`, `BlockOn.LostSleepIsReachable`).
- `reap` may free the stack of an exiting thread that is still switching away from it
  (`SchedTheorems.ReapFreesUsedStackExactly`, `SchedExits.ReapsStackInUse`).
- A parked handoff is claimed by its tagged word. At thread id 2^63 - 1 that word is the empty
  slot's, and above it the tag is part of the id (`SchedSpec.ClaimFindsExactly`).
- A disk write the driver gave up on may land, or half land, after a newer one
  (`BcacheTheorems.LateLandingExactly`, `BcacheLate.LateLandingLosesBytes`).
- A request that finishes as timed out after its completion was consumed keeps its descriptors for
  good; so does one whose status byte is the timed-out marker (`BlkTheorems.StrandsExactly`,
  `BlkRuns.StrandingIsReachable`).
- A read one byte short passes the length check, because the used length counts the status byte
  (`BlkTheorems.WholeTransferExactly`, `BlkRuns.ShortReadIsReachable`). A device that transfers
  whole sectors cannot do this.
- The version order is not transitive. It is an order on versions with a release and without a
  letter standing apart from a digit or from the start (`VersionOrder.Transitive`), and any other
  version breaks it with two of these (`VersionOrder.FitsExactly`); the documented chain in which
  1.0 precedes 1.0.a has such a letter.
- The rewriter drops carriage returns before line feeds without logging it, and is idempotent
  exactly on texts without CR CR LF (`RewriterText.SilentExactly`,
  `RewriterText.IdempotentExactly`).

The scheduler's own assertions never fail. A run panics only where `exit_current` says it should
give up: the last thread of all exits, or an exit has waited too long
(`SchedTheorems.RunPanicsExactly`). The first cannot happen while one thread never exits. A
processor whose idle thread is alive and not the one exiting finds nothing to run only while that
thread is parked or on its way (`SchedExits.OneThreadSuffices`, `SchedExits.NothingToRunWhen`).

## Modelling choices

- A context switch is one step that saves the outgoing context and changes stack; before it the
  outgoing thread is current nowhere and not yet saved. Atomics are sequentially consistent.
- Integers are unbounded except where the width matters: ring indices wrap at 16 bits, block
  addresses and load addresses are checked against 64 bits, the handoff word is tagged in its top
  bit.
- A submission's bookkeeping is one step under the driver's lock; its three descriptor writes, its
  ring slot and its index are five more, and the device may act between any two.
- A block of the cache carries a version number counting stores. The code keeps none; it is what
  lets "at least as new" be stated.
- `frames::alloc` returns a frame nobody has, with arbitrary contents, or nothing. Page tables are
  the x86-64 three levels under the root, and `map` fails on a mapped page.
- Outcomes of device operations, the order in which threads run, and the contents of dropped or
  failed transfers are arbitrary.
- Where a comment in the code and the code disagree, the model follows the code.

## Model

| member | source | states |
|---|---|---|
| RunQueues.PushEffect | crates/qunix-sched/src/lib.rs:73-78 | pushing an absent thread adds exactly it, in its band, and moves no other |
| RunQueues.PopTakes | crates/qunix-sched/src/lib.rs:81-88 | a pop removes exactly one thread, of the band served, and finds nothing just when the queue is empty |
| RunQueues.StealTakes | crates/qunix-sched/src/lib.rs:100-107 | a steal removes exactly one thread, of the band served, and finds nothing just when the queue is empty |
| RunQueues.ServedInOrder | crates/qunix-sched/src/lib.rs:73-107 | a newly queued thread is last in its band for the owner and first for a thief, is served at once above everything else, and changes nothing for either below something better |
| RunQueues.RunnableWorkIsNotIdle | crates/qunix-sched/src/lib.rs:141-143 | while there is runnable work neither a pop nor a steal gives up an idle-band thread |
| SchedSpec.ClaimFindsExactly | kernel/src/sched.rs:951-958 | an exchange on the tagged word of a thread finds the slot holding that thread tagged, for every id below 2^63 - 1; at that id it finds an empty slot, and above it another thread tagged |
| SchedInv.SpawnInv | kernel/src/sched.rs:318-333 | spawning under the table lock, with the queue push still to come, keeps the invariant |
| SchedInv.UnparkInv | kernel/src/sched.rs:662-741 | a wake of a running, handed-off, detached, exited or absent thread, in every case, keeps the invariant |
| SchedInv.TakeLocalInv | kernel/src/sched.rs:882-905 | taking from the own queue keeps the invariant |
| SchedInv.TakeRemoteInv | kernel/src/sched.rs:902-932 | passing over an offline processor, a contended queue or one with nothing but idle threads, and stealing, keep the invariant |
| SchedInv.TakeLastInv | kernel/src/sched.rs:931-938 | the last look at the own queue keeps the invariant |
| SchedInv.CommitInv | kernel/src/sched.rs:1063-1180 | the dispatch section never meets a thread it does not expect, and keeps the invariant while the outgoing thread is current nowhere and not yet saved |
| SchedInv.SwitchInv | kernel/src/sched.rs:1181-1214 | the switch keeps the invariant: the outgoing context is saved before anyone may dispatch it |
| SchedInv.PublishSwapInv | kernel/src/sched.rs:964-1000 | publishing the outgoing thread in the handoff slot, and taking out what it displaces, keeps the invariant |
| SchedInv.StepInv | kernel/src/sched.rs:526-1214 | a step panics exactly when an exiting thread gives up, alone or out of time, and for that reason; every other step keeps the whole invariant |
| SchedInv.RunInv | kernel/src/sched.rs:526-1214 | every run, for any number of processors and threads and any interleaving, keeps the invariant up to the step at which an exiting thread first gives up, if one does |
| SchedTheorems.RunPanicsExactly | kernel/src/sched.rs:526-1214 | a run from boot panics exactly when an exiting thread gives up in it, with that panic; the assertions of the dispatch section never fail |
| SchedTheorems.RunningIsInTable | kernel/src/sched.rs:551-562 | a processor running code runs a live thread of the table, so park and exit never meet an unknown one |
| SchedTheorems.PlaceIsWhereItWasPut | kernel/src/sched.rs:882-1009 | where a thread is found in the queues, slots and processors is exactly where the last step that moved it put it |
| SchedTheorems.OnePlaceEach | kernel/src/sched.rs:318-741 | every live thread is in exactly one place, or detached and then parked and saved; whatever is queued, taken, in transit or handed off is unparked and saved |
| SchedTheorems.OneProcessorPerStack | kernel/src/sched.rs:1026-1210 | in every reachable state no two processors execute on one live thread's stack, the switch window included |
| SchedTheorems.IdleThreadsStayHome | kernel/src/sched.rs:684-720 | a pinned idle thread is queued, handed off, taken and run on its own processor only, and queued only in the idle band |
| SchedTheorems.OthersLeaveParkAlone | crates/qunix-sched/src/park.rs:52-74 | only a thread's own steps and wakes naming it touch its park state |
| SchedTheorems.WakeHeededExactly | kernel/src/sched.rs:641-651 | a wake is remembered or seen by the next re-check if and only if it does not land between the second re-check and the re-park |
| SchedTheorems.HeededStep | kernel/src/sched.rs:551-651 | a heeded wake stays heeded until the call to park returns, whichever processor steps |
| SchedTheorems.WakeIsHeeded | kernel/src/sched.rs:551-710 | no wakeup is lost outside that window: in every continuation the thread is never found parked before its park has returned |
| SchedTheorems.WakeIsLost | kernel/src/sched.rs:603-651 | a wake that lands in the window is lost: the thread's next own step parks it again with nothing remembered |
| SchedTheorems.LostWakeIsReachable | kernel/src/sched.rs:603-651 | a concrete run from boot that reaches the window and loses a wake |
| SchedTheorems.GoneForGood | kernel/src/sched.rs:90-97 | a thread id that has left the table never comes back |
| SchedTheorems.ReapFreesUsedStackExactly | kernel/src/sched.rs:1224-1264 | reap frees a stack a processor still executes on if and only if that processor is inside the switch window of the exiting thread |
| SchedExits.NothingToRunWhen | kernel/src/sched.rs:882-938 | a processor whose own idle thread is not running finds nothing to run only while that idle thread is parked and saved, or taken out by a wake and not queued yet |
| SchedExits.OneThreadSuffices | kernel/src/sched.rs:795-844 | in every run in which some one thread never exits, no exiting thread finds itself the last |
| SchedExits.LastThreadPanics | kernel/src/sched.rs:766-799 | a concrete run on one processor that panics because the last thread exits |
| SchedExits.StuckExitPanics | kernel/src/sched.rs:800-827 | a concrete run on two processors in which one thread exits, the other runs on, and the wait is declared stuck after 60000 ticks |
| SchedExits.ReapsStackInUse | kernel/src/sched.rs:1224-1251 | a concrete run on two processors in which a reap frees the stack the other processor still executes on |
| SchedExits.ExitWaits | kernel/src/sched.rs:766-827 | over every run, an exiter that looks at the clock gives up exactly if 60,000 ticks or more have passed since its exit began |
| SchedSearch.SearchEnds | kernel/src/sched.rs:882-938 | whatever runs meanwhile, a search for the next thread ends with the first runnable one of the own queue; or, the own queue having had none, with the last runnable one of the first other processor that has any to steal; or, everyone having had none, with the first left in the own queue, and with nothing just when that is empty |
| SchedSearch.OwnWorkFirst | kernel/src/sched.rs:878-899 | runnable work in the own queue, when it is looked at, ends the search and beats any steal |
| SchedSearch.LooksEverywhereFirst | kernel/src/sched.rs:846-938 | a processor turns to a thread of idle priority, or to none, only if its own queue had nothing runnable when it looked there and neither had any other processor, on line and not locked, when it was visited |
| SchedStates.StateMeansPlace | kernel/src/sched.rs:1060-1180 | in every run a live thread is recorded as blocked exactly while parked, as ready wherever it waits for a processor, as running only where it runs |
| SchedStates.ReturnsArePaid | kernel/src/sched.rs:526-653 | over every run, each return from park uses up a wake of its own |
| SchedStates.RechecksTwice | kernel/src/sched.rs:526-653 | a thread halts only after the first re-check found it parked, parks again only after the second did, and returns from either exactly if it did not |
| SchedStates.SpawnedForLife | kernel/src/sched.rs:318-333 | a thread keeps the priority it was spawned with, has no home processor, and is only ever queued in that band |
| SchedStates.ReapFreesExited | kernel/src/sched.rs:1224-1251 | in every run a reap frees exactly the exited threads no processor has as current; none is forgotten |
| SchedStates.OnlineForGood | kernel/src/sched.rs:403-406 | a processor that comes on line stays so |
| SchedKernel.Kernel.IsCurrentAnywhere | kernel/src/sched.rs:1258-1264 | the loop answers whether any processor runs the thread |
| SchedKernel.Kernel.ClaimParkedHandoff | kernel/src/sched.rs:951-958 | the scan of compare-exchanges over the stored words claims exactly a slot that holds that thread tagged, and clears the tag |
| SchedKernel.Kernel.SpawnLocked | kernel/src/sched.rs:318-333 | the table section of spawning is the specified step and keeps the invariant |
| SchedKernel.Kernel.ParkLocked | kernel/src/sched.rs:551-587 | the locked section of park is the specified step, cancelled or committed |
| SchedKernel.Kernel.UnparkLocked | kernel/src/sched.rs:662-714 | the locked section of unpark is the specified step in every case |
| SchedKernel.Kernel.ScheduleLocked | kernel/src/sched.rs:1060-1180 | the locked section of schedule is the specified step |
| SchedKernel.Kernel.PublishSwapped | kernel/src/sched.rs:964-979 | swapping the stored word empty is the specified step; the thread is handed to the caller exactly when the word held it untagged |
| SchedKernel.Kernel.ReapLocked | kernel/src/sched.rs:1224-1251 | the reaping section removes exactly the corpses no processor has as current |
| Timers.RegisteredOwned | kernel/src/task.rs:290-312 | registering a sleep takes the first free slot with a fresh generation, or reports the table full, and keeps every sleep owning its own entry |
| Timers.ExpiredOwned | kernel/src/task.rs:188-209 | an expiry clears exactly the due entries and every other sleep still owns its own |
| Timers.WokenExactly | kernel/src/task.rs:188-209 | the threads collected by a tick are exactly those of the due entries, never more than the table holds |
| Timers.DroppedOwned | kernel/src/task.rs:261-287 | dropping a sleep releases its own entry if it still has one and never another sleeper's, even in the same slot with the same deadline |
| Timers.OccupiedCountsUnfired | kernel/src/task.rs:149-167 | occupied slots are as many as live sleeps that took a slot and have not fired |
| Timers.Collect | kernel/src/task.rs:188-209 | the expiry loop clears and lists exactly the due entries without overrunning its wake array |
| Timers.TimerTable.Register | kernel/src/task.rs:290-312 | registration in place is the specified step |
| Timers.TimerTable.Expire | kernel/src/task.rs:188-209 | expiry in place is the specified step |
| Timers.TimerTable.Drop | kernel/src/task.rs:261-287 | the drop of a sleep in place is the specified step |
| BlockOn.WStepInv | kernel/src/task.rs:96-113 | every step of scheduler, timers and sleepers together keeps each unfinished sleep covered, unless it is the delivery that loses a wake |
| BlockOn.LostWakeUncovers | kernel/src/task.rs:96-113 | that condition is exact: the excluded delivery leaves its sleeper covered by nothing |
| BlockOn.ParkedSleeperIsCovered | kernel/src/task.rs:188-259 | in every run that loses no wake, a parked sleeper has its timer in the table or a tick is about to unpark it |
| BlockOn.FiredSleeperPollsReady | kernel/src/task.rs:238-259 | in every run, lost wakes included, a sleeper that polls once its timer has fired finds it ready and ends the sleep |
| BlockOn.LostSleepNeverEnds | kernel/src/task.rs:96-113 | once its only wake is lost, a sleeper stays in that sleep in every continuation without a wake from elsewhere: parked at each re-check, never at its poll, owed no further wake by the timer |
| BlockOn.LostSleepIsReachable | kernel/src/main.rs:48-53 | a concrete run, halt re-check before the tick and all, in which the only wake a sleep is owed is about to land in the re-park window |
| SleepTimes.SleepLasts | kernel/src/task.rs:241-312 | over every run, a poll of a sleep of n ticks ends it if and only if the tick count has reached the tick it began at plus n, or the counter's end |
| SleepTimes.NoTicksNoSlot | kernel/src/task.rs:290-299 | a sleep of no ticks never has a slot in the table, and any poll of it ends it |
| SleepTimes.FiresWhenDue | kernel/src/task.rs:188-209 | a tick's pass over the table takes a sleeper's timer and owes it a wake exactly if the sleep is due by that tick |
| BcacheSpec.Lookup | crates/qunix-bcache/src/lib.rs:196-200 | the first slot holding the key, none before it |
| BcacheSpec.FirstFree | crates/qunix-bcache/src/lib.rs:225-229 | the first free slot, none before it |
| BcacheSpec.FirstReusable | crates/qunix-bcache/src/lib.rs:368-373 | the first clean unpinned slot, none before it |
| BcacheInv.RoomIs | kernel/src/bcache.rs:585-605 | claiming a slot for an absent key never faults, fails just when no slot is reusable, and rewrites one free or clean unpinned slot in place |
| BcacheInv.StepInv | kernel/src/bcache.rs:288-770 | no assertion, expect or unreachable fires in any step, and keys stay unique, tokens match in-flight slots one to one, filling slots are unpinned, refused slots are owed and keys in range |
| BcacheTheorems.RunInv | kernel/src/bcache.rs:288-770 | the same over every run of readers, writers, flushers, evictions, failures and dropped guards |
| BcacheTheorems.StepViewExactly | kernel/src/bcache.rs:344-770 | each step changes the bytes readers are owed only by a store and only at its block, exactly when it is not a harmful late landing of a write given up on |
| BcacheTheorems.LateLandingExactly | kernel/src/bcache.rs:737-770 | a late write, whole or torn in any way, is harmless if and only if the disk already has the bytes it puts there or a newer write is still to come |
| BcacheTheorems.RunView | kernel/src/bcache.rs:344-770 | after any run without harmful late landings each block reads as last stored: the cache refines a map from block to bytes |
| BcacheTheorems.HitReturnsView | kernel/src/bcache.rs:364-380 | a hit hands its reader the block's current bytes and pins their slot |
| BcacheTheorems.FillReturnsView | kernel/src/bcache.rs:388-412 | a finished fill hands its reader the block's current bytes; a failed fill frees the slot |
| BcacheTheorems.ReferenceIsCurrent | kernel/src/bcache.rs:272-300 | while a reference lives its slot keeps its block and the bytes seen through it are the block's |
| BcacheTheorems.ReferenceHoldsStill | kernel/src/bcache.rs:531-546 | over every run, other readers' drops of the same block included, a reference not yet dropped keeps its slot on its block and its bytes unchanged and current |
| BcacheTheorems.StepFate | crates/qunix-bcache/src/lib.rs:262-393 | unsynced bytes leave a slot only once the disk has them, and become unsynced only by a store |
| BcacheSync.SyncIsDurable | kernel/src/bcache.rs:783-839 | when sync returns Ok, the disk has held a version at least as new as the one at entry of every block dirty or under writeback then, whatever ran meanwhile |
| BcacheSync.SyncWritesBack | kernel/src/bcache.rs:783-839 | when sync returns Ok, the disk holds for every block exactly the bytes last stored before the call, unless stored again since |
| BcacheSync.OwedStep | kernel/src/bcache.rs:720-748 | an owed version stays on its way to the disk or on it through every step, slot reuse included |
| BcacheLate.LateLandingLosesBytes | kernel/src/bcache.rs:484-498 | a concrete run in which an abandoned write lands after newer bytes were written and acknowledged, and the block then reads as the older bytes |
| BcacheKernel.Bcache.constructor | kernel/src/bcache.rs:262-268 | an initialised cache is the empty one |
| BcacheKernel.Bcache.Find | crates/qunix-bcache/src/lib.rs:196-200 | the search loop finds what the specification names |
| BcacheKernel.Bcache.UnsyncedMask | kernel/src/bcache.rs:695-706 | the mask holds exactly the slots dirty or under writeback |
| BcacheKernel.Bcache.TakeSlot | kernel/src/bcache.rs:585-605 | the free-or-evicted slot is the specified one and no other slot changes |
| BcacheKernel.Bcache.Claim | kernel/src/bcache.rs:364-380 | the in-place claim is the step; it waits exactly on a block being read in, hits exactly on any other block held, begins a fill exactly for an absent block while some slot is unpinned and clean or free, and reports a full table otherwise |
| BcacheKernel.Bcache.Store | kernel/src/bcache.rs:521-575 | the in-place store is the step; it is held off by a fill, by a writeback or by a reader, each exactly in its own case, and refused for room exactly if the block is absent and every slot pinned, dirty or busy |
| BcacheFlags.TakenExactly | kernel/src/bcache.rs:608-621 | a block is taken exactly if it is on the one device and its sectors have 64-bit numbers, a store exactly if it also is 4096 bytes; each refusal in its own case |
| BcacheFlags.SectorsApart | kernel/src/bcache.rs:189-191 | a block's first sector is where its bytes begin, and no two blocks share a sector |
| BcacheFlags.DirtiedStaysDirty | crates/qunix-bcache/src/lib.rs:262-317 | a slot dirtied while its I/O runs is dirty when that ends, however it ends |
| BcacheFlags.RefusalRemembered | kernel/src/bcache.rs:571-573 | a slot is marked refused exactly from the end of a refused writeback to the next store into it or the next writeback that succeeds |
| BcacheKernel.Bcache.FinishFill | kernel/src/bcache.rs:388-412 | ending a fill in place is the specified step |
| BcacheKernel.Bcache.DropFill | kernel/src/bcache.rs:344-356 | a dropped fill frees its slot |
| BcacheKernel.Bcache.BeginWriteback | kernel/src/bcache.rs:720-734 | a writeback begins exactly on a dirty slot |
| BcacheKernel.Bcache.FinishWriteback | kernel/src/bcache.rs:737-748 | a refused writeback leaves the block dirty and marked, an accepted one clean |
| BcacheKernel.Bcache.DropWriteback | kernel/src/bcache.rs:491-498 | a dropped writeback leaves the block dirty |
| BcacheKernel.Bcache.DropRef | kernel/src/bcache.rs:288-300 | dropping a reference unpins once |
| BcacheFlush.WriteBack | kernel/src/bcache.rs:755-770 | writing a slot back changes no reader's bytes, and leaves it clean or, refused, dirty |
| BcacheFlush.Sync | kernel/src/bcache.rs:783-839 | with nobody else at work sync ends, trying each slot once; it succeeds exactly when no owed slot is refused, and then the disk shows every block as last stored |
| VirtQueue.TakenPartition | crates/qunix-virtio/src/queue.rs:98-124 | taking a chain keeps every descriptor free or in exactly one chain, once |
| VirtQueue.FreedPartition | crates/qunix-virtio/src/queue.rs:131-146 | giving a chain back keeps every descriptor free or in exactly one chain, once |
| VirtQueue.SplitQueue.constructor | crates/qunix-virtio/src/queue.rs:62-82 | a new queue has every descriptor on its linked free list |
| VirtQueue.SplitQueue.AllocChain | crates/qunix-virtio/src/queue.rs:98-124 | takes the first n free descriptors as one linked, terminated chain, or nothing at all |
| VirtQueue.SplitQueue.FreeChain | crates/qunix-virtio/src/queue.rs:131-146 | returns every descriptor of the chain to the free list and clears its in-flight mark |
| VirtQueue.SplitQueue.Describe | crates/qunix-virtio/src/queue.rs:152-158 | fills a descriptor in without moving any link |
| VirtQueue.SplitQueue.NextInChain | crates/qunix-virtio/src/queue.rs:161-164 | walks a chain in the order it was allocated |
| VirtQueue.SplitQueue.Publish | crates/qunix-virtio/src/queue.rs:173-188 | marks the chain in flight and writes its head at the 16-bit index reduced modulo the size |
| VirtQueue.SplitQueue.TakeUsed | crates/qunix-virtio/src/queue.rs:217-228 | takes a completion exactly when it names a chain in flight, and then no second time |
| VirtQueue.SplitQueue.IngestUsedSlot | crates/qunix-virtio/src/queue.rs:316-325 | copies one entry, refusing a slot outside the ring |
| BlkSafe.StepSafe | kernel/src/block.rs:439-881 | whatever the device writes, no step frees a chain in flight or overruns the wake array, and every step keeps descriptors, slots and callers accounted for |
| BlkSafe.SubmitDesc | kernel/src/block.rs:511-580 | a submission gives its chain three places in the table and touches no other chain's descriptors |
| BlkSafe.WriteDescDesc | kernel/src/block.rs:590-610 | each write puts the next descriptor of the chain in place and touches no other chain's |
| BlkTheorems.RunSafe | kernel/src/block.rs:439-881 | the same over every run with an arbitrary device |
| BlkTheorems.ExclusiveBuffers | kernel/src/block.rs:526-536 | two chains not yet freed, quarantined ones included, share no descriptor, header, status byte or bounce byte |
| BlkTheorems.FlightsKeepToThemselves | kernel/src/block.rs:526-536 | what the device may still write for a chain in flight, its caller gone or not, is no other caller's and not free |
| BlkTheorems.FlightHoldsStill | kernel/src/block.rs:716-734 | a chain the device may be using stays allocated to its request until its completion is consumed, across timeouts and dropped requests |
| BlkTheorems.StrandsExactly | kernel/src/block.rs:713-734 | a chain is stranded in exactly one way: a request finished as timed out although its completion was already consumed |
| BlkRuns.StrandingIsReachable | kernel/src/block.rs:713-734 | a concrete run of an honest device that strands a chain |
| BlkTheorems.StrandedForGood | kernel/src/block.rs:713-734 | a stranded chain never returns to the free list in any run, of a device that writes anything or of one that fetches and completes honestly |
| BlkTheorems.Conserved | kernel/src/block.rs:511-580 | free descriptors plus three per slot record are always 64 |
| BlkTheorems.RefusedExactly | kernel/src/block.rs:519-524 | a submission is refused exactly when 21 chains are out |
| BlkSteps.StepInv | kernel/src/block.rs:511-881 | with a device that completes only what it fetched, every step keeps where each chain is, breaks nothing, and counts no fault but a short read |
| BlkSteps.WriteSlotRings | kernel/src/block.rs:611-626 | the ring slot a submission writes is one the device has already fetched from |
| BlkSteps.FetchReads | kernel/src/block.rs:590-646 | at every moment of a submission the device-visible index covers only slots naming the next published heads |
| BlkSteps.PendingIs | kernel/src/block.rs:794-806 | the handler finds pending exactly what was posted since, never more than a ring |
| BlkSteps.DrainReads | kernel/src/block.rs:818-840 | the entry the handler reads is the oldest posted and not yet consumed |
| BlkTheorems.RunInv | kernel/src/block.rs:511-881 | the same over every run, the fault counter growing by exactly the short reads reported |
| BlkTheorems.FetchesDescribedChains | kernel/src/block.rs:590-646 | whenever the device fetches, between any two writes of a submission included, it gets a head whose chain is described whole for the request published there |
| BlkTheorems.CompletionIsCredited | kernel/src/block.rs:840-873 | each used entry is consumed once, in order, and credited to the request its chain was published for, with the device's own status and length |
| BlkTheorems.WholeTransferExactly | kernel/src/block.rs:735-763 | a successful read returns the device's own bytes for that request if and only if the used length is one more than was asked for; a used length equal to it is also let through |
| BlkRuns.ShortReadIsReachable | kernel/src/block.rs:735-763 | a concrete run of an honest device in which a read one byte short is answered as whole |
| BlkTheorems.AnswersAreTheDevices | kernel/src/block.rs:713-764 | an error is the device's own, a write reported done was, a short read was short; when each is given is stated by AnsweredExactly |
| BlkAnswers.FinishAnswers | kernel/src/block.rs:713-764 | with any device: a caller is answered once, and each of the five answers is given if and only if the status, the reported length and the direction are its own |
| BlkAnswers.PollAnswers | kernel/src/block.rs:679-711 | a poll of a finished request hands over the device's status, at its deadline too; an unfinished one times out exactly at its deadline |
| BlkAnswers.AnsweredExactly | kernel/src/block.rs:471-492 | from submission to answer, over every run: timed out if the deadline passed before the completion was consumed, and otherwise exactly the answer for the device's verdict on that very request |
| BlkAnswers.WriteCarriesItsBytes | kernel/src/block.rs:557-563 | until a write's completion is consumed, the buffer its chain describes holds exactly the caller's bytes, whatever else runs |
| BlkAnswers.SubmitterIsWoken | kernel/src/block.rs:511-580 | over every run the completion of a request still waited for wakes the thread that submitted it and nobody else, and until the device has completed it the status byte is the unreported one |
| BlkCounts.CountsExactly | kernel/src/block.rs:176-203 | with any device: the counters of faults, of chains given up on and of chains that came back each count exactly their own cases |
| BlkCounts.RunBalanced | kernel/src/block.rs:184-191 | over every run the gap between chains given up on and chains that came back is exactly the chains still marked so: those stranded, and those the device still has, which its comment leaves out |
| BlkCounts.AcceptedExactly | kernel/src/block.rs:511-530 | a transfer is accepted exactly if it is one to eight whole sectors, and too large exactly if it is more whole sectors |
| BlkKernel.Driver.constructor | kernel/src/block.rs:344-354 | a device brought up is the empty driver |
| BlkKernel.Driver.TakeEntry | kernel/src/block.rs:818-840 | the entry is taken exactly when it names a chain in flight |
| BlkKernel.Driver.HandleCompletion | kernel/src/block.rs:770-873 | the handler loop is the specified drain of everything pending |
| BlkKernel.Driver.WriteChain | kernel/src/block.rs:590-610 | walking the chain copies exactly its three descriptors into the device's table |
| BlkKernel.Driver.Submit | kernel/src/block.rs:511-646 | submission in place is the specified step followed by its descriptor, slot and index writes, or a refusal that changes nothing |
| BlkKernel.Driver.Finish | kernel/src/block.rs:713-764 | the in-place answer is the specified step, whose every answer FinishAnswers pins |
| BlkKernel.Driver.DropRequest | kernel/src/block.rs:439-468 | dropping a request in place is the specified step: freed if done, else quarantined |
| ElfFormat.ReadsBack | crates/qunix-elf/src/lib.rs:263-273 | a little-endian number of any width, anywhere in a file, reads back as itself |
| ElfFormat.ParsesExactly | crates/qunix-elf/src/lib.rs:126-258 | a file laid out with given program headers parses if and only if every loaded header fits the file, its memory and the address space, and then yields exactly the entry and the segments laid out, in order |
| ElfFormat.AcceptedExactly | crates/qunix-elf/src/lib.rs:132-188 | a file is accepted if and only if it is laid out as an x86-64 ELF64 executable, field by field at its offset, with acceptable program headers |
| Elf.ParsedSegmentsOk | crates/qunix-elf/src/lib.rs:126-258 | every loadable segment of every file that parses has file data that fits its memory and a range that does not wrap |
| VmSpace.NewSpace | kernel/src/vmspace.rs:151-179 | fails exactly when no frame is left; a fresh space owns exactly one new frame, its root: the user half zeroed, the kernel half the kernel root's; it maps nothing and touches no other frame |
| VmSpace.Space.EnsureTables | kernel/src/vmspace.rs:212-225 | missing page tables are created, each in a frame nobody had and the space now owns; it fails only when no frame is left |
| VmSpace.Space.MapUser | kernel/src/vmspace.rs:190-226 | maps an unmapped user page to any frame and nothing else, or changes no mapping; refused as not a user address, or as mapped already, exactly when it is so, and for want of frames only when none is left; at most three tables more |
| VmSpace.Space.MapNewPage | kernel/src/vmspace.rs:233-246 | maps a page to a fresh zeroed frame and leaves every other frame's contents alone; at most four frames more, and for want of frames only when none is left |
| VmSpace.Space.SetPermissions | kernel/src/vmspace.rs:268-280 | succeeds exactly on a mapped page, keeps its frame and takes none; otherwise changes nothing |
| VmSpace.Space.Drop | kernel/src/vmspace.rs:298-322 | gives back exactly the frames the space owns, each once; the space must not be the active one |
| Loader.CopyStep | kernel/src/process.rs:102-122 | each page run copied puts its bytes in place and changes no other address |
| Loader.CopySegment | kernel/src/process.rs:102-122 | the copy loop puts the whole file image in place, over what was there, and touches nothing else |
| Loader.MapSegment | kernel/src/process.rs:81-90 | maps exactly the segment's missing pages and changes no byte already there, with at most four frames a page; fails only for want of frames |
| Loader.LoadSegments | kernel/src/process.rs:79-123 | after all segments each mapped address holds the last covering segment's file byte, or zero |
| Loader.Permissions | kernel/src/process.rs:136-144 | the permission map is the union of what every segment on a page asks for |
| Loader.ApplyPermissions | kernel/src/process.rs:145-154 | sets every page's permissions, or fails exactly when some page is both writable and executable, naming the lowest such page |
| Loader.MapStack | kernel/src/process.rs:156-159 | maps the stack pages writable and not executable where nothing was mapped |
| Loader.Validate | kernel/src/process.rs:75-77 | the first segment out of bounds decides the refusal, before anything is mapped |
| Loader.RefusedExactly | kernel/src/process.rs:24-46 | a segment is refused as a bad address exactly if its last page ends past the address space, and as not user memory exactly if it is otherwise outside it |
| Loader.PagesAreTouched | kernel/src/process.rs:24-46 | the page range of a segment is exactly the pages its memory is on; an empty one has none, unless it starts inside a page |
| Loader.FromElf | kernel/src/process.rs:70-162 | a successful load gives the file's entry point, maps exactly the pages some segment's memory is on and the stack's, each writable or executable exactly if some segment on it asked and never both, every byte the program's; a failed load returns every frame it took, for a named reason: the first segment out of bounds, the lowest page asked to be both, a segment where the stack goes, no frame for the root exactly if there was none, or none left later only if there were fewer than one and four for each page; no one else's memory is touched |
| Vercmp.TrimZerosLoop | qpkg/src/vercmp.rs:126-131 | the loop drops exactly the leading zeros |
| Vercmp.CmpSegmentsLoop | qpkg/src/vercmp.rs:41-110 | the comparison loop computes the specified order, and reaches its last decision only with one side used up |
| Vercmp.Antisymmetric | qpkg/src/vercmp.rs:13-25 | on all strings, swapping the arguments flips the result |
| Vercmp.Reflexive | qpkg/src/vercmp.rs:13-25 | every version equals itself |
| Vercmp.NumericIsValue | qpkg/src/vercmp.rs:118-124 | digit runs of any length compare as the unbounded numbers they write |
| Vercmp.DottedIsLists | qpkg/src/vercmp.rs:41-110 | on dotted-numeric versions the order is exactly the lexicographic order of the numbers, a proper prefix smaller |
| Vercmp.SplitWritten | qpkg/src/vercmp.rs:30-39 | a numeric version splits back into the epoch, version and release it was written from |
| Vercmp.NumericVersions | qpkg/src/vercmp.rs:13-39 | wholly numeric versions order by epoch, then version, then release |
| VersionOrder.SegmentsAreTokens | qpkg/src/vercmp.rs:41-110 | without a letter standing apart from a digit or from the start, the comparison is the lexicographic order of tokens: attached letters, end, letters apart, trailing separator, number |
| VersionOrder.DifferenceDecides | qpkg/src/vercmp.rs:74-84 | of two runs the first character that differs decides |
| VersionOrder.LetterDecides | qpkg/src/vercmp.rs:41-110 | two versions that first differ in a letter are ordered by those letters, whatever stands before and after |
| VersionOrder.LongerWordDecides | qpkg/src/vercmp.rs:41-110 | of two words that start alike the longer is greater, whatever stands before and after |
| VersionOrder.NoEpochIsZero | qpkg/src/vercmp.rs:30-39 | a version without an epoch is at epoch zero |
| VersionOrder.StrayBreaks | qpkg/src/vercmp.rs:92-109 | any version with such a letter equals itself with the gap closed, yet what stands before the gap lies strictly between the two |
| VersionOrder.TidyNeighboursBreak | qpkg/src/vercmp.rs:92-109 | cut after the first run of such letters, the gap closed and the run one letter longer, a version is below what stands before the gap, which is below the version, and yet above the version: a cycle |
| VersionOrder.Transitive | qpkg/src/vercmp.rs:13-39 | on versions with a release and without such letters the whole comparison is an order: epoch, version, release |
| VersionOrder.TransitiveWithoutReleases | qpkg/src/vercmp.rs:13-39 | and on versions that all lack a release |
| VersionOrder.SplitJoin | qpkg/src/vercmp.rs:30-39 | a version put together from its three parts splits back into them |
| VersionOrder.MissingReleaseTies | qpkg/src/vercmp.rs:18-23 | a version without a release equals every release of it |
| VersionOrder.MissingReleaseBreaks | qpkg/src/vercmp.rs:18-23 | any version without a release equals its releases 2 and 1, and they differ |
| VersionOrder.OthersBreak | qpkg/src/vercmp.rs:13-39 | every version string outside the condition breaks transitivity with some two versions inside it |
| VersionOrder.FitsExactly | qpkg/src/vercmp.rs:13-39 | the condition is exact: a version breaks no order with any two versions that meet it if and only if it meets it itself |
| Toolchain.ReplaceTool | qpkg/src/toolchain.rs:102-139 | the find loop computes the specified replacement |
| Toolchain.LoopIsScan | qpkg/src/toolchain.rs:102-139 | the loop that jumps from occurrence to occurrence misses no match a left-to-right scan would replace |
| Toolchain.TokensFlatten | qpkg/src/toolchain.rs:98-100 | every line is spelt by its maximal words and separators |
| Toolchain.LoopIsRule | qpkg/src/toolchain.rs:102-139 | the loop replaces exactly the maximal words equal to the tool name; for command rules exactly those at the start of a command with arguments after them |
| Rewriter.ApplyIsRules | qpkg/src/toolchain.rs:68-86 | the four rules in turn are a map over the line's words |
| Rewriter.LineIdempotent | qpkg/src/toolchain.rs:63-88 | rewriting a line again changes nothing |
| Rewriter.WordBecomes | qpkg/src/toolchain.rs:69-74 | the four rules together: which words become which, and which only in command position |
| Rewriter.LogEmptyExactly | qpkg/src/toolchain.rs:75-84 | the log is empty exactly when no line changed |
| RewriterLog.LogExactly | qpkg/src/toolchain.rs:60-90 | the log has an entry exactly for each line that is no comment and each rule whose tool that line has in position, naming the line, the rule, the line as it came and as that rule left it |
| RewriterLog.LogInOrder | qpkg/src/toolchain.rs:60-90 | the entries are in the order of lines, and of rules within a line |
| RewriterLog.CommentExactly | qpkg/src/toolchain.rs:65-68 | a comment is a line whose first character that is no white space is a hash sign |
| Rewriter.RewriteOne | qpkg/src/toolchain.rs:63-87 | one line under the rules in turn, each change logged |
| Rewriter.RewriteText | qpkg/src/toolchain.rs:60-96 | the rewrite loop computes the specified text and log |
| RewriterText.SilentExactly | qpkg/src/toolchain.rs:60-96 | a text the log is silent about comes back unchanged exactly when it has no CR LF |
| RewriterText.SilentChange | qpkg/src/toolchain.rs:60-96 | a concrete text that changes with nothing logged |
| RewriterText.IdempotentExactly | qpkg/src/toolchain.rs:60-96 | rewriting twice equals rewriting once exactly when the text has no CR CR LF |
| RewriterText.NotIdempotent | qpkg/src/toolchain.rs:60-96 | a concrete text that a second rewrite changes again |

## Left out

- The context-switch assembly, interrupt masking, CR3 and TSS writes, inter-processor interrupts and memory-ordering levels: a switch is one step and atomics are sequentially consistent.
- `take_next` as code: it is steps of the scheduler specification, one per lock; its loop over other processors is not also written as a method.
- SchedSearch.LooksEverywhereFirst: whether a processor is on line is read as it is visited, where the code reads the mask once before the loop; a processor that comes on line in between is visited here and not there.
- Eventual progress of the scheduler: that a queued thread is eventually dispatched depends on ticks and inter-processor interrupts.
- BlockOn.WStepInv: excludes the one delivery that loses a wake, because the property is false there (LostWakeUncovers).
- BcacheTheorems.RunView: speaks of runs without harmful late landings, because the property is false otherwise (LateLandingExactly).
- BcacheFlush.Sync: assumes nobody else stores or flushes meanwhile; with a writer that keeps dirtying an owed slot the code need not return. Alone it tries each slot once and has no idle round, so one outcome per slot is all there is. The guarantees under any interleaving are SyncIsDurable and SyncWritesBack; a `sync` that reports a stall promises nothing and is not a step.
- SchedKernel.Kernel.UnparkLocked: asks that ids are below 2^63 - 1, because beyond that the tagged word no longer names the thread (ClaimFindsExactly).
- SchedKernel.Kernel.ScheduleLocked: asks that ids are below 2^63 - 1, for the same reason.
- SchedKernel.Kernel.ClaimParkedHandoff: asks that ids are below 2^63 - 1, for the same reason.
- Running out of thread ids at 2^64, and the lock-depth assertion of a debugging build.
- `make_room`, `flushable_slot` and the wait and retry bounds of `read_block` and `write_block`: they only choose which of the modelled steps to take next and when to give up.
- `bcache::init` returning its frames when memory runs out: a loop over frames like the one proved for the loader.
- The cache's block and the driver's byte contents are connected only by what a transfer promises; the two state machines are not composed.
- Device discovery, register access, MSI-X programming and notification of the block device.
- BlkTheorems.CompletionIsCredited: speaks of a device that completes only what it fetched; a device that forges a completion for a chain in flight can end that request early, and no driver can tell.
- Descriptor flags are two booleans, and byte-level encodings of descriptors, ring entries and request headers are not modelled.
- The page-table walker itself, TLB shootdown, and page-table entries as bytes: a table is known by the frame it is in.
- ElfFormat.ParsesExactly: which of several refusals a bad file meets first is given by `Parse` and not restated; fields the parser does not read are not modelled.
- Loader.FromElf: the frame count is enough for any load, not the least: tables and pages that segments share are counted once for each.
- Entering user mode after a load, and spawning the thread that does.
- VersionOrder.Transitive: speaks of versions with a release and without stray letters, because every other version breaks it with two of these (FitsExactly).
- Strings are sequences of characters; a version or a line with non-ASCII text is compared character by character where the code goes byte by byte, which treats every non-ASCII byte as a separator alike.
- The environment `build_env` makes and the host checks around the rewriter.
- The buddy and slab allocators, system calls, boot, symmetric bring-up, console output, and the rest of qpkg.
