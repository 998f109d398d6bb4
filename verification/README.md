# RSGC: a verified model

RSGC is a region-based mark-and-sweep garbage collector written in Rust. This project models its hardest parts in Dafny
and proves what they promise, over every input, every interleaving and every reachable state:

* parallel stop-the-world marking with work stealing, array chunking and counter-based termination;
* heap space: the segregated free list, regions, thread-local buffers, the sweeper, the object-start bitmap, the free
  set of regions and humongous runs, as one state machine over whole runs;
* the composition of the two: after a stop-the-world cycle a block survives exactly when its object is reachable from
  the roots or from work that a cancelled marking left behind, provided that thread buffers do not exceed the humongous
  threshold;
* the synchronisation protocols: `SingleWriterSynchronizer`, `SuspendibleThreadSet` and the safepoint handshake;
* the Arora-Blumofe-Plaxton work-stealing deque;
* the garbage-collected hash map.

`dafny verify dfyconfig.toml` checks everything.

## Reading guide

| files | what they hold |
|---|---|
| `Powers.dfy`, `Tiling.dfy` | powers of two and logarithms; blocks, tiles and what it means to tile an interval |
| `ArrayChunking.dfy`, `MarkTaskCodec.dfy` | splitting of large arrays; the 64-bit packing of a mark task |
| `HeapGraph.dfy`, `MarkScript.dfy`, `ParallelMark.dfy` | the object graph and reachability; what one mark task does; the interleaved step system of the workers |
| `MarkTermination.dfy`, `MarkTasks.dfy`, `MarkExact.dfy`, `MarkRestart.dfy`, `MarkBound.dfy`, `MarkIdling.dfy` | termination detection, where tasks go, exactness, starting from left-over work, bounded work, idling and leaving |
| `AbpDeque.dfy`, `AbpOrder.dfy` | the deque: unique claims; which element each operation gives |
| `SingleWriter.dfy`, `SuspendibleThreads.dfy`, `Safepoint.dfy` | one protocol each |
| `FreeListSpec.dfy`, `FreeList.dfy` | the free list as a value; the linked entries in memory that implement it |
| `ObjectHeader.dfy`, `RegionModel.dfy`, `Sweeper.dfy` | the size in an object's header; one region: allocation, buffers, sweeping |
| `FreeSetModel.dfy`, `Humongous.dfy`, `FreeSet.dfy` | the region table: invariant, humongous runs and collector passes, the loops of the free set |
| `HeapRun.dfy`, `HeapInvariant.dfy` | the steps and runs of the whole heap; every step keeps the invariant |
| `HeapSafety.dfy`, `HeapGrowth.dfy`, `ObjectResolution.dfy`, `HumongousLife.dfy`, `Uncommit.dfy` | what holds in every reachable state; what each step allocates and when; conservative pointers; the life of a humongous object; decommitting |
| `CollectionCycle.dfy` | the full cycle |
| `Bitmap.dfy`, `BitmapViews.dfy`, `HashMap.dfy` | the byte-cell bitmap and the chained hash map, each as a refinement |
| `BitmapRace.dfy` | many callers of the bitmap's test-and-set at once |

Concurrent code is modelled as a state machine: one step per access to shared memory, taken by any thread at any time,
with sequentially consistent atomics. A run is a sequence of states joined by enabled steps; the main lemmas speak of
every state of every run. Code that updates a data structure in loops is modelled as a method proved against a
specification function or predicate.

Besides safety each part says when its operations succeed, and that they come to an end: as an if-and-only-if on the
outcome of a step, as a sequence of steps that is enabled, or as a bound on the number of steps. What remains is that the
scheduler lets enabled steps happen.

## Where code and intention part

Nine promises turn out not to hold on all inputs. Each has a concrete witness and an exact condition.

* Array chunking (`src/heap/mark.rs:184-192`): past 2^30 elements the first half of an array is not visited, and past
  2^31 the assertion on the exponent fails. `MissedPrefixHappens` is the shortest such array; `ChunkingExactIff` shows
  that every index is visited exactly once if and only if the length is at most 2^30.
* Work left over by a cancelled marking (`src/heap/mark.rs:115-118`, `src/heap/full_gc.rs:45`,
  `src/heap/heap.rs:616-618`): cancelled workers leave their mark tasks in the queues, and the full cycle that follows
  clears the bitmap only. `DeadObjectMarks` is a run in which a task left over for a dead object marks what that object
  points to, and `LeftOverKeepsDead` shows that it survives. From whatever is left over, the marked objects are those
  reachable from the roots and the targets of left-over work (`MarkingFromLeftOvers`); marking and collection are exact
  if and only if every such target is reachable from the roots (`MarkingExactIff`, `CollectionExactIff`), and every slot
  is visited once if and only if nothing was left over (`VisitedOnceIff`).
* Work-stealing deque (`src/utils/taskqueue.rs:386-425`): a thief reads its slot after the compare-and-swap, when the
  owner may already have reused it. `StaleReadHappens` is a run in which the thief returns an element that is still
  queued; `SlotReadIff` shows that the thief's value is right if and only if the owner has not written the slot between
  the claim and the read, and `OverwriteNeedsLostPop` that it writes it only after losing the race for that very element
  or after a full turn of the ring. Claims themselves are always unique (`EachPushClaimedOnce`).
* Free-list bucket index (`src/heap/free_list.rs:11-13`): the size is cut to 32 bits. `TruncatedSizeHappens` sends 2^32
  to bucket 64; `BucketIndexIff` shows that a size lands in the bucket of its own magnitude if and only if it is positive
  and below 2^32.
* Region size (`src/heap/region.rs:909-931`): it is not bounded, and with 4 GB regions the very first allocation asks
  for a bucket that does not exist (`FourGigabyteRegionsFail`); `FreshHeapServesIff` shows that it finds one if and only
  if regions are below 4 GB. Statements about the heap are about such regions, with any threshold and any buffer size.
* Header size (`src/system/object.rs:370-386`, `src/heap/thread.rs:165-187`): a size too large for the header's tag is
  recomputed from 32 bits of the length. `HugeArrayShrinks` is a byte array of whose 131073 regions a sweep frees one;
  `HeaderReadsBackIff` shows that the size reads back if and only if there are fewer than 2^32 items, or items of no size.
* Buffers above the humongous threshold (`src/heap/region.rs:952-958`, `src/heap/free_set.rs:125-132`): nothing keeps
  the smallest buffer size at or below the threshold, and then a buffer becomes a humongous run.
  `SmallThresholdMisresolves` is a configuration in which the second object of a buffer resolves to the first;
  `BufferObjectResolvesIff` shows that a buffer's objects resolve to their headers if and only if the buffer size is at
  most the threshold, and `ObjectStartIff` says for every configuration which objects resolve. Such a run is also swept
  as a whole by its first header (`SweepFreesUnmarked`).
* Retiring large buffers (`src/heap/tlab.rs:90-98`): `SmallRegionsStuck` is a configuration with 4 KB regions in which a
  fresh buffer cannot be retired, because its unused end has no bucket; `CanRetireIff` shows that a buffer can be
  retired if and only if its unused end is smaller than two regions.
* Uncommitting (`src/heap/heap.rs:236-256`): the state of the region is checked again under the lock, but the check
  guards only the decision to stop. `UncommitLosesObject` is a run of three steps in which an object allocated between
  check and lock disappears; `DecommitSafeIff` shows that a decommit keeps the heap consistent and loses no object if
  and only if, when the lock is held, the region is vacant (no start bit, no humongous run, no buffer, not waiting for
  the sweeper) or a continuation that nobody uses. Statements about runs of the heap are about runs in which every
  decommit finds its region vacant.

One promise is a matter of scheduling: the work of marking is bounded (`WorkIsBounded`), but workers that find nothing
may go around for ever while another one is counted as busy (`IdleCycleRepeats`); a decrement ends the protocol if and
only if all others are idle (`DecreaseEndsIff`).

## Model

| member | source | states |
|---|---|---|
| `ArrayChunking.ChunkingExactIff` | src/heap/mark.rs:157-254 | the pushed chunks, recursively split, plus the direct tail visit each index exactly once and nothing outside if and only if the length is at most 2^30 |
| `ArrayChunking.PlanTiles` | src/heap/mark.rs:157-224 | up to 2^30 elements the start step pushes chunks of at most 10 bits with powers of at most 5 bits that tile a prefix, and visits the rest directly |
| `ArrayChunking.HalvingTiles` | src/heap/mark.rs:226-254 | halving a chunk tiles its interval with the pushed halves followed by the range visited on the spot |
| `ArrayChunking.LongArrayMissesPrefix` | src/heap/mark.rs:184-192 | from 2^30 + 1 to 2^31 elements the array is split, and no index below 2^30 is visited |
| `ArrayChunking.LongArrayPlanIff` | src/heap/mark.rs:170-192 | past 2^30 elements the array is still split if and only if it has at most 2^31; beyond, the assertion fails |
| `ArrayChunking.MissedPrefixHappens` | src/heap/mark.rs:184-192 | an array of 2^30 + 1 elements is split and none of its first 2^30 elements is visited |
| `ArrayChunking.BoundsFitI32` | src/heap/mark.rs:226-254 | every bound computed for a chunk that ends at or below 2^30 fits a signed 32-bit integer, and every chunk it pushes is of this kind again, so all chunks an array leads to are |
| `ArrayChunking.DoChunkedArrayStart` | src/heap/mark.rs:157-224 | the loop of the start step computes the plan the lemmas are about, including the panic of its assertion |
| `ArrayChunking.DoChunkedArray` | src/heap/mark.rs:226-254 | the halving loop pushes the halves and visits the remaining interval |
| `MarkTaskCodec.RoundTripsIff` | src/heap/mark.rs:453-580 | decoding returns the encoded address, flags, chunk and power if and only if the address is 4-aligned and below 2^49, the chunk below 2^10 and the power below 2^5 |
| `MarkTaskCodec.EncodeDecode` | src/heap/mark.rs:453-580 | encoding inverts decoding on every 64-bit word |
| `MarkTaskCodec.ChunkedIff` | src/heap/mark.rs:453-580 | a chunk task is never taken for a whole-object task nor the reverse |
| `MarkScript.ScriptExact` | src/heap/mark.rs:142-254 | processing one mark task visits or delegates every pointer slot it answers for exactly once, and no other |
| `MarkScript.ScriptLighter` | src/heap/mark.rs:142-254 | a mark task weighs strictly more than everything its processing leaves to do |
| `MarkTermination.TerminationIsSafe` | src/heap/mark.rs:112-140 | in every interleaving of any number of workers, a worker has left only in states where all segments, deques and the injector are empty and nobody holds a mark task |
| `MarkTermination.ZeroIsFinal` | src/heap/mark.rs:37-82 | once the worker counter is zero it never rises and no work reappears |
| `MarkTermination.CounterCounts` | src/heap/mark.rs:37-82 | with several workers the counter is always the number of those not waiting for termination, so it never underflows |
| `MarkTasks.SearchFindsIff` | src/heap/mark.rs:778-833 | in every run a search of the own segment, the own deque, the injector or a victim's deque takes a task if and only if that queue holds one, from the back of its own and the front of others, starts on it, and loses no other task |
| `MarkTasks.OthersConserve` | src/heap/mark.rs:842-881 | every other step leaves the tasks in all queues together as they are, but for the one that a push adds |
| `MarkExact.MarkingFromLeftOvers` | src/heap/mark.rs:352-379 | from any queues, when a worker has left, the marked set is what is reachable from the roots and from the targets of left-over work, and each slot was visited once for its marked object and once for each time it was left over |
| `MarkExact.MarkingExactIff` | src/heap/mark.rs:352-379 | the marked set is the reachable set if and only if every target of left-over work is reachable from the roots |
| `MarkExact.VisitedOnceIff` | src/heap/mark.rs:142-155 | every reachable object was scanned once, each of its pointers visited once and nothing else touched, if and only if nothing was left over |
| `MarkExact.MarkingIsExact` | src/heap/mark.rs:352-379 | from root tasks alone, when a worker has left, the marked set is the reachable set, every reachable object was scanned once and each of its pointers visited once |
| `MarkExact.MarkingIsSafe` | src/heap/mark.rs:897-905 | at no time, from any queues, is an object marked that neither roots nor left-over work reach, or a slot visited more than once beyond its left-over count |
| `MarkExact.StartIsSeeded` | src/heap/marking_context.rs:79-89 | root processing from a cleared bitmap and empty queues gives a state that marking runs start from |
| `MarkRestart.RestartIsStarted` | src/heap/mark.rs:115-118 | clearing the bitmap and processing the roots on the queues of a cancelled marking gives a state that marking runs start from, and exactly what the queues held is left over |
| `MarkRestart.DeadObjectMarks` | src/heap/mark.rs:115-118 | a run of a full cycle without roots after a cancelled marking in which a worker leaves with an unreachable object marked |
| `MarkBound.PotentialStep` | src/heap/mark.rs:112-155 | every work step lowers a potential of unmarked objects and outstanding work; no other step raises it |
| `MarkBound.WorkIsBounded` | src/heap/mark.rs:778-881 | the number of work steps of a run is bounded by the potential of its first state |
| `MarkBound.NoWorkerStuck` | src/heap/mark.rs:778-881 | until a worker has left, some step of it is enabled |
| `MarkIdling.IdleCycleRepeats` | src/heap/mark.rs:37-82 | with nothing left to mark and another worker counted as busy, a worker can give up, wake, rejoin, search and give up again any number of times, each time ending exactly where it began |
| `MarkIdling.DecreaseEndsIff` | src/heap/mark.rs:37-53 | in every run a decrement makes its worker leave, with the counter at zero, if and only if every other worker is idle at that moment |
| `MarkIdling.IdleLeavesIff` | src/heap/mark.rs:55-82 | a worker that looks at the counter while idle leaves if and only if it is zero, and joins in again if and only if its exchange finds the counter as it saw it |
| `MarkIdling.EveryoneLeaves` | src/heap/mark.rs:37-82 | once the counter is zero every worker leaves in its very next step |
| `AbpDeque.EachPushClaimedOnce` | src/utils/taskqueue.rs:277-425 | with one owner and any number of thieves each push is claimed at most once, only pushes are claimed, and an unclaimed push is still between top and bottom |
| `AbpDeque.AgeMonotone` | src/utils/taskqueue.rs:59-177 | the pair of tag and top never decreases lexicographically, and grows with every change |
| `AbpDeque.StaleCasFails` | src/utils/taskqueue.rs:386-425 | a compare-and-swap whose expected age was read before a change of the age fails |
| `AbpDeque.PushAssertsHold` | src/utils/taskqueue.rs:319-349 | the assertions of push hold whenever it is called |
| `AbpDeque.SizesExact` | src/utils/taskqueue.rs:59-177 | the wrap-around sizes are exact, a lost race showing as n - 1 |
| `AbpDeque.SlotReadIff` | src/utils/taskqueue.rs:386-425 | a thief returns the element it claimed if and only if the owner did not write the slot between the claim and the read |
| `AbpDeque.OverwriteNeedsLostPop` | src/utils/taskqueue.rs:277-349 | the owner writes a claimed slot again only after its own pop lost the race for that very element, or after the pushes went once around the ring |
| `AbpDeque.StaleReadHappens` | src/utils/taskqueue.rs:386-425 | a concrete run in which a thief returns an element that is still queued and unclaimed |
| `AbpOrder.StealFindsEmptyIff` | src/utils/taskqueue.rs:386-406 | a thief whose age is still current finds the deque empty if and only if no position is left below bottom, and then nothing is unclaimed but, at most, the element the owner is popping |
| `AbpOrder.StealClaimsOldest` | src/utils/taskqueue.rs:408-424 | a thief's exchange claims the oldest unclaimed push if and only if the age is the one it read, and nothing otherwise |
| `AbpOrder.UndisturbedSteal` | src/utils/taskqueue.rs:386-425 | a steal alone runs through and claims the oldest unclaimed push, or ends empty-handed if and only if there is none below bottom |
| `AbpOrder.PushRefusedIff` | src/utils/taskqueue.rs:338-348 | a push is refused if and only if n - 2 elements are queued |
| `AbpOrder.PublishedIsNewest` | src/utils/taskqueue.rs:338-345 | whatever thieves do meanwhile, publishing makes the push the newest unclaimed one |
| `AbpOrder.UndisturbedPush` | src/utils/taskqueue.rs:319-349 | a push alone with room left runs through and makes the next number the newest unclaimed push |
| `AbpOrder.PopRefusedIff` | src/utils/taskqueue.rs:351-361 | a pop is refused at once if and only if no more elements are queued than its threshold |
| `AbpOrder.PopChooses` | src/utils/taskqueue.rs:363-384 | after lowering bottom the owner claims the newest unclaimed push at once if and only if it is not the last, and races for the last one if and only if no thief has taken it |
| `AbpOrder.PopClaimsLast` | src/utils/taskqueue.rs:277-305 | the owner's exchange claims the last unclaimed push if and only if the age has not changed since it was read |
| `AbpOrder.LostPopDrains` | src/utils/taskqueue.rs:277-305 | a pop that loses the race leaves an empty deque and nothing unclaimed |
| `AbpOrder.UndisturbedPop` | src/utils/taskqueue.rs:351-384 | a pop alone with more elements queued than its threshold runs through and claims the newest unclaimed push |
| `SingleWriter.SynchronizeWaitsForOld` | src/sync/single_writer.rs:42-95 | when synchronize returns, every section open at its polarity flip has exited |
| `SingleWriter.WakeupNotLost` | src/sync/single_writer.rs:30-95 | a blocked writer always has an open old section or a signal pending or on its way |
| `SingleWriter.StoreHitsUnusedCounter` | src/sync/single_writer.rs:42-95 | the store that prepares the other exit counter never hits a counter in use |
| `SingleWriter.InvRun` | src/sync/single_writer.rs:30-95 | the counting invariant: exit counter plus twice the open sections equals the enter counter for the live polarity, in every reachable state |
| `SingleWriter.WriterNeverStuck` | src/sync/single_writer.rs:42-95 | the writer's next step is enabled, or it waits for a section of the old polarity that is still open or for one about to wake it |
| `SingleWriter.WriterIsBounded` | src/sync/single_writer.rs:42-95 | in any stretch of a run the writer takes no more steps than the calls, entries and signals in it account for: its retry, wait and drain loops end |
| `SingleWriter.FlipsOnce` | src/sync/single_writer.rs:42-95 | a call of synchronize flips the polarity exactly once, however often its exchange fails |
| `SingleWriter.EnterAlwaysOpens` | src/sync/single_writer.rs:30-33 | entering is never blocked and opens a section of the live polarity |
| `SingleWriter.ExitsNeverWait` | src/sync/single_writer.rs:35-40 | a section in progress always has a step, each of its steps brings it closer to its end, and no other step sets it back |
| `SuspendibleThreads.SynchronizedMeansStopped` | src/sync/suspendible_thread_set.rs:43-113 | between the return of synchronize and desynchronize every joined thread is stopped |
| `SuspendibleThreads.ExactlyOneSignal` | src/sync/suspendible_thread_set.rs:43-113 | a synchronize that waits consumes exactly one signal and none is left over |
| `SuspendibleThreads.WaitingCollectorIsWoken` | src/sync/suspendible_thread_set.rs:43-113 | once every member is stopped the waiting collector's signal is there |
| `SuspendibleThreads.StoppedNeverUnderflows` | src/sync/suspendible_thread_set.rs:63-78 | the unconditional decrement of yield never underflows |
| `SuspendibleThreads.YieldFindsSuspension` | src/heap/heap.rs:724-742 | the guarded yield enters only while a suspension is on |
| `SuspendibleThreads.EntersIffReleased` | src/sync/suspendible_thread_set.rs:43-78 | a joining thread becomes a running member, and a stopped one runs again, if and only if no suspension is on; the counters say so and nobody else moves |
| `SuspendibleThreads.ReleasedUntilNext` | src/sync/suspendible_thread_set.rs:106-113 | after desynchronize no suspension is on until the next synchronize |
| `SuspendibleThreads.MembersStop` | src/sync/suspendible_thread_set.rs:63-78 | a member that polls is asked to stop if and only if a suspension is on; one that yields is stopped, and signals if and only if it was the last |
| `SuspendibleThreads.LeaverIsGone` | src/sync/suspendible_thread_set.rs:53-61 | a member that leaves is none any more, and signals if and only if a suspension is on and all others are stopped |
| `SuspendibleThreads.SynchronizeWaitsIff` | src/sync/suspendible_thread_set.rs:80-104 | synchronize returns at once if and only if every member is stopped already, and otherwise with the signal |
| `SuspendibleThreads.SuspensionCompletes` | src/sync/suspendible_thread_set.rs:63-104 | a waiting collector has its signal or some member has a move left; members make at most two moves for each that was not stopped, and after that many the signal is there |
| `Safepoint.NoManagedStepInSafepoint` | src/heap/safepoint.rs:126-153 | from the return of begin until the page is disarmed no registered mutator takes a managed step |
| `Safepoint.CheckedStaysStopped` | src/heap/thread.rs:504-525 | a mutator the scan has passed stays stopped until the page is disarmed |
| `Safepoint.PageArmedExactly` | src/heap/safepoint.rs:33-116 | the page is armed exactly while the collector scans, is synchronized or has just unlocked the thread list, once, and disarming is never blocked |
| `Safepoint.MutatorsStop` | src/heap/thread.rs:585-593 | while the page is armed the scan may pass a mutator at once, or that is at most three of its own steps away from being passed |
| `Safepoint.OnlyOwnSteps` | src/heap/safepoint.rs:126-153 | no step of the collector or of another mutator moves a mutator |
| `Safepoint.CollectorNeverStuck` | src/heap/safepoint.rs:127-153 | the collector's next step is enabled, or that of a mutator its scan waits for |
| `Safepoint.CollectionIsBounded` | src/heap/safepoint.rs:127-153 | from the lock to the end a safepoint takes six steps of the collector and one for each registered mutator |
| `Safepoint.PollReturnsIff` | src/heap/thread.rs:504-525 | a read of the page leads back to managed code or to the safe scope if and only if the page is not armed, and faults otherwise |
| `Safepoint.PollIsFree` | src/heap/thread.rs:504-525 | a poll of the page while it is not armed runs through and changes nothing |
| `Safepoint.WaitEndsIff` | src/heap/safepoint.rs:107-116 | a waiting mutator may go on if and only if no collection is running |
| `Safepoint.HandlerRestores` | src/heap/thread.rs:585-593 | however long a collection takes, a mutator leaves the handler only to read the page again, in the state it faulted in |
| `Safepoint.WaiterReturns` | src/heap/thread.rs:585-593 | after the collection three steps of its own lead a waiting mutator back to managed code or its safe scope |
| `Safepoint.ScopesAreSeen` | src/heap/thread.rs:649-715 | a mutator in a safe scope may be passed by the scan at once; leaving the scope and registering lead to a read of the page before any managed step |
| `FreeListSpec.BucketIndexIff` | src/heap/free_list.rs:11-13 | a 64-bit size lands in the bucket of its own magnitude if and only if it is positive and below 2^32 |
| `FreeListSpec.TruncatedSizeHappens` | src/heap/free_list.rs:11-13 | a size of 2^32 is sent to bucket 64 |
| `FreeListSpec.RoundDownBracket` | src/heap/mod.rs:69-86 | the 32-bit rounding gives the largest power of two at or below the value |
| `FreeListSpec.AddKeeps` | src/heap/free_list.rs:52-76 | adding keeps bucket i at sizes in [2^i, 2^(i+1)), the count, the byte total and the biggest-index bound, and adds exactly the block |
| `FreeListSpec.TakenFits` | src/heap/free_list.rs:117-169 | a block handed out has at least the requested size, was free, and is the only one to leave |
| `FreeListSpec.RefusedMeansSmall` | src/heap/free_list.rs:117-169 | a refusal changes no block, and every free block is below the power of two the request rounds up to |
| `FreeListSpec.TakeSucceedsIff` | src/heap/free_list.rs:117-169 | the exact condition under which an allocation succeeds |
| `FreeListSpec.AppendKeeps` | src/heap/free_list.rs:82-103 | appending joins the receiver and the donor bucket by bucket and keeps the receiver's invariant |
| `FreeListSpec.NoBytesIff` | src/heap/free_list.rs:105-107 | the free-byte total is zero if and only if no block is free |
| `FreeListSpec.WholeBlockServes` | src/heap/free_list.rs:117-169 | a single block whose size is a power of two serves every request up to its size |
| `FreeList.SizeReadsBack` | src/heap/free_list.rs:222-247 | a written entry is recognisably free and its size reads back through the 13-bit tag or the out-of-line word |
| `FreeList.FreeList.constructor` | src/heap/free_list.rs:39-50 | a new list for any region size is valid and empty |
| `FreeList.FreeList.Add` | src/heap/free_list.rs:52-76 | linking an entry of less than 2^32 bytes in memory implements the abstract addition and writes nothing outside the block |
| `FreeList.FreeList.Allocate` | src/heap/free_list.rs:117-169 | the downward search over linked entries implements the abstract allocation, including the new bound after a refusal |
| `FreeList.FreeList.Unlink` | src/heap/free_list.rs:151-160 | unlinking the first entry of a bucket keeps every chain linked from head to tail |
| `FreeList.FreeList.Append` | src/heap/free_list.rs:82-103 | relinking the donor's tails implements the abstract append, empties every bucket of the donor and leaves its counters as they were |
| `FreeList.FreeList.Clear` | src/heap/free_list.rs:109-115 | clearing leaves the empty list |
| `ObjectHeader.HeaderReadsBackIff` | src/system/object.rs:335-387 | the size of a variable-size object reads back from its header if and only if it has fewer than 2^32 items or items of no size |
| `ObjectHeader.HugeArrayShrinks` | src/system/object.rs:370-386 | a byte array of 2^32 elements takes 131073 regions of 32 KB and reads back as an object of one |
| `RegionModel.AllocateCuts` | src/heap/region.rs:671-718 | an allocation cuts a block of exactly the requested size out of the free tiles of the region and changes nothing else |
| `RegionModel.EmptyRegionServes` | src/heap/region.rs:708-718 | an untouched region below 4 GB serves every request up to its size |
| `RegionModel.ServesIff` | src/heap/region.rs:671-718 | a region serves a request if and only if it is untouched and not smaller, or its list holds a block that reaches the power of two the request rounds up to or begins the bucket of the request's own magnitude with a large enough one |
| `RegionModel.FullMeansSmall` | src/heap/region.rs:671-691 | a region refuses a request only when it has been used before and all its free blocks are below the power of two the request rounds up to |
| `RegionModel.BumpKeeps` | src/heap/tlab.rs:35-51 | turning the front of a buffer into an object keeps the region tiled, parseable and exactly indexed |
| `RegionModel.GiveBackKeeps` | src/heap/tlab.rs:76-100 | retiring a buffer turns its unused end into a free entry and keeps the region tiled |
| `RegionModel.RegularResolves` | src/heap/bitmap.rs:85-111 | in a tiled and indexed region the greatest start at or below any address of an object is that object's header |
| `Sweeper.HeapRegion.SweepRegion` | src/heap/sweeper.rs:27-92 | the loop leaves exactly the marked objects and one free block per gap, start bits equal to the marked headers, used plus free equal to the region size, the largest gap recorded, and answers true if and only if nothing was marked |
| `Sweeper.HeapRegion.Walk` | src/heap/sweeper.rs:40-73 | the walk over the headers rebuilds list and bitmap up to the last survivor |
| `Sweeper.GapsAreMaximal` | src/heap/sweeper.rs:58-82 | every free block reaches from a survivor or the bottom to the next survivor or the end |
| `Sweeper.SweepIsDetermined` | src/heap/sweeper.rs:39-74 | the marks determine objects, start bits and free blocks, so skipping the walk of an unmarked region gives what the walk gives |
| `FreeSetModel.TryKeeps` | src/heap/free_set.rs:168-236 | with a set bit the assertions of try_allocate_in hold; it keeps the heap invariant and every object, changes that region only, and leaves its bit set if and only if it placed the request and a free block is left |
| `FreeSetModel.TryPlacesIff` | src/heap/free_set.rs:168-236 | a try succeeds if and only if the region is empty or trash and large enough, or Regular with a block that serves the request |
| `FreeSetModel.RetireKeeps` | src/heap/free_set.rs:213-233 | clearing a bit and adjusting the bounds keeps every set bit within the bounds |
| `FreeSet.RegionFreeSet.AdjustBounds` | src/heap/free_set.rs:111-119 | the two loops move the bounds to the outermost set bits |
| `FreeSet.RegionFreeSet.Rebuild` | src/heap/free_set.rs:75-109 | the set bits are exactly the empty regions, the trash regions and the Regular ones with a free block, and the bounds are adjusted |
| `FreeSet.RegionFreeSet.AllocateSingle` | src/heap/free_set.rs:147-166 | null if and only if no region in the set can serve the request; otherwise the lowest one that can was used, keeps its bit if and only if a free block is left, and everything above it is untouched; no object moves |
| `FreeSet.RegionFreeSet.AllocateContiguous` | src/heap/free_set.rs:242-308 | succeeds if and only if a run of the required number of adjacent free regions exists, takes the lowest one out of the set and nothing else, makes it one humongous object, and keeps the invariant |
| `FreeSet.RegionFreeSet.TrashHumongous` | src/heap/heap.rs:551-564 | the loop trashes the run of the object and nothing else |
| `Humongous.TakeRunKeeps` | src/heap/free_set.rs:276-296 | taking a free run keeps the heap invariant |
| `Humongous.GetHumongousStart` | src/heap/heap.rs:625-634 | walking back from any region of a run finds the start that owns it |
| `Humongous.PrepareKeeps` | src/heap/concurrent_gc.rs:149-164 | with all buffers retired, putting regions up for sweeping keeps the invariant |
| `Humongous.PrepareIsExact` | src/heap/concurrent_gc.rs:149-164 | exactly the Regular regions and humongous starts are put up for sweeping, the set keeps exactly its empty and trash regions, and no object goes |
| `Humongous.RebuildIsExact` | src/heap/free_set.rs:75-119 | after a rebuild a bit is set if and only if its region is empty, trash, or Regular with a free block, and both bounds are tight |
| `Humongous.RebuildKeeps` | src/heap/free_set.rs:75-94 | rebuilding after a complete sweep keeps the invariant |
| `Humongous.SweepKeeps` | src/heap/sweeper.rs:97-130 | sweeping any region with any marks keeps the invariant |
| `Humongous.RequiredCovers` | src/heap/region.rs:605-607 | the required number of regions covers the object |
| `HeapInvariant.InvRefill` | src/heap/thread.rs:286-310 | obtaining a buffer keeps the invariant, from one region if it fits the threshold and from a humongous run otherwise |
| `HeapInvariant.InvRun` | src/heap/thread.rs:268-310 | the heap invariant holds in every state of every run, in every configuration with regions below 4 GB, of shared allocation, refill, bump, retire, humongous allocation, prepare, sweep, rebuild and decommits that find their region vacant |
| `HeapSafety.RegionsAreTiled` | src/heap/tlab.rs:35-100 | in every reachable state objects, unused buffer ends and free entries are pairwise disjoint and together tile every Regular region |
| `HeapSafety.BitsAreSafe` | src/heap/free_set.rs:147-240 | in every reachable state a set bit means within the bounds, not waiting for the sweeper, and empty, trash or Regular with a free block; no buffer in use lies in a region that waits for the sweeper |
| `HeapSafety.StepsAreReady` | src/heap/free_set.rs:174-181 | in every reachable state try_allocate_in may be called on any region whose bit is set, a buffer can be retired if and only if its unused end is smaller than two regions, and a Regular region that waits for the sweeper can be parsed |
| `HeapSafety.CanRetireIff` | src/heap/tlab.rs:90-98 | a buffer in use can be retired if and only if its unused end is smaller than two regions |
| `HeapSafety.StartIsInit` | src/heap/region.rs:636-666 | setting up the heap gives a state that runs start from |
| `HeapSafety.FreshHeapServesIff` | src/heap/region.rs:909-931 | the first allocation in any region of a fresh heap finds a bucket if and only if regions are below 4 GB |
| `HeapSafety.FourGigabyteRegionsFail` | src/heap/free_list.rs:11-13 | with regions of 4 GB every region of a fresh heap has 33 buckets and its block is sent to bucket 64 |
| `HeapSafety.OnlySweepFrees` | src/heap/region.rs:671-718 | no step but a sweep ever frees an object, unless a decommit hits a region in use |
| `HeapSafety.SweepFreesUnmarked` | src/heap/sweeper.rs:97-130 | a sweep changes the objects of its region only; it frees exactly the unmarked ones when buffers fit, and keeps or frees a run that serves as a buffer as a whole otherwise; a Regular region becomes trash if and only if nothing in it survives, a humongous one if and only if its first header is unmarked |
| `HeapGrowth.SharedGains` | src/heap/thread.rs:268-280 | an allocation outside buffers adds exactly one new object of the requested size if its region can serve it, and nothing otherwise |
| `HeapGrowth.RefillGains` | src/heap/thread.rs:286-310 | a refill gives the thread a buffer that begins with the new object, in one region if and only if that can serve it, or at the bottom of a humongous run, and changes no other object |
| `HeapGrowth.BumpFitsIff` | src/heap/tlab.rs:35-51 | a buffer in use serves an object if and only if that fits into its unused end |
| `HeapGrowth.BumpGains` | src/heap/tlab.rs:35-51 | it then adds exactly that object, a new one when buffers fit, and moves the top behind it |
| `HeapGrowth.LargeGains` | src/heap/free_set.rs:242-308 | a humongous allocation adds exactly one object, at the bottom of regions that held none |
| `HeapGrowth.OthersGainNothing` | src/heap/tlab.rs:76-100 | retiring, preparing, rebuilding, looking and sparing leave every object and add none |
| `ObjectResolution.ObjectStartIff` | src/heap/heap.rs:640-664 | in every reachable state of every configuration, an address inside an allocated object resolves to its header if and only if the object lies in a Regular region or is the first of its humongous run |
| `ObjectResolution.ObjectStartFindsHeader` | src/heap/heap.rs:640-664 | when buffers fit, in every reachable state any address inside an allocated object, regular, buffer-allocated or humongous, resolves to its header |
| `ObjectResolution.BufferObjectResolvesIff` | src/heap/free_set.rs:125-132 | in every run an object bumped out of a buffer resolves to its header if and only if the buffer size is at most the humongous threshold |
| `ObjectResolution.LargeBufferMisresolves` | src/heap/region.rs:952-958 | in every configuration with larger buffers, a run of one refill and one bump whose second object does not resolve to its header |
| `ObjectResolution.SmallThresholdMisresolves` | src/heap/region.rs:932-958 | such a configuration: 32 KB regions, a threshold of 1600 bytes and buffers of 2048 |
| `ObjectResolution.LargeBufferStuck` | src/heap/tlab.rs:90-98 | in every configuration whose buffers exceed the threshold and two regions, a fresh buffer that cannot be retired |
| `ObjectResolution.SmallRegionsStuck` | src/heap/region.rs:909-958 | such a configuration: 4 KB regions and buffers of 16 KB |
| `ObjectResolution.ObjectStartIsObject` | src/heap/heap.rs:640-664 | when buffers fit, in every reachable state any address whatever resolves to null or to the header of an allocated object |
| `ObjectResolution.ContinuationsWalkBack` | src/heap/heap.rs:625-634 | when buffers fit, in every reachable state each continuation region walks back to the start of the run it belongs to |
| `HumongousLife.TrashFreesWhatWasTaken` | src/heap/heap.rs:551-564 | however many steps lie between a humongous allocation and the first sweep that finds the object unmarked, that sweep turns exactly the regions the allocation took from humongous to trash and touches no other |
| `HumongousLife.RunAtStep` | src/heap/sweeper.rs:102-118 | no other step moves the object or changes its header |
| `Uncommit.DecommitSafeIff` | src/heap/heap.rs:240-252 | a decommit keeps the heap invariant and loses no object if and only if, when the lock is held, the region is vacant or a continuation that no run, object or buffer reaches |
| `Uncommit.StillEmptyIsVacant` | src/heap/heap.rs:242-249 | a region that is still empty under the lock is vacant, and so is a trash region when buffers fit |
| `Uncommit.UncommitLosesObject` | src/heap/heap.rs:240-252 | in every configuration that can allocate from single regions, a run of check, allocation and decommit in which the new object disappears without a sweep |
| `CollectionCycle.CycleKeepsMarked` | src/heap/full_gc.rs:76-98 | after prepare and sweeps in any order, every region holds exactly what the marks keep of it, its marked objects when buffers fit; it is trash if nothing of a Regular region or humongous run is kept, and of its former kind otherwise |
| `CollectionCycle.FreedIsOffered` | src/heap/full_gc.rs:76-102 | after the cycle and its rebuild a region in which nothing was kept is in the set and can serve any request up to its size; a Regular one with survivors is in the set if and only if it has a free block; a kept humongous run is not |
| `CollectionCycle.SurvivesIffSourced` | src/heap/full_gc.rs:40-102 | when buffers fit, a block survives a stop-the-world cycle, whatever its queues held at the start, if and only if its object is reachable from the roots or from the targets of left-over work |
| `CollectionCycle.CollectionExactIff` | src/heap/full_gc.rs:40-102 | such a cycle keeps exactly the reachable blocks if and only if every target of left-over work is reachable from the roots |
| `CollectionCycle.LeftOverKeepsDead` | src/heap/full_gc.rs:40-102 | after the witness marking the block of an unreachable object survives |
| `CollectionCycle.SurvivesIffReachable` | src/heap/full_gc.rs:40-102 | with nothing left over and buffers that fit, a block survives a stop-the-world cycle if and only if its object is reachable from the roots |
| `Bitmap.HeapBitmap.FindObjectStart` | src/heap/bitmap.rs:85-111 | returns the greatest set granule at or below the address, null if and only if there is none |
| `Bitmap.HeapBitmap.IsMarkedRange` | src/heap/bitmap.rs:216-245 | answers whether any granule of the range is set |
| `Bitmap.HeapBitmap.ClearRangeAtomic` | src/heap/bitmap.rs:247-267 | clears exactly the granules of the range |
| `Bitmap.HeapBitmap.AtomicTestAndSet` | src/heap/bitmap.rs:295-314 | a call without interference sets exactly the one granule and answers whether it was clear |
| `BitmapRace.EachGranuleWonOnce` | src/heap/bitmap.rs:295-314 | with any number of callers and spurious failures of the exchange, exactly one call answers true for a granule that gets set, none for one that was set before, and an answer of either kind means that it is set |
| `BitmapRace.StepsAreAtomic` | src/heap/bitmap.rs:300-313 | every step of the load and exchange loop looks like an atomic test-and-set of the caller's granule or changes no bit |
| `BitmapRace.RetriesAreBounded` | src/heap/bitmap.rs:300-313 | the exchange of one call fails at most eight times because of others, however many they are |
| `BitmapRace.UndisturbedCall` | src/heap/bitmap.rs:295-314 | a call alone takes two steps, answers true if and only if its granule was clear, and leaves it set |
| `BitmapRace.CallsGoOn` | src/heap/bitmap.rs:300-313 | a caller in the loop always has a step: the exchange if and only if it has not seen its granule set |
| `Bitmap.HeapBitmap.CheckBit` | src/heap/bitmap.rs:174-179 | reads the granule's bit |
| `Bitmap.HeapBitmap.ClearBit` | src/heap/bitmap.rs:151-158 | clears exactly the one granule |
| `Bitmap.HeapBitmap.VisitMarkedRange` | src/heap/bitmap.rs:377-458 | left edge, whole cells and right edge together visit the list of set granules of the range |
| `Bitmap.HeapBitmap.VisitWord` | src/heap/bitmap.rs:415-427 | repeatedly taking the lowest bit lists the bits of a word in ascending order |
| `Bitmap.MarkedInExact` | src/heap/bitmap.rs:377-458 | that list holds exactly the set granules of the range, each once, ascending |
| `BitmapViews.CellsFindHeader` | src/heap/bitmap.rs:85-111 | in every reachable state the search through the byte cells of a Regular region's bitmap leads from any address of an object to its header |
| `BitmapViews.CellsFindFloor` | src/heap/bitmap.rs:85-111 | what the search finds in the cells is the greatest member at or below the address of the set the cells stand for |
| `BitmapViews.CellsFindNothing` | src/heap/bitmap.rs:98-100 | where the cells hold nothing at or below the address the set view is null too |
| `BitmapViews.CellsAnyMarked` | src/heap/bitmap.rs:216-245 | a range of cells holds a set bit if and only if the set has a member in the range |
| `HashMap.HashMap.constructor` | src/system/collections/hash.rs:45-63 | a new map is valid and empty |
| `HashMap.HashMap.Get` | src/system/collections/hash.rs:180-202 | returns the value of the mathematical map |
| `HashMap.HashMap.Put` | src/system/collections/hash.rs:104-141 | updates the mathematical map and returns the previous value; keys stay at most count, and count at most three quarters of the buckets |
| `HashMap.HashMap.Remove` | src/system/collections/hash.rs:143-178 | removes the key from the mathematical map and returns its value; count is not lowered |
| `HashMap.HashMap.Resize` | src/system/collections/hash.rs:94-102 | doubles the table and leaves the mathematical map as it was |
| `HashMap.HashMap.RehashBuckets` | src/system/collections/hash.rs:67-92 | relinking the nodes in place loses, duplicates and misplaces no key |
| `HashMap.MoveOne` | src/system/collections/hash.rs:75-90 | moving one node keeps the nodes still to move and the nodes moved linked, disjoint and together complete |
| `HashMap.RemoveNode` | src/system/collections/hash.rs:159-171 | relinking around a node removes one pair from the map |

## Left out

- Concurrent marking with write barriers and its completeness, and the incremental-update mode: reachability is stated for the stop-the-world cycle only.
- Weak memory orders: atomics are sequentially consistent. The deque's compare-and-swap is strong; the bitmap's may fail spuriously.
- Counters, tags and hashes are unbounded naturals except where a property names a bit width; ring sizes enter the deque as a remainder, whatever the power of two.
- The crossbeam injector and local segments: each transfer of mark tasks between them is one atomic step of any batch size.
- The moment of cancellation and concurrent marking before it: a cancelled marking appears as the queues it leaves, which are arbitrary.
- Byte accounting of the free set (`used`, `capacity`) and of the heap: the source's payload size is never assigned and buffer ends return without a matching decrement.
- Elastic buffers, which are off by default; all threads' buffers have one size, a multiple of 16.
- The clock and the commit budget of the uncommitting thread: whether it spares a region that is still empty is left open, and so is which empty region it looks at.
- Regions, buffers and the heap as a whole are modelled on values, because steps of several threads interleave: aliasing of region pointers is not captured. The loops of the free list, sweeper, free set, bitmap and hash map are methods.
- The window between handing out memory and writing the object's header: both are one step of the allocating thread, which cannot meet a safepoint in between.
- ObjectResolution.ObjectStartIsObject: when buffers exceed the threshold, a continuation left over from a buffer may resolve to a header that is gone.
- HumongousLife.TrashFreesWhatWasTaken: takes headers to read back the size that was allocated; `HeaderReadsBackIff` says when they do.
- HeapSafety.CanRetireIff: an unused end of 2^32 bytes or more has no bucket here; the source files it by its low 32 bits, in a bucket that is too small or missing.
- HeapInvariant.InvBump: in a buffer longer than a region the source sets start bits beyond the end of its region's bitmap; here the start joins the set of starts of that region.
- Weak references and finalisers between marking and sweeping.
- Blocks smaller than a free-list entry: all sizes are positive multiples of 16, so the filler branch of the free list is never taken.
- FreeSet.RegionFreeSet.TrashHumongous: the loop index is an integer, so its last decrement below region 0 does not wrap.
- `HeapBitmap::clear_range`, which may write past its end, and the bitmaps `CHeapBitmap` and `DynBitmap` (a sequence of booleans here).
- Bitmap.HeapBitmap.AtomicTestAndSet: the method is a call that nobody disturbs; calls that interfere are the subject of `BitmapRace`.
- Hash map length as the number of keys, which the source does not promise after a removal; the entry API; hashing itself, which is an arbitrary function of the key.
- Heuristics, pacing, timers, virtual memory, signals, stacks, logging and option parsing: floating point, clocks and operating-system calls.
- Card table, object storage, bit vectors and the unused task terminator and worker pools.
