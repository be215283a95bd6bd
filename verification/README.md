# Verified model of the HAMi-core resource controller

HAMi-core caps GPU memory and compute for processes that share one mapped region. This project
models, in Dafny, the parts in which those caps are decided, and proves what they guarantee:

- **The shared region** (`LockProtocol`, `ProcSlots`, `SharedRegion`, `UsageSeqlock`,
  `KernelTime`). The lock that survives a killed owner, the lock-free usage counters and the
  kernel-time register are step machines: each semaphore operation, atomic load, store,
  fetch-add and compare-and-swap is one step, and theorems speak about all interleavings. The
  death of a process is a step of the lock and of the counters of its slot; in the register and
  the other machines a process that died is one that takes no more steps. The slot table is an array that methods compact, extend and update in place,
  each proved equal to a function on sequences (`ProcSlots`) about which the lasting properties
  are proved.
- **The tracked allocator** (`AllocatedList`, `Interference`, `Allocator`, `OverCommit`). The
  intrusive list works on heap entries; the allocator keeps two such lists, under a mutex, in
  agreement with the process's slot in the region. What other processes make of their own slots
  while a call is under way is an input, like the driver's answers (`Interference`). A k-process
  step machine bounds how far concurrent allocators overshoot.
- **The rate limiter** (`RateLimiter`). Launching threads race the refill thread on the tokens;
  the controller is kept in its integer arithmetic.
- **Smaller loops** (`DlsymRing`, `HostPid`, `VisibleDevices`, `LimitParsing`, with `Numerals`
  for number parsing, `Sums` for sums and `Common` for what they share).

`dafny verify dfyconfig.toml` verifies everything.

## Where the code falls short

Each of these is proved as an exact condition, not assumed away.

- The lock is lost for good when a process dies while it holds the token and `owner_pid` does not
  name it: between the semaphore and the write of `owner_pid`, or between a clearing of
  `owner_pid` (in unlock, in the recovery of another's lock, in the exit handler) and the post
  that follows. `LockProtocol.ObtainableUnlessLost` shows there is no other way to lose it, and
  `LockProtocol.LossReachable` that each of the four windows can be hit. The source marks two of
  them with a TODO.
- A process killed between its two seqlock increments leaves its slot odd, and every reader of
  the slot waits for ever. The usage scan comes before the cleaner in `oom_check`, so
  the check hangs rather than reclaim that slot; only a process that registers cleans it away.
  (`UsageSeqlock.ReaderFinishesUnlessStuck`, `UsageSeqlock.StuckReachable`,
  `SharedRegion.RegionInfo.OomCheck`, `SharedRegion.InitUnjams`, `SharedRegion.CleaningUnjams`.) In `add_chunk`,
  `add_chunk_only` and `allocate_async_raw` it can hang with the mutex held.
- With two writers on one slot the seqlock is even while both are in flight, and a reader accepts
  a torn snapshot (`UsageSeqlock.TwoWritersTear`). A read has an instant without any update in
  flight exactly when at most one is in flight as it is accepted (`UsageSeqlock.SnapshotExactly`).
- The exit handler scans the whole array. For a registered process it always finds the record
  below `proc_num` (`ProcSlots.ExitInRun`); but a process that exits before it has registered,
  under a pid used before, can clear a stale copy above it (`ProcSlots.QuitInRun`,
  `ProcSlots.StaleCopyReachable`).
- The mutex is per process, so others commit between a recheck and its charge: usage can pass the
  limit, by at most what others commit from the start of that recheck on
  (`OverCommit.CommitWithinLimit`, and in terms of the others' slots
  `Allocator.Allocator.AddChunk`), up to the bound of `OverCommit.OverCommitBounded`.
- When creating a list entry fails, `add_chunk` and `add_chunk_only` return with the mutex still
  locked; it stays locked, nothing is tracked any more, and every call that reaches the lock
  hangs (`Allocator.Allocator.TrackLocked`, `Allocator.EntryFailureBlocks`).
- An asynchronous allocation is listed with its bytes but not charged when the pool reports a high
  water of zero, and an asynchronous free is charged to the current device, which need not be
  the one that was charged (`AddChunkAsync`, `RemoveChunkAsync`).
- A process that joins stores its own clock over the shared kernel time, which may lower it
  (`KernelTime.OnlyJoinLowers`).
- A list of visible devices that begins with a comma is parsed into one number fewer than
  `getenvcount` counts (`VisibleDevices.CountsAgree`), and one of more than sixteen numbers is
  stored past the end of the map (`VisibleDevices.ParseCudaVisibleEnv`).
- A limit too large for 64 bits is read as no limit with a suffix, and as the largest 64-bit
  number without one (`LimitParsing.LimitOfPrint`), so the README's four spellings agree only
  where the amount fits.

## Model

| member | source | states |
|---|---|---|
| LockProtocol.MutualExclusion | src/multiprocess/multiprocess_memory_limit.c:740-818 | In every run, with processes killed at any step, there is one token in all: in the semaphore, or with one holder. At most one live process is between a successful wait and its post, the semaphore is up only while no owner is named, and a named owner is the holder. |
| LockProtocol.StepKeepsToken | src/multiprocess/multiprocess_memory_limit.c:690-818 | No step of lock, unlock, recovery or exit creates or destroys a token; a recoverer that swaps a dead owner out takes over that owner's duty to post. |
| LockProtocol.StepKeepsOwner | src/multiprocess/multiprocess_memory_limit.c:690-818 | owner_pid is zero or names a process that wrote it, and no step takes it away from a live process in the critical section. |
| LockProtocol.StepKeepsInv | src/multiprocess/multiprocess_memory_limit.c:690-818 | The inductive invariant behind mutual exclusion survives every step and every death. |
| LockProtocol.RunKeepsInv | src/multiprocess/multiprocess_memory_limit.c:690-818 | The invariant holds after every sequence of events. |
| LockProtocol.ObtainableUnlessLost | src/multiprocess/multiprocess_memory_limit.c:740-818 | In every reachable state a live waiter can still enter the critical section if and only if no process has died holding the token outside the window in which owner_pid names it. |
| LockProtocol.LostForever | src/multiprocess/multiprocess_memory_limit.c:752-758 | After a death in such a window the semaphore stays at zero and nobody enters the critical section in any continuation. |
| LockProtocol.LossReachable | src/multiprocess/multiprocess_memory_limit.c:690-818 | For each of the four windows (after the wait; between clearing owner_pid and the post in unlock, in recovery, in the exit handler) a run from any initial state in which a process dies there and the lock is lost; the one in recovery takes a second process. |
| LockProtocol.ChooseAdvances | src/multiprocess/multiprocess_memory_limit.c:749-787 | As long as the token is not lost, some step brings a given live waiter closer to the critical section. |
| LockProtocol.CourseEnds | src/multiprocess/multiprocess_memory_limit.c:749-787 | Following those steps yields a complete run at whose end the waiter owns the lock, dead owners on the way having been recovered. |
| LockProtocol.LeavesLoop | src/multiprocess/multiprocess_memory_limit.c:743-800 | In every run a process leaves the waiting loop only with the semaphore or by giving up, and gives up exactly when it reads no owner after more than thirty timeouts of this call; an owner it reads it probes, waits for if alive, and swaps out if dead and still named. |
| ProcSlots.CleanCorrect | src/multiprocess/multiprocess_memory_limit.c:863-946 | The kept slots are a sub-multiset of the original ones, every slot removed had pid 0 or a dead pid, no pid-0 slot is left, min(10, dead) dead ones go and none is left if fewer than ten went, proc_num falls by exactly the number removed, and a live caller's cached slot is its own unchanged record, its old place vacated. |
| ProcSlots.DropKeeps | src/multiprocess/multiprocess_memory_limit.c:877-898 | One swap-with-last removal takes exactly one copy of exactly that slot away from the live range, and exactly its weight from every tally. |
| ProcSlots.CompactKeeps | src/multiprocess/multiprocess_memory_limit.c:863-946 | From any point of the pass on, no slot value gains copies, and one that is not removable keeps all of them. |
| ProcSlots.CompactCounts | src/multiprocess/multiprocess_memory_limit.c:869-945 | Dead slots kept plus dead slots removed is constant, and every slot lost is a pid-0 one or one of at most ten kills. |
| ProcSlots.CompactCleans | src/multiprocess/multiprocess_memory_limit.c:869-945 | What the pass has gone by is never touched again and is clean, moved-in records included, while the budget of ten lasts. |
| ProcSlots.CompactFollows | src/multiprocess/multiprocess_memory_limit.c:879-898 | The running process's cached pointer stays on its own record even when that was the one moved; slots from proc_num up stay as they were, and its pid gets no second copy anywhere in the array. |
| ProcSlots.CompactKeepsLiveUsage | src/multiprocess/multiprocess_memory_limit.c:863-946 | A pass leaves the summed usage of live processes on each device unchanged. |
| ProcSlots.CompactKeepsDistinct | src/multiprocess/multiprocess_memory_limit.c:863-946 | A pass never makes two live-range records carry one non-zero pid. |
| ProcSlots.InitProcCorrect | src/multiprocess/multiprocess_memory_limit.c:948-1007 | After registration and its trailing cleaning exactly one live-range slot has the caller's pid, it is active, has zero usage and seqlock and is the cached one; a record taken over keeps its host pid, a new one has none, and offsets, encoder and decoder utilisation are left as they were. |
| ProcSlots.InitProcCleans | src/multiprocess/multiprocess_memory_limit.c:1005 | Registration removes ten dead records or all of them, no live record of another process, and leaves the usage of the others as it was on every device. |
| ProcSlots.RegisterKeeps | src/multiprocess/multiprocess_memory_limit.c:960-1003 | Taking a record over or opening one keeps the other records, the number of dead ones and the usage of the others. |
| ProcSlots.CleanCounts | src/multiprocess/multiprocess_memory_limit.c:907-909 | The number of dead ones removed is exactly the smaller of ten and their count. |
| ProcSlots.ExitProcCorrect | src/multiprocess/multiprocess_memory_limit.c:719-731 | Given its live-range record, an exiting process has pid and status of that one zeroed, nothing else of it or of any other touched. The next rows supply the record in every run. |
| ProcSlots.ExitTouchesStale | src/multiprocess/multiprocess_memory_limit.c:719-731 | On any table the array above proc_num is left alone if and only if the process has a live-range record or no copy up there. |
| ProcSlots.OpKeepsInv | src/multiprocess/multiprocess_memory_limit.c:719-731 | One init, exit, kill or cleaning by any process keeps proc_num in 0..1024, the non-zero live-range pids distinct, a live-range record for each registered pid, and every pid anywhere in the array one that has registered. |
| ProcSlots.RunKeepsInv | src/multiprocess/multiprocess_memory_limit.c:863-1007 | The same over every sequence of inits, exits, kills and cleanings. |
| ProcSlots.RegisteredHaveOneRecord | src/multiprocess/multiprocess_memory_limit.c:863-1007 | In every run from a new region each registered process has exactly one record in the live range. |
| ProcSlots.ExitInRun | src/multiprocess/multiprocess_memory_limit.c:719-731 | In every run the exit of a registered process zeroes that record and changes nothing else, never a stale copy above proc_num. |
| ProcSlots.QuitInRun | src/multiprocess/multiprocess_memory_limit.c:719-731 | In every run the exit of an unregistered process changes nothing if its pid never registered, and touches the array above proc_num if and only if an earlier process with its pid left a copy there and no live-range record. |
| ProcSlots.StaleCopyReachable | src/multiprocess/multiprocess_memory_limit.c:719-731 | Such a run exists: three processes register, one exits, another cleans and so leaves a copy of the third, which exits, and whose pid comes back. |
| ProcSlots.CleanKeepsRecord | src/multiprocess/multiprocess_memory_limit.c:863-946 | A cleaning pass never loses the live-range record of a process that is not dead. |
| ProcSlots.CompactPids | src/multiprocess/multiprocess_memory_limit.c:863-946 | A pass brings no pid into the array that was not there. |
| ProcSlots.Find | src/multiprocess/multiprocess_memory_limit.c:963-965 | The scan stops at the first slot with the pid, or at the end when there is none. |
| SharedRegion.RegionInfo.ClearProcSlotNolock | src/multiprocess/multiprocess_memory_limit.c:863-946 | The loop over the shared array computes the specified cleaning, terminates, keeps the table invariant, and answers 1 if and only if proc_num fell. |
| SharedRegion.RegionInfo.RemoveSlot | src/multiprocess/multiprocess_memory_limit.c:877-898 | The in-place removal, pointer relocation and vacating included, is the specified one and leaves the rest of the array alone. |
| SharedRegion.RegionInfo.OomCheck | src/allocator/allocator.c:36-59 | Never answers if and only if some slot below proc_num is left odd, and then cleans nothing; otherwise rejects if and only if the limit is set and the usage of live processes plus the offset and the request exceeds it, however many exited or dead records are in the table and although one pass reclaims at most ten. Loses no live record, no live usage and not the caller's own slot. |
| SharedRegion.CleanerFacts | src/allocator/allocator.c:54-56 | Every live record and all live usage survive a cleaning pass, a pass that removes nothing proves every record live, and none makes a slot odd. |
| SharedRegion.RegionInfo.Reclaim | src/allocator/allocator.c:54 | The same for the call in oom_check: what it reports as nothing to reclaim means the measured usage was the live usage. |
| SharedRegion.CleaningUnjams | src/multiprocess/multiprocess_memory_limit.c:863-946 | After enough passes to remove all dead slots at ten each, readers still wait if and only if a live process has an odd slot. |
| SharedRegion.PassUnjams | src/multiprocess/multiprocess_memory_limit.c:863-946 | One pass leaves ten dead slots fewer, or none, and an odd live slot afterwards if and only if there was one. |
| SharedRegion.InitUnjams | src/multiprocess/multiprocess_memory_limit.c:1005 | A registration with fewer than ten dead records about lets all readers go on if and only if no other live process has an odd slot. |
| SharedRegion.CompactUntouched | src/multiprocess/multiprocess_memory_limit.c:869-945 | A pass that removed no slot changed nothing and found every slot alive. |
| SharedRegion.UsageOverLive | src/allocator/allocator.c:42-58 | Records of exited and dead processes can only raise the measured usage, and without them it is the live usage. |
| SharedRegion.RegionInfo.GetGpuMemoryUsage | src/multiprocess/multiprocess_memory_limit.c:282-354 | The scan waits for ever if and only if some slot below proc_num is left odd; otherwise it returns the sum of total over all slots, dead or alive, plus the initial offset. |
| SharedRegion.RegionInfo.InitProcSlotWithlock | src/multiprocess/multiprocess_memory_limit.c:948-1007 | Refuses exactly a full table, then only running the exit handler; otherwise leaves the process registered and active on a slot without usage. Of n dead records ten go, or all of them; other live records and their usage on every device stay; and with n below ten readers still wait if and only if another live process has an odd slot. |
| SharedRegion.RegionInfo.ExitHandler | src/multiprocess/multiprocess_memory_limit.c:719-731 | The scan marks as exited the first record in the whole array that has this pid, and nothing else. |
| SharedRegion.RegionInfo.AddGpuDeviceMemoryUsage | src/multiprocess/multiprocess_memory_limit.c:452-521 | For every kind the total of the mapped device of the right slot rises by exactly the bytes, and so does the context size for kind 0, the module size for 1, the data size for 2; other parts, devices and slots stay, an unknown kind moves the total alone, and the usage scanned on that device rises by the bytes. Fails only when no live-range slot has the pid, and never for a registered process. |
| SharedRegion.RegionInfo.RmGpuDeviceMemoryUsage | src/multiprocess/multiprocess_memory_limit.c:524-594 | The same downwards: total, the part of the kind and the usage scanned fall by exactly the bytes. |
| SharedRegion.RegionInfo.UpdateSlot | src/multiprocess/multiprocess_memory_limit.c:462-480 | The stores together raise the seqlock by two, move total and the one part of the kind by the amount, and touch nothing else of the slot or the array. |
| SharedRegion.ChargeScanned | src/multiprocess/multiprocess_memory_limit.c:462-480 | A charge of any kind moves the usage summed over slots by its amount on its device and not at all on others. |
| OverCommit.OverCommitBounded | src/allocator/allocator.c:109-167 | In every interleaving of slot reads, decisions, commits and frees of k processes, usage stays within the limit plus k-1 times the largest request; a single process never exceeds the limit. The scan is slot by slot and frees may come at any time. |
| OverCommit.BoundReached | src/allocator/allocator.c:109-148 | The bound is attained: from any usage that leaves room for exactly one largest request, k processes can be driven to it. |
| OverCommit.StepKeepsSees | src/multiprocess/multiprocess_memory_limit.c:291-350 | Across every step, what a recheck has seen of a slot is short by at most that slot's last commit, and only when that commit's own recheck began no later. |
| OverCommit.OwnStepKeepsSeen | src/multiprocess/multiprocess_memory_limit.c:291-352 | A rechecker's own steps keep the sum it has seen at least the low marks of the slots it read, so passing means request and low marks fit the limit. |
| OverCommit.StepKeepsInv | src/allocator/allocator.c:131-146 | The whole invariant of rechecks and commits survives every step. |
| OverCommit.InvBounds | src/allocator/allocator.c:131-146 | The committed recheck that began last bounds total usage: it has missed at most one request of each other process. |
| OverCommit.CommitWithinLimit | src/allocator/allocator.c:131-146 | In every run, as a process commits, the usage of all is within the limit plus the bytes that other processes have committed since its recheck began, whatever is freed meanwhile. |
| OverCommit.Undisturbed | src/allocator/allocator.c:131-139 | A recheck that nobody disturbs passes exactly the requests that fit beside the usage of all slots, or any where no limit is set, and changes no usage. |
| OverCommit.UsageIsLedger | src/allocator/allocator.c:109-207 | In every run the usage of each process is its initial one, plus each request it began and committed, minus what it freed. |
| OverCommit.FreesAndCommits | src/allocator/allocator.c:140-207 | A process may free what it has at any time, and commits once its recheck has passed. |
| OverCommit.StepKeepsRechecking | src/allocator/allocator.c:131-146 | Across every step, usage exceeds the least usages since the recheck began by at most what others committed. |
| UsageSeqlock.UpdatesConserved | src/multiprocess/multiprocess_memory_limit.c:452-594 | For any number of concurrent adds and removes, the seqlock counts starts plus ends; with none in flight it is even, total and each component are all bytes added minus all removed, and total is the sum of components if and only if updates of unknown kind cancel out. |
| UsageSeqlock.AcceptedIsCurrent | src/multiprocess/multiprocess_memory_limit.c:297-342 | A reader accepts only at an instant of even seqlock, and for the device it was last asked about; if at most one update is in flight then, none is, and the value accepted is that device's total at that instant, the net of all updates so far, and the sum of the components. |
| UsageSeqlock.SnapshotExactly | src/multiprocess/multiprocess_memory_limit.c:297-342 | Every accepted value is the total, at some instant of the read, of the device asked about; the read was sampled at an instant of the run, and between that and its acceptance some instant had no update in flight if and only if at most one is in flight at the acceptance; otherwise two or more were throughout. |
| UsageSeqlock.ReadsWhatWasAsked | src/multiprocess/multiprocess_memory_limit.c:333 | In every run, retries included, a read in progress is of the device its thread was last asked about. |
| UsageSeqlock.StepKeepsPace | src/multiprocess/multiprocess_memory_limit.c:452-594 | The seqlock never falls, and while it stands still the number of updates in flight does not change. |
| UsageSeqlock.ReaderFinishesUnlessStuck | src/multiprocess/multiprocess_memory_limit.c:297-342 | In every reachable state a live reader has a continuation in which it accepts if and only if the slot's owner did not die with an odd number of updates in flight; with one writing thread, if and only if it did not die between its two seqlock increments. |
| UsageSeqlock.BlockedForever | src/multiprocess/multiprocess_memory_limit.c:303-330 | After such a death the seqlock stays odd and no reader of another process ever accepts, in any continuation. |
| UsageSeqlock.StuckReachable | src/multiprocess/multiprocess_memory_limit.c:462-480 | From every initial state an owner can be killed in an update so that a given reader never finishes. |
| UsageSeqlock.ReaderFinishes | src/multiprocess/multiprocess_memory_limit.c:299-342 | Left alone where the seqlock is even, a reader at any point of the loop accepts, and one whose sample is current accepts the total. |
| UsageSeqlock.WriterFinishes | src/multiprocess/multiprocess_memory_limit.c:462-480 | A live writer at any point of its update can complete it, which makes the seqlock one higher. |
| UsageSeqlock.TwoWritersTear | src/multiprocess/multiprocess_memory_limit.c:462-480 | For every amount there is a run of two writers after which a reader has accepted a total whose components have not followed. |
| UsageSeqlock.QuietCounters | src/multiprocess/multiprocess_memory_limit.c:452-594 | Whenever nothing is in flight the four counters are exactly what the updates so far booked. |
| UsageSeqlock.StepKeepsInv | src/multiprocess/multiprocess_memory_limit.c:297-594 | Each atomic step keeps counters plus amounts in flight equal to the net of the updates begun, and every reader's sample valid. |
| KernelTime.MaximumRegister | src/multiprocess/multiprocess_memory_limit.c:241-248 | Over every interleaving, spurious failures included, the shared time never decreases, is the first value or some caller's, is at least the time of each caller that left the loop, and is exactly the greatest of all once nobody is in it. |
| KernelTime.OnlyJoinLowers | src/multiprocess/multiprocess_memory_limit.c:1175 | In every state of every run, earlier joins included, a step lowers the time if and only if it is a process joining with an earlier clock, and a join stores exactly its clock. |
| KernelTime.StepKeepsInv | src/multiprocess/multiprocess_memory_limit.c:241-248 | While the register is below the greatest time asked for, some caller is still on its way to store that time. |
| AllocatedList.EntryList.constructor | src/allocator/allocator.h:66-71 | A new list is empty and well linked. |
| AllocatedList.EntryList.Add | src/allocator/allocator.h:137-148 | LIST_ADD appends to the sequence of entries and keeps head, tail, both link directions and the length in agreement with it. |
| AllocatedList.EntryList.AddNew | src/allocator/allocator.h:94-109 | A new entry with the address filled in later is appended with exactly its address, length and device. |
| AllocatedList.EntryList.Unlink | src/allocator/allocator.h:79-88 | The pointer surgery takes exactly one entry out, wherever it stands, and leaves the others linked both ways. |
| AllocatedList.EntryList.Remove | src/allocator/allocator.h:79-92 | LIST_REMOVE deletes one position of the sequence and keeps contents and length in agreement. |
| AllocatedList.EntryList.TraversalsMirror | src/allocator/allocator.h:79-148 | The k-th entry from the head along next is the one length-1-k steps from the tail along prev, and both walks end after length steps. |
| AllocatedList.EntryList.Ahead | src/allocator/allocator.h:137-148 | Following next k times from the head reaches the k-th entry of the sequence, or falls off the end. |
| AllocatedList.EntryList.Behind | src/allocator/allocator.h:137-148 | Following prev k times from the tail reaches the k-th entry from the back, or falls off the front. |
| AllocatedList.EntryList.Find | src/allocator/allocator.c:189-191 | The walk stops at the first entry at an address, or finds that there is none. |
| AllocatedList.EntryList.Take | src/allocator/allocator.c:183-203 | The first entry at an address, and only that one, leaves the list and its length and device are handed out. |
| AllocatedList.EntryList.Size | src/allocator/allocator.c:76-88 | get_listsize is the total length of all entries. |
| Interference.OthersRun | src/multiprocess/multiprocess_memory_limit.c:863-1007 | Other processes can leave any records of their own around this process's, which stays where it is. |
| Interference.AroundUsage | src/multiprocess/multiprocess_memory_limit.c:282-354 | Where they stand has no bearing on the live usage. |
| Interference.AroundJammed | src/multiprocess/multiprocess_memory_limit.c:303-330 | Nor on whether a scan waits, which it does exactly when one of the records is odd. |
| Allocator.Allocator.AddChunk | src/allocator/allocator.c:109-148 | For every interference of other processes: hangs, refuses or passes a driver error on exactly as the check before, the driver, the mutex and the check on the slots as they are at the lock answer. On success one entry and its bytes on the own slot are added, and live usage on return is within the limit plus what others then use more than at the lock. Otherwise list and slot are as before. Says exactly when the mutex is left taken. Lists and slot agree throughout. |
| Allocator.Allocator.AddChunkOnly | src/allocator/allocator.c:150-167 | Hangs if the mutex is taken or the check does, tracks if and only if there is room and an entry can be made, and leaves the mutex taken exactly on a hang or an entry failure; live usage on return is that of the others plus the own with the new bytes. |
| Allocator.Allocator.TrackIfRoom | src/allocator/allocator.c:133-144 | Tracked and charged if and only if the check at that instant finds room and an entry can be made, else unchanged. |
| Allocator.Allocator.TrackLocked | src/allocator/allocator.c:131-147 | From lock to unlock: hangs exactly where the mutex is taken or the check waits, and unlocks on every way out but the hang and the entry failure. |
| Allocator.LockedEndings | src/allocator/allocator.c:131-167 | Success is room, an entry and a free mutex; a hang is a taken mutex or a waiting check; a refusal and an entry failure have their codes; the mutex is left taken exactly after a hang and an entry failure. |
| Allocator.AsyncEndings | src/allocator/allocator.c:272-308 | An asynchronous allocation succeeds exactly if check, entry, driver and pool all agree, and otherwise the first that does not gives the code. |
| Allocator.Decides | src/allocator/allocator.c:45-58 | A check refuses exactly what a set limit leaves no room for, unless it waits. |
| Allocator.Allocator.LockAndTrack | src/allocator/allocator.c:131-147 | The same with others running before the lock is taken: the answer is that of a check on the slots they left. |
| Allocator.Allocator.Obtain | src/allocator/allocator.c:115-128 | Before the lock: refusal, hang or driver error, with list, slot and mutex untouched. |
| Allocator.Allocator.Commit | src/allocator/allocator.c:140-146 | Whatever other processes do before and after the charge, the own entry and charge are made, and live usage is that of the others at the end plus the own. |
| Allocator.Allocator.RemoveChunk | src/allocator/allocator.c:179-207 | Hangs if and only if the list is not empty and the mutex is taken; else untracks the first entry at the address and discharges exactly its bytes on its own device, or fails and changes nothing; no counter goes negative and lists and slot still agree. |
| Allocator.Allocator.RemoveChunkOnly | src/allocator/allocator.c:209-227 | Untracks and discharges in the same way without the mutex, and so never hangs. |
| Allocator.RemoveLast | src/allocator/allocator.c:179-207 | With the mutex free, freeing the address tracked last gives back the list from before and every counter from before its charge; with it taken, it hangs and changes nothing. |
| Allocator.AddThenRemove | src/allocator/allocator.c:150-207 | Tracking at a fresh address and untracking again restores the list and all counters of the slot, on every device; it succeeds if and only if the mutex is free and the check finds room, and hangs if and only if the mutex is taken or the check waits. |
| Allocator.ServeAll | src/allocator/allocator.c:109-316 | After every mixed sequence of synchronous and asynchronous calls, whatever each meets, with the asynchronous ones on one device whose pool reports a high water: the slot is charged exactly what the two lists hold on every device, and the limit of the asynchronous list equals its entry lengths and is at most the greatest reading of the sequence. A mutex once left taken stays so, with nothing tracked and every call hanging that reaches it, the asynchronous ones included. |
| Allocator.Serve | src/allocator/allocator.c:109-316 | One such call keeps the books, the device of the asynchronous entries and the greatest reading, or hangs where the mutex is taken. |
| Allocator.ServeAlloc | src/allocator/allocator.c:310-316 | One asynchronous allocation: the books are right afterwards if and only if it failed, the reading is not zero or nothing was asked for; only a success moves the greatest reading. |
| Allocator.ServeFree | src/allocator/allocator.c:259-264 | One asynchronous free on the device of all asynchronous entries keeps the books. |
| Allocator.EntryFailureBlocks | src/allocator/allocator.c:158-159 | One entry failure with room is enough for that. |
| Allocator.AddRemoveRestores | src/allocator/allocator.c:144-194 | An entry added at an address not in the list is the one found there, and removing it gives the list back. |
| Allocator.Allocator.AddChunkAsync | src/allocator/allocator.c:266-308 | On success with a high water above the limit, the limit becomes the smaller of the two of high water and limit plus size, and the entry's length and the rise of the slot's total both equal that rise; at or under the limit the length is 0 and nothing is charged. Limit, entry lengths and charge stay equal and under the greatest reading if and only if the reading is non-zero or nothing was asked for. On failure nothing is tracked. The other list is untouched, so that calls compose. |
| Allocator.Allocator.AllocateAsyncRaw | src/allocator/allocator.c:310-316 | The same under the mutex: the same charge on success, hangs if the mutex is taken, and leaves it taken exactly when the check hangs, an entry failure being unlocked here. |
| Allocator.Allocator.RemoveChunkAsync | src/allocator/allocator.c:237-257 | Untracks and lowers limit and slot by the entry's length; the agreement survives if and only if the current device is the one charged or the entry had no bytes. |
| Allocator.Allocator.FreeRawAsync | src/allocator/allocator.c:259-264 | The same under the mutex: hangs and changes nothing exactly when it is taken. |
| Allocator.Allocator.BookPool | src/allocator/allocator.c:295-306 | The three branches on any pool reading, falling ones included: what limit, entry and slot come to in bytes, and that the books are right afterwards if and only if the reading is not zero or nothing was asked for. |
| Allocator.Allocator.ChargeGrowth | src/allocator/allocator.c:295-305 | The limit rises to the reading but by no more than the size; exactly as much is charged to total and data size of the one device. |
| Allocator.Allocator.EnterAsync | src/allocator/allocator.c:306 | With the new entry the books are right if and only if its bytes were charged. |
| Allocator.Allocator.Track | src/allocator/allocator.c:140-144 | Entry and charge together keep the books of every device and raise the live usage of the mapped one by exactly the bytes. |
| Allocator.Allocator.ReturnSync | src/allocator/allocator.c:189-195 | The list and counter part of a free, by either remove function. |
| Allocator.Allocator.ReturnAsync | src/allocator/allocator.c:243-253 | The list, limit and counter part of an asynchronous free. |
| Allocator.BooksAfterAdd | src/allocator/allocator.c:140-144 | Charging where the new entry's device maps keeps data_size equal to the tracked bytes of every device. |
| Allocator.BooksAfterRemove | src/allocator/allocator.c:192-195 | Discharging where the removed entry was charged does too. |
| Allocator.BooksBroken | src/allocator/allocator.c:250-252 | Discharging anywhere else breaks that agreement, unless the entry had no bytes. |
| Allocator.BooksCover | src/allocator/allocator.c:192-195 | The charged total is at least each tracked length, so a discharge never underflows. |
| Allocator.ChargeInPlace | src/allocator/allocator.c:144 | A charge on one slot moves the live usage of its device by exactly the amount. |
| Allocator.BytesWithout | src/allocator/allocator.c:192-194 | Taking one entry out of a list lowers the per-device bytes and the total length by exactly that entry's. |
| RateLimiter.AdmissionBounded | src/multiprocess/multiprocess_utilization_watcher.c:39-84 | Over every interleaving of launchers and refills with kernels up to K, tokens stay in -K..total, and what a device admits is at most its initial tokens plus its own refills plus K, whatever other devices do. |
| RateLimiter.StepKeepsInv | src/multiprocess/multiprocess_utilization_watcher.c:238-251 | No load, swap, doubling or controller step leaves the range of share and tokens or the admission balance. |
| RateLimiter.AdmissionConserved | src/multiprocess/multiprocess_utilization_watcher.c:39-70 | Over every run, what a device has admitted and what waits for it is exactly what was launched on it. |
| RateLimiter.TotalsOnlyDouble | src/multiprocess/multiprocess_utilization_watcher.c:243-246 | Only a tick on a device whose share is its total and whose tokens are negative moves a total: it doubles it and makes the share equal to it; any other tick and any other device changes nothing. |
| RateLimiter.TokensMove | src/multiprocess/multiprocess_utilization_watcher.c:63-83 | Tokens move in two ways only: a launcher that finds them as it read them takes exactly its size, and a refill adds the share up to the total; the share moves only after a reading of 0 to 100. |
| RateLimiter.LaunchAdmitted | src/multiprocess/multiprocess_utilization_watcher.c:61-69 | A launcher waits while tokens are negative, and undisturbed is let in and charged its size where they are not. |
| RateLimiter.IncrementAtLeast | src/multiprocess/multiprocess_utilization_watcher.c:86-96 | The acceleration never shrinks the increment, which is at least the one for a difference of five. |
| RateLimiter.DiffExact | src/multiprocess/multiprocess_utilization_watcher.c:87-88 | The distance from the limit counts as it is, and as five where it is less. |
| RateLimiter.BaseExact | src/multiprocess/multiprocess_utilization_watcher.c:89-91 | The increment is the product of the device's figures and the distance over 2560, rounded down. |
| RateLimiter.IncrementExact | src/multiprocess/multiprocess_utilization_watcher.c:93-96 | Only at more than half the limit away it is stretched, by twice the distance over limit plus one, rounded down. |
| RateLimiter.DeltaExact | src/multiprocess/multiprocess_utilization_watcher.c:98-104 | The share moves by exactly the increment, or to the end that is nearer. |
| RateLimiter.DeltaMoves | src/multiprocess/multiprocess_utilization_watcher.c:86-107 | Share stays in 0..total, never falls at or under the limit and never rises above it, and moves by a full least increment unless it reaches the end. |
| RateLimiter.ShareConverges | src/multiprocess/multiprocess_utilization_watcher.c:86-107 | With the total fixed, share is at the total (or at zero) after total divided by the least increment, rounded up, ticks. |
| RateLimiter.ExhaustedRecovers | src/multiprocess/multiprocess_utilization_watcher.c:243-250 | While nothing is launched and every reading is at or under the limit, tokens of an exhausted device grow per round by at least the least increment, where that is at most the total, doublings included, until launches pass again. |
| RateLimiter.ExhaustedRound | src/multiprocess/multiprocess_utilization_watcher.c:243-250 | The first round of an exhausted device at or under its limit gives it twice its old total in tokens, and doubles total and share. |
| RateLimiter.RoundIsRun | src/multiprocess/multiprocess_utilization_watcher.c:243-250 | A round as used there is a run of the step machine. |
| DlsymRing.DlMap.CheckDlmap | src/libvgpu.c:60-72 | Answers 1 if and only if the pair is among the last hundred recorded, over every history of calls. |
| DlsymRing.RecordedWindow | src/libvgpu.c:60-72 | After every history the last hundred recorded pairs are distinct and the pair just asked for is among them; what was recorded before it stays, and it is added exactly if it was not in the window. |
| DlsymRing.DlMap.Record | src/libvgpu.c:67-71 | A pair not in the window is added to the history and takes the cell whose turn it is, and the ring still stands for the window. |
| DlsymRing.MirrorsAfterRecord | src/libvgpu.c:67-70 | Overwriting the cell of the recording's number modulo 100 keeps the ring equal to the sliding window. |
| DlsymRing.CellInWindow | src/libvgpu.c:62-66 | Every used cell holds one of the last hundred recorded pairs. |
| DlsymRing.NotInCells | src/libvgpu.c:62-66 | A pair that no used cell holds is none of the last hundred recorded. |
| DlsymRing.CellsAreWindow | src/libvgpu.c:62-66 | The used cells hold exactly the last hundred recorded pairs. |
| DlsymRing.DlMap.Scan | src/libvgpu.c:62-66 | The loop finds the pair if and only if a used cell holds it. |
| DlsymRing.DlMap.constructor | src/libvgpu.c:53-58 | A fresh ring stands for the empty history. |
| HostPid.MergePid | src/utils.c:52-71 | The loop appends, within capacity, exactly the pids the list lacks, in the order they first occur. |
| HostPid.MergedIsUnion | src/utils.c:52-71 | The old list stays in front, a duplicate-free list stays so, and the pid set is the union. |
| HostPid.GetExtraPid | src/utils.c:73-96 | The first pid of the second list missing from the first, 0 when there is none, and 0 whenever the lists are equally long. |
| HostPid.DiscoverHostPid | src/utils.c:98-160 | If the second sample has exactly one pid more, that pid is found whatever order and repeats; a pid found is always one the first sample lacks. |
| HostPid.OneMore | src/utils.c:82-94 | Duplicate-free lists whose pid sets differ by one pid differ in length by one, so the test for equal lengths cannot hide it. |
| VisibleDevices.ParseCudaVisibleEnv | src/utils.c:175-196 | The loop stores the number in front and one after each later comma at the front of the map and leaves the identity behind them; it stores past the map if and only if there are more than sixteen numbers. |
| VisibleDevices.ParseOfJoin | src/utils.c:182-189 | Parsing a printed list of numbers gives the list back, with or without space after the commas. |
| VisibleDevices.CountsAgree | src/utils.c:182-214 | The parse stores as many numbers as getenvcount counts if and only if the text does not begin with a comma. |
| VisibleDevices.GetEnvCount | src/utils.c:203-215 | One more than the number of commas, or -1 for nothing. |
| VisibleDevices.NvmlToCudaMap | src/multiprocess/multiprocess_utilization_watcher.c:109-118 | The first index below devcount that maps to the device, or -1 when there is none; it reads past the map if and only if devcount exceeds the map and no entry matches. |
| VisibleDevices.VisibleDevicesRoundTrip | src/utils.c:175-215 | Distinct devices printed, parsed and looked up: the i-th one listed is CUDA device i and both counts are right, even where the identity tail repeats its number. |
| LimitParsing.OverflowExact | src/multiprocess/multiprocess_memory_limit.c:118-135 | For every 64-bit number and scale the divide-back test yields the product if it is below 2^64, and 0 otherwise. |
| LimitParsing.LimitOfPrint | src/multiprocess/multiprocess_memory_limit.c:95-136 | A printed number with a suffix in either case is read as its bytes if they fit; what happens otherwise, with and without a suffix. |
| LimitParsing.LastDecides | src/multiprocess/multiprocess_memory_limit.c:106-135 | Whatever the text, its last character alone decides the scale, and what does not fit is no limit. |
| LimitParsing.UnsetIsNoLimit | src/multiprocess/multiprocess_memory_limit.c:96-105 | No variable, or an empty one, is no limit. |
| LimitParsing.UnitsAgree | README.md:34 | n g, 1024n m and 1048576n k always agree, in either case, and agree with the bare number of bytes if and only if the amount fits. |
| Numerals.StrtoulOfPrint | src/multiprocess/multiprocess_memory_limit.c:118 | strtoul of a printed number before a suffix is the number, saturated at 2^64-1. |
| Numerals.StrtoulSpaced | src/multiprocess/multiprocess_memory_limit.c:118 | Leading space and a plus are passed over, and a minus negates modulo 2^64. |
| Numerals.StrtoulOfBase | src/multiprocess/multiprocess_memory_limit.c:118 | After 0x the digits are hexadecimal, after 0 octal. |
| Numerals.AtoiOfPrint | src/utils.c:185 | atoi of a printed number before anything but a digit is the number. |
| Numerals.AtoiSpaced | src/utils.c:185 | atoi passes over leading space, takes one sign, and gives 0 where no digit follows. |

## Left out

- Weak memory ordering: all machines interleave sequentially consistent steps.
- Threads and pids: a process is one thread for the lock, where pids are not reused; the slot table allows a pid to come back after its process died.
- Liveness beyond the existence of a continuation (`LockProtocol.ObtainableUnlessLost`, `UsageSeqlock.ReaderFinishesUnlessStuck`): timing, backoff and sleeps are left out, and a timeout is a free choice.
- mmap, file locking, file creation, signals, logging, CUDA and NVML calls: I/O. Driver answers, pool readings, dead pids and entry failures are parameters.
- Wrap-around of counters and sums: `uint64_t` counters, the seqlock, token counts and `dlmap_count` are unbounded here; 64-bit wrap is modelled where it matters, in the limit parser.
- Other processes' cached `my_slot` after this process compacts, and seqlock reads across a reset of the slot: the code does not coordinate these, and nothing is claimed about them.
- Interference.OthersRun: other processes are assumed not to move or change this process's record while it allocates, because their compaction does not update its cached pointer; other threads of this process, which may allocate between the check without the lock and the lock, are not run there.
- SharedRegion.RegionInfo.OomCheck: a cleaning pass is one atomic step and the set of dead pids is fixed during the check, although oom_check compacts without the lock; no other process registers and cleans while a scan waits, and an odd slot stands for an update that will not be finished.
- OverCommit.OverCommitBounded: tracked allocations of one device and non-zero limit, from an initial usage within it; context and module charges, which are made without a check, and slot removal during a scan are not part of it.
- UsageSeqlock.AcceptedIsCurrent: one slot, never cleaned or reset; sums over slots are in SharedRegion and OverCommit.
- Allocator.Allocator.Lock: a mutex that is taken when a call starts is one left taken for good; waiting for another thread of the process that will unlock it is not modelled, and calls run one after the other.
- Allocator.Allocator.AddChunk: the limit clause is for devices that the device map sends to themselves, since the check reads the raw index and the charge goes through the map; GPU memory that error paths leak is not tracked.
- Allocator.Allocator.RemoveChunk: the driver's free after it is left out.
- RateLimiter.AdmissionBounded: setspec is assumed to have run once before; it is called again by other code, and what that does to tokens and total is not modelled. The unthrottled fast exits admit without tokens and are not counted.
- ProcSlots.CleanCorrect: a slot is copied and vacated as one value, not field by field.
- KernelTime.MaximumRegister: the per-process fast path and mutex that thin out recordings are left out; runs without a join are its subject.
- VisibleDevices.ParseCudaVisibleEnv: what a store past the map does; the model stops there.
- Numerals.AtoiOfPrint: atoi is unbounded, as C leaves larger values undefined.
- HostPid.DiscoverHostPid: the NVML sampling around the two merges, its retries and the choice of device are left out.
- fix_lock_shrreg, region list macros and check_memory_type have no part in the lock, the slots or the accounting above; lock_postinit guards only the pid discovery; round_up, view_vgpu_allocator, the usage monitors and the utilisation sampling change none of the state the properties are about.
- Hook tables, symbol resolution and the CUDA and NVML wrappers: plumbing.
