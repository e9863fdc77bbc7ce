# A verified model of the CloudABI emulator's core

`cloudabi-run` can run CloudABI programs on systems whose kernel does not know
CloudABI, by emulating its system calls in userspace (`src/libemulator`). This
project models the four parts of that emulator whose correctness is hardest to
see, and proves what they promise:

* **Locks and condition variables** (`futex.c`, with the queues of `queue.h`).
  The service is a step system: a step is what one thread does between two
  points where it gives up the global mutex, or one atomic step of a userspace
  fast path. Theorems hold in every state of every run, for any number of
  threads, locks and condition variables. The lock object with its raw 32-bit
  word, its linked queues and the lists of objects are also modelled as classes
  that are updated in place. Other threads may change the word before every atomic
  access; the routines are proved to take effect atomically, at their last access,
  as the functions of the step system say.
* **Pathname resolution** (`path_get` in `posix.c`), on hosts that cannot confine
  lookups themselves. The two-stack machine is proved to refine a resolver that
  works on a single string, to stay below its base directory and to terminate on
  every file system; its limits are hit exactly when the single-string resolver
  goes beyond them. The method `PathGet` has the arrays, loops, host descriptors and
  reference counts of the source and is proved equal to the machine.
* **The descriptor table** (`fd_table_*`, `fd_object_*` and the calls using them in
  `posix.c`, and `refcount.h`). Threads interleave at the points where the source
  drops the table's lock. Reference counts are conserved, objects are cleaned up
  exactly once, and a descriptor never has rights beyond those of the object that
  it descends from.
* **Random slots** (`random.c`): `random_uniform` has no bias.

## How the files fit together

| file | contents |
|---|---|
| `LockWords` | the 32-bit lock word and its flag operations |
| `FutexLocks`, `FutexSteps` | the routines of `futex.c` on values; calls, steps and runs |
| `FutexInvariant`, `FutexFrames` | the invariant; what a step on one lock leaves alone |
| `FutexLockCalls`, `FutexCondvarCalls`, `FutexResume`, `FutexSignal` | every call keeps the invariant |
| `FutexRuns`, `FutexOutcomes` | the theorems; runs on which a promise fails |
| `FutexQueues`, `FutexFairness` | what steps do to the queues; bounded overtaking |
| `FutexGrants` | what calls come to: exactly when a lock is granted, and who sleeps where |
| `TailQueue`, `ObjectList`, `FutexLockObject` | queues, lists of objects and lock object, updated in place |
| `PathResolver`, `PathTheorems`, `PathAccess` | machine, refinement and confinement, the code with descriptors |
| `RandomUniform` | rejection sampling |
| `FdTables`, `FdRuns` | tables as values; threads, steps and runs |
| `FdTheorems`, `FdRights` | references, clean-up, assertions; rights |
| `FdEffects` | what every step leaves in the table, and how long an entry stays |
| `FdTableObject` | the table as an object, with its growing array |

`dafny verify dfyconfig.toml` checks everything.

## Where the code does not do what it promises

* `futex_lock_set_owner` records the number of readers as the owner when several
  readers hold the lock. On locks that never had two readers at once nothing goes
  wrong (`FutexOutcomes.FewReadersNoFailure`). Otherwise, each with the exact condition
  and a run:
  * an unlock by the only holder fails with `EPERM` (`UnlockSucceedsIff`,
    `StaleOwnerBlocksUnlock`);
  * a condition wait by the only holder fails with `EPERM` (`WaitRefusedIff`,
    `StaleOwnerBlocksWait`);
  * a condition wait that timed out ends with `EDEADLK` and without the lock
    (`RelockFailsIff`, `FutexRuns.CondvarReturnsHolding`, `StaleOwnerBreaksWait`);
  * a signal is refused with `EDEADLK` and lost (`SignalRefusedIff`,
    `StaleOwnerLosesSignal`);
  * a thread that holds nothing is told that locking would be a deadlock
    (`WrlockRefusedIff`, `StaleOwnerBlocksLock`).
* `futex_op_condvar_signal` takes the first element of a queue that is empty when all
  waiters were requeued already. This happens exactly when the condition variable is
  still referenced while its word says that nobody waits (`SignalFaultsIff`, a run:
  `SecondSignalFaults`). A look at the word before the call does not prevent it: of two
  threads that both saw waiters, the second may signal after the first took them all.
* `sys_fd_replace` detaches an entry before it reads the other one, and faults
  exactly when both are one valid descriptor (`FdTheorems.AssertionsHold`, a run:
  `ReplaceBySelfFaults`).
* `sys_fd_dup` reads an entry through a pointer taken before the table may be
  reallocated. The pointer is into the table's present array exactly when the table
  did not have to grow; then, or if the old memory still holds the entry, the call
  duplicates it, and otherwise it faults or installs what it finds there
  (`FdTableObject.FdTable.Dup`, a table that has to grow: `FdTheorems.DupMustGrow`).

## Model

| member | source | states |
|---|---|---|
| FutexRuns.MutualExclusion | src/libemulator/futex.c:312-429 | in every reachable state the lock word says exactly who holds the lock, and there is one writer and nobody else, or only readers |
| FutexRuns.ManagedWhileQueued | src/libemulator/futex.c:255-267 | a lock is kernel-managed exactly while threads are queued on it, and then somebody holds it, so no waiter is left behind on a free lock |
| FutexRuns.AssertionsHold | src/libemulator/futex.c:190-199 | on every run every assertion of the code holds; a null pointer is read exactly when a signal finds a referenced condition variable whose word says that nobody waits; EINVAL is returned exactly to a condition wait that names another lock than the waiters there |
| FutexRuns.CondvarReturnsHolding | src/libemulator/futex.c:537-581 | a condition wait that returns, woken, requeued and granted, or timed out, returns with the caller alone holding the lock; the exception is EDEADLK, returned exactly to a thread that timed out in the queue while it is the recorded owner, and only after two readers at once |
| FutexRuns.ObjectsCountSleepers | src/libemulator/futex.c:269-279 | a lock or condition variable object exists exactly while threads sleep on it and its waitcount is their number, so none is freed while in use |
| FutexRuns.WaitersConserved | src/libemulator/futex.c:58-67 | a suspended thread is in the queue its fw_queue names, once, and in no other; with fw_queue null it holds the lock it asked for; nobody else is queued |
| FutexRuns.GrantBeatsTimeout | src/libemulator/futex.c:472-493 | a waiter that was granted the lock holds it and reports no timeout of that sleep, even if its deadline has passed; relocking after an earlier timeout reports the earlier one |
| FutexRuns.CondvarWordTells | src/libemulator/futex.c:182-186 | the word of a condition variable differs from HAS_NO_WAITERS exactly while threads wait in its queue |
| FutexRuns.SignalFaultsIff | src/libemulator/futex.c:583-604 | signalling reads through a null pointer exactly when the condition variable is still referenced but its word says that nobody waits |
| FutexRuns.WriterUndisturbed | src/libemulator/futex.c:382-412 | while a thread holds a lock for writing no other thread's fast path changes the word, so the plain store that hands the lock over overwrites nothing |
| FutexRuns.StepKeeps | src/libemulator/futex.c:537-668 | every step of every thread keeps the invariant of all locks, condition variables and sleepers, and passes the assertions on its way; faults and EINVAL as above |
| FutexOutcomes.UnlockGrantsInOrder | src/libemulator/futex.c:382-412 | unless another owner is recorded an unlock succeeds and hands the lock to the oldest waiting writer, before any reader, or else to all waiting readers; exactly those are woken up, and all others keep their places in their queues |
| FutexOutcomes.SignalTakesOldest | src/libemulator/futex.c:583-624 | a signal of n succeeds unless the oldest waiter is the recorded owner, and moves exactly the min(n, length) oldest waiters, in order: the first gets a free lock, the others queue up behind the writers already there; nobody else moves |
| FutexOutcomes.UnlockSucceedsIff | src/libemulator/futex.c:297-305 | the holder's unlock succeeds if and only if the recorded owner is unset, unknown or the holder, and otherwise leaves all holders as they are |
| FutexOutcomes.FewReadersNoFailure | src/libemulator/futex.c:281-310 | on a lock that never had two readers at once before the call, unlocking and waiting by the holder never fail with EPERM, condition waits and signals never report a deadlock, and locking does so only to the holder |
| FutexOutcomes.NeverReadLocked | src/libemulator/futex.c:297-310 | on a managed lock that was never read-locked the recorded owner is the thread in the word, and anybody else's unlock returns EPERM and changes nothing |
| FutexOutcomes.RelockFailsIff | src/libemulator/futex.c:563-577 | a condition wait that timed out fails to relock if and only if its own thread is the recorded owner |
| FutexOutcomes.WaitRefusedIff | src/libemulator/futex.c:558-564 | a condition wait by the holder is refused with EPERM if and only if another owner is recorded and it names the waiters' lock |
| FutexOutcomes.SignalRefusedIff | src/libemulator/futex.c:600-624 | a signal to waiters is refused with EDEADLK, changing nothing, if and only if the oldest waiter, which never holds the lock, is the recorded owner |
| FutexOutcomes.WrlockRefusedIff | src/libemulator/futex.c:339-361 | write-locking reports EDEADLK if and only if the thread is the recorded owner or the word says that it holds the unmanaged lock |
| FutexOutcomes.StaleOwnerBlocksUnlock | src/libemulator/futex.c:281-295 | a run with two readers and a writer after which the last reader, now the only holder, cannot unlock |
| FutexOutcomes.StaleOwnerBlocksWait | src/libemulator/futex.c:558-564 | a run after which the only holder cannot wait on a condition variable |
| FutexOutcomes.StaleOwnerBreaksWait | src/libemulator/futex.c:339-345 | a run on which the condition wait of thread 2 times out into EDEADLK without the lock |
| FutexOutcomes.StaleOwnerLosesSignal | src/libemulator/futex.c:600-604 | a run on which a signal to a waiting thread is refused and lost |
| FutexOutcomes.StaleOwnerBlocksLock | src/libemulator/futex.c:342-345 | a run on which a thread that holds nothing is told that locking would be a deadlock |
| FutexOutcomes.SecondSignalFaults | src/libemulator/futex.c:598-604 | a run on which a second signal reads the first element of an empty queue |
| FutexGrants.RdlockOutcome | src/libemulator/futex.c:312-337 | read-locking succeeds at once if and only if nobody holds the lock for writing and nobody waits for it, sharing it with other readers; otherwise the thread sleeps at the end of the queue of readers, or gets ENOTSUP for the clock |
| FutexGrants.WrlockOutcome | src/libemulator/futex.c:339-380 | write-locking succeeds at once if and only if nobody holds the lock; otherwise EDEADLK if and only if the thread is the recorded owner or named by the word, and else it sleeps at the end of the queue of writers, or gets ENOTSUP |
| FutexGrants.RelockOutcome | src/libemulator/futex.c:563-577 | a condition wait that timed out leaves the queue, and holds the lock at once if and only if nobody does, gets EDEADLK if and only if it is the recorded owner, or else sleeps at the end of the queue of writers with the timeout to report |
| FutexGrants.WaitOutcome | src/libemulator/futex.c:537-581 | a condition wait that may drop the lock hands it over like an unlock and sleeps at the end of the condition variable's queue; everybody else keeps their place |
| FutexGrants.WaitClockOutcome | src/libemulator/futex.c:446-463 | with an unsupported clock it has the lock again, with ENOTSUP, if and only if nobody was waiting for it, and else queues up for it behind the writers |
| FutexFairness.BoundedOvertaking | src/libemulator/futex.c:382-412 | on every run from every reachable state, a thread queued to write behind i others that does not let its deadline pass has been granted the lock, alone, by the time it was handed over i + 1 times, and every hand-over until then brings it nearer |
| FutexFairness.StepAdvances | src/libemulator/futex.c:446-535 | no step moves a queued writer further back, and a hand-over grants it the lock or moves it to the front |
| FutexQueues.QueueMoves | src/libemulator/futex.c:446-535 | a hand-over takes the first writer out of the queue, a deadline the one it belongs to, and every other step of any call on any lock leaves the queue as it is or appends to it |
| FutexQueues.UnlockQueues | src/libemulator/futex.c:382-412 | what an unlock does to both queues and to everybody's fw_queue |
| FutexLockCalls.RdlockKeeps | src/libemulator/futex.c:237-253 | a read-lock call sleeps, or returns with one more reader, or rejects the clock and leaves the holders; the invariant is kept; when it does which is RdlockOutcome |
| FutexLockCalls.WrlockKeeps | src/libemulator/futex.c:414-429 | a write-lock call takes only an idle lock and then holds it alone, or sleeps, rejects the clock or reports a deadlock, the latter exactly as above, and leaves the holders; the invariant is kept |
| FutexLockCalls.UnlockKeeps | src/libemulator/futex.c:656-668 | the unlock call hands the lock over as above or returns EPERM; the invariant is kept |
| FutexCondvarCalls.WaitKeeps | src/libemulator/futex.c:537-581 | the first part of a condition wait drops the lock and sleeps, or returns holding it: with EINVAL exactly if the waiters there name another lock, with EPERM exactly if the owner check forbids dropping it, or because of the clock; the invariant is kept |
| FutexCondvarCalls.ReacquireKeeps | src/libemulator/futex.c:563-581 | relocking after an unsuccessful sleep holds the lock, sleeps for it, or reports EDEADLK, from every intermediate state |
| FutexResume.ResumeGranted | src/libemulator/futex.c:484-494 | a sleeper that finds itself dequeued returns holding what it asked for; the invariant is kept |
| FutexResume.ResumeLockTimeout | src/libemulator/futex.c:484-494 | a sleeper on a lock whose deadline passed returns ETIMEDOUT and changes no holder; the invariant is kept, so it is out of its queue and the lock is unmanaged again if it was the last |
| FutexResume.ResumeWaitTimeout | src/libemulator/futex.c:561-581 | a sleeper on a condition variable whose deadline passed holds the lock again, sleeps for it, or reports EDEADLK, which it does if and only if it is the recorded owner; the invariant is kept |
| FutexSignal.SignalKeeps | src/libemulator/futex.c:583-624 | signalling keeps the invariant; ENOENT, the fault and EDEADLK each have their exact condition |
| FutexLocks.UnlockFacts | src/libemulator/futex.c:297-305 | on one lock: exactly one hand-over, to the oldest writer before any reader, exactly when the owner check allows it |
| LockWords.AddReader | src/libemulator/futex.c:326-328 | incrementing a raw word that is not write-locked adds one reader and touches no flag, except for the largest count, where the carry makes a write-locked word |
| LockWords.DecodeInjective | src/libemulator/futex.c:350-358 | different raw words are different lock words, so comparing raw words compares locks |
| LockWords.OwnerMasks | src/libemulator/futex.c:283-288 | the two masks of futex_lock_set_owner single out words without count and flag, and the count |
| TailQueue.FutexQueue.InsertTail | src/libemulator/queue.h:69-75 | appends to the queue's sequence and keeps the doubly linked structure, with slot addresses as previous pointers |
| TailQueue.FutexQueue.Remove | src/libemulator/queue.h:76-83 | removes exactly the given element from any position and keeps the structure |
| TailQueue.FutexQueue.constructor | src/libemulator/futex.c:441-444 | an empty, well-formed queue |
| TailQueue.FutexQueue.Enter | src/libemulator/futex.c:465-467 | a new waiter goes to the end; the count follows |
| TailQueue.FutexQueue.Leave | src/libemulator/futex.c:488-492 | a timed out waiter takes itself out of any position; the count follows |
| TailQueue.FutexQueue.Requeue | src/libemulator/futex.c:497-510 | exactly the oldest waiters, up to the given number, move in order to the end of the other queue, with fw_queue set |
| TailQueue.FutexQueue.WakeUpAll | src/libemulator/futex.c:513-522 | empties the queue and clears fw_queue of every member |
| TailQueue.FutexQueue.WakeUpBest | src/libemulator/futex.c:526-535 | takes out the oldest waiter and clears its fw_queue |
| ObjectList.List.InsertHead | src/libemulator/queue.h:31-38 | prepends to a list whose addresses stay unique, and keeps the doubly linked structure |
| ObjectList.List.Unlink | src/libemulator/queue.h:39-44 | removes exactly the given element from any position |
| ObjectList.List.Lookup | src/libemulator/futex.c:113-127 | finds the object at an address if and only if there is one |
| ObjectList.List.LookupOrCreate | src/libemulator/futex.c:213-235 | as a map from addresses to objects the list changes at the given address only; a new object is made exactly if there was none and there is memory |
| ObjectList.List.Release | src/libemulator/futex.c:269-279 | the object leaves the map exactly if its waitcount is zero |
| ObjectList.IndexRemove | src/libemulator/futex.c:269-279 | removing an element of a list with unique addresses removes that address from the map and nothing else |
| FutexLockObject.FutexLock.TryRdlock | src/libemulator/futex.c:312-337 | on the raw word, with other threads changing it and compare-exchange failing at will, the loop ends and has the effect of the function of the step system at the moment of its last access, unless the count overflows |
| FutexLockObject.FutexLock.TryWrlock | src/libemulator/futex.c:339-380 | likewise for the write-lock loop, without exception |
| FutexLockObject.FutexLock.Unmanage | src/libemulator/futex.c:255-267 | likewise for the loop that clears the kernel-managed bit; owner and bit are cleared together exactly if both queues are empty |
| FutexLockObject.FutexLock.WakeUpNext | src/libemulator/futex.c:382-412 | likewise; every waiter that left a queue has its fw_queue cleared |
| FutexLockObject.FutexLock.SetOwner | src/libemulator/futex.c:281-295 | by masks on the raw word: the owner is the count in it, or unknown if that is zero, and never says that the lock is not managed |
| FutexLockObject.FutexLock.UpdateOwner | src/libemulator/futex.c:307-310 | afterwards the exclusive holder passes the owner check exactly if the owner was unset, unknown or the holder before; a known owner stays |
| FutexLockObject.FutexLock.Unlock | src/libemulator/futex.c:297-305 | the in-place unlock has the effect of the function that the hand-over theorems are about, at the moment it read the word |
| PathResolver.StepDecreases | src/libemulator/posix.c:1260-1400 | every round that goes on keeps both stacks within their arrays and expands a symlink or consumes characters, so the loop ends, symlink cycles included |
| PathTheorems.RefinesReference | src/libemulator/posix.c:1250-1400 | without a limit reported, the result is that of the single-string resolver, which was within all limits throughout; with one, the reference goes beyond that very limit at that point, of 128 directories, 32 nested pathnames or 127 expansions, and was within all of them before |
| PathTheorems.AgreesWithinLimits | src/libemulator/posix.c:1250-1400 | if the reference ends, the machine reports a limit if and only if the reference goes beyond one on the way, and otherwise the same result |
| PathTheorems.LimitsInNumbers | src/libemulator/posix.c:1250-1376 | a lookup is given up if and only if the reference expands 128 links, nests 33 pathnames or enters 129 directories, with ENAMETOOLONG for the directories and ELOOP otherwise |
| PathTheorems.StepMatches | src/libemulator/posix.c:1260-1400 | one round of the two-stack machine is one step of the reference, and hits a limit exactly when that step goes beyond it |
| PathTheorems.ResolveConfined | src/libemulator/posix.c:1204-1208 | a lookup reaches only directories below the base, one child entry at a time, and returns "." or one component that is neither ".." nor, where links are followed, a symlink |
| PathTheorems.CutJoin | src/libemulator/posix.c:1262-1269 | cutting a component off a string that ends in a slash does not depend on what follows it |
| PathAccess.PathGet | src/libemulator/posix.c:1209-1421 | a null character (EILSEQ), a bad descriptor (EBADF) and missing rights (ENOTCAPABLE) are refused in this order, otherwise the result is the machine's; whatever is refused leaves descriptors and reference counts as they were, a lease has one more reference and at most one more descriptor, for the directory found |
| PathAccess.PathPut | src/libemulator/posix.c:1432-1437 | closes the lease's descriptor exactly if it is not the object's own, restoring the host's descriptors, and releases the reference |
| PathAccess.LookupAndRelease | src/libemulator/posix.c:1439-1459 | a lookup and its release leave open descriptors, table and reference counts as they were, for every path, descriptor, rights and file system |
| PathAccess.CloseUpTo | src/libemulator/posix.c:1402-1419 | the closing loops close exactly the descriptors opened by the lookup, each once |
| PathAccess.Round | src/libemulator/posix.c:1260-1400 | one round of the loop on arrays and descriptors is one step of the machine |
| PathAccess.Act | src/libemulator/posix.c:1271-1350 | the directories denoted by the descriptors change as the component demands, and nothing else is opened or closed |
| PathAccess.Search | src/libemulator/posix.c:1260-1400 | the whole loop ends as the machine does |
| PathAccess.Walk | src/libemulator/posix.c:1250-1419 | the walk along the path returns what the machine returns and opens or closes nothing else |
| RandomUniform.ThresholdIsRemainder | src/libemulator/random.c:53-56 | -upper % upper on 64-bit words is 2^64 mod upper |
| RandomUniform.Unbiased | src/libemulator/random.c:45-63 | every result in the range is produced by equally many of the 2^64 words, for every upper |
| RandomUniform.RandomUniform | src/libemulator/random.c:52-63 | the loop returns the remainder of the first word that is not below the threshold |
| FdTheorems.ReferencesConserved | src/libemulator/posix.c:441-462 | in every reachable state an object's count is the number of its entries plus the references held by calls in progress |
| FdTheorems.CleanedUpOnce | src/libemulator/posix.c:441-462 | on every run an object that came into being has been cleaned up once if no entry and no call refers to it, and not at all otherwise |
| FdTheorems.AssertionsHold | src/libemulator/posix.c:329-355 | a step fails an assertion or reads an empty entry if and only if it replaces a valid descriptor by itself or inserts an existing descriptor over another |
| FdTheorems.StepKeeps | src/libemulator/posix.c:464-741 | every step of every call keeps soundness of the table and conservation of references |
| FdTheorems.TableHalfFree | src/libemulator/posix.c:292-314 | in every reachable state the table is at most half full, its size is zero or a power of two, and used is the number of entries |
| FdTheorems.ReplaceBySelfFaults | src/libemulator/posix.c:872-896 | a run after which replacing a descriptor by itself faults |
| FdTheorems.InsertOverFaults | src/libemulator/posix.c:464-494 | a run after which inserting an existing descriptor over another one fails the assertion |
| FdTheorems.DupMustGrow | src/libemulator/posix.c:719-741 | a reachable table that has to grow when its entry is duplicated |
| FdRights.NoAmplification | src/libemulator/posix.c:270-290 | on every run every descriptor descends from one object that the run created: without an open on the way it is for that object, with base and inheriting rights within those the object was created with; with one, base and inheriting rights together are within the inheriting ones |
| FdRights.RightsComeFromRoot | src/libemulator/posix.c:1497-1601 | a right that the root of a descriptor was not created with never appears on it, and a base right of the root never passes through an open |
| FdRights.OpenDerived | src/libemulator/posix.c:1515-1563 | what file_open may install, base and inheriting, is within the inheriting rights of the directory it goes through, whatever the flags; the exact check is OpenEffect |
| FdRights.StepStems | src/libemulator/posix.c:719-741 | every step keeps every descriptor, and the rights that calls have in transit, within the origin that duplication, replacement and open pass on |
| FdEffects.OpenEffect | src/libemulator/posix.c:1515-1568 | file_open gets past its check if and only if the directory is valid, has FILE_OPEN and for O_CREAT also FILE_CREATE_FILE, and its inheriting rights have everything asked for and what truncation, the sync flags and writing without append need |
| FdEffects.OpenDoneEffect | src/libemulator/posix.c:1591-1600 | the new object comes with exactly those rights asked for that its type allows |
| FdEffects.CloseEffect | src/libemulator/posix.c:591-608 | closing empties exactly that entry and leaves its reference to the call |
| FdEffects.ReplaceEffect | src/libemulator/posix.c:872-896 | the replaced entry becomes a copy of the other with all its rights, one more reference is counted, and the old one is left to the call; with a bad descriptor nothing changes |
| FdEffects.DupEffect | src/libemulator/posix.c:719-741 | a copy with all rights appears at the picked slot and no other entry changes, or nothing changes for a bad descriptor or without memory |
| FdEffects.PutRightsEffect | src/libemulator/posix.c:1019-1037 | the new rights are stored exactly if both sets are within the old ones |
| FdEffects.PutRightsLast | src/libemulator/posix.c:1019-1037 | over runs: after rights were put on a descriptor, and until it is closed or replaced, it is for the same object and has no right outside of them |
| FdEffects.EntryLasts | src/libemulator/posix.c:329-355 | over runs: an entry stays as it is until it is closed, replaced or restricted, whatever else is opened, duplicated or grown |
| FdEffects.InstallEffect | src/libemulator/posix.c:507-589 | every new object is put at its picked slot with exactly its rights, and no other entry changes |
| FdEffects.InstallAtEffect | src/libemulator/posix.c:464-494 | the same at a given place |
| FdEffects.GetEffect | src/libemulator/posix.c:666-699 | a look-up adds exactly one reference to the object of the descriptor if it is valid and has the rights needed |
| FdEffects.PollEffect | src/libemulator/posix.c:2189-2245 | after it poll holds one reference to an object for every place that names it with the rights needed |
| FdEffects.SendEffect | src/libemulator/posix.c:2497-2513 | after it sock_send holds a reference for every descriptor up to where it stops |
| FdTables.ReleaseKeeps | src/libemulator/refcount.h:32-38 | a release never finds a zero count, and cleans up exactly when it gives back the last reference of all |
| FdTables.AttachKeeps | src/libemulator/posix.c:329-342 | attaching passes a held reference to the table, without failing an assertion when there is room |
| FdTables.DetachKeeps | src/libemulator/posix.c:344-355 | detaching passes the entry's reference to the caller |
| FdTables.GrowKeeps | src/libemulator/posix.c:292-314 | growing keeps entries and references, and the size a power of two |
| FdTables.Grown | src/libemulator/posix.c:292-314 | the old entries stay in place, the new ones are free, and the table exceeds both bounds |
| FdTables.DoubledLeast | src/libemulator/posix.c:296-300 | the doubling loop ends with the least power of two that meets both bounds |
| FdTables.PollBalanced | src/libemulator/posix.c:2189-2316 | the references that poll takes and gives back cancel out exactly, for valid, invalid and repeated descriptors; which it takes is PollCounts |
| FdTables.SendBalanced | src/libemulator/posix.c:2482-2529 | so do those of sock_send, also when it stops at a bad descriptor or an object without a host descriptor |
| FdTables.PollCounts | src/libemulator/posix.c:2197-2204 | the count of an object grows by the number of places of the subscription list that name it with the rights needed |
| FdTables.SendFetchedStops | src/libemulator/posix.c:2497-2513 | where the loop of sock_send stops and what it holds then, descriptor by descriptor |
| FdTables.AccessIff | src/libemulator/posix.c:270-290 | EBADF exactly for a number beyond the table or an empty entry, success exactly if both sets of rights are there too |
| FdTables.GrownLeast | src/libemulator/posix.c:292-314 | a table grows only if it has to, and to the least power of two that will do |
| FdRuns.ReplaceKeeps | src/libemulator/posix.c:872-896 | replacing faults if and only if both descriptors are one valid descriptor, and otherwise conserves references; what it leaves is ReplaceEffect |
| FdRuns.DupKeeps | src/libemulator/posix.c:719-741 | duplicating conserves references, with and without memory to grow |
| FdRuns.InstallKeeps | src/libemulator/posix.c:507-589 | inserting one or two new objects passes their references to the table, or leaves them to be released without memory |
| FdRuns.CloseKeeps | src/libemulator/posix.c:591-608 | closing hands the entry's reference to the call, which releases it later |
| FdRuns.TakeKeeps | src/libemulator/posix.c:668-699 | references taken by lookups, poll and send are counted |
| FdTableObject.FdTable.Grow | src/libemulator/posix.c:292-314 | the doubling and copying loops compute the grown table, and fail without change exactly when memory was needed and missing |
| FdTableObject.FdTable.GetEntry | src/libemulator/posix.c:270-290 | EBADF, ENOTCAPABLE or success by the subset test on rights |
| FdTableObject.FdTable.Attach | src/libemulator/posix.c:329-342 | the in-place update; its assertions hold |
| FdTableObject.FdTable.Detach | src/libemulator/posix.c:344-355 | the in-place update; its assertions hold |
| FdTableObject.FdTable.Release | src/libemulator/posix.c:441-462 | the reference given back was counted and all others still are; the object is cleaned up exactly if there are no others, in the table or held by a call |
| FdTableObject.FdTable.Unused | src/libemulator/posix.c:496-505 | the slot named by the first accepted random word whose slot is free |
| FdTableObject.UnusedUniform | src/libemulator/posix.c:496-505 | on a table no random word is rejected and every slot is named by equally many words |
| FdTableObject.FdTable.Insert | src/libemulator/posix.c:507-527 | the reference to the object passes to the table, or is released when growing fails |
| FdTableObject.FdTable.Dup | src/libemulator/posix.c:719-741 | the entry is read in the table's present array exactly if the table did not grow; then, or if the old memory still holds it, the call refines the step of the run theorems; otherwise it faults exactly if no live object is found there; references are conserved unless it faults |
| FdTableObject.FdTable.CloseLocked | src/libemulator/posix.c:591-606 | empties exactly that entry and hands out its reference; an error changes nothing; refines the step of the run theorems |
| FdTableObject.FdTable.ReplaceLocked | src/libemulator/posix.c:872-893 | the entry becomes a copy of the other, rights included, and the old reference is handed out; an error changes nothing; faults exactly if both are one valid descriptor; refines the step of the run theorems |
| FdTableObject.FdTable.Close | src/libemulator/posix.c:591-608 | undisturbed, closing empties the entry and conserves all references |
| FdTableObject.FdTable.PutRights | src/libemulator/posix.c:1019-1037 | on success the entry has exactly the new rights and the same object, which takes that they are within the old ones; an error changes nothing |
| FdTableObject.FdTable.GetLocked | src/libemulator/posix.c:666-685 | an error, or exactly one counted reference to the object of the descriptor |
| FdTableObject.FdTable.PollAcquire | src/libemulator/posix.c:2189-2245 | every count grows by the number of places that name the object with the rights needed, and no entry changes |
| FdTableObject.FdTable.SendAcquire | src/libemulator/posix.c:2497-2513 | references are taken, and counted, for every descriptor up to the first bad one or up to and with the first whose object has no host descriptor; EBADF exactly if there is either |
| FdTableObject.FdTable.ReleaseEach | src/libemulator/posix.c:2314-2316 | the loops giving references back |

## Left out

- RandomUniform.RandomUniform: the words come from a finite supply, so a supply that is used up is reported; that the loop ends with probability one is not stated.
- FdTableObject.FdTable.Unused: the same.
- FutexLockObject.FutexLock.TryRdlock: what other threads do between the atomic accesses is a finite supply, so that the loop ends; that the loop is lock-free under endless interference is not stated.
- FutexLockObject.FutexLock.TryWrlock: the same, and thread identifiers are those that the pool hands out.
- FutexLockObject.FutexLock.Unmanage: the same.
- FutexLockObject.FutexLock.WakeUpNext: queued writers have thread identifiers that the pool hands out, there are less than 2^30 queued readers, and nobody else changes the word, for which see WriterUndisturbed.
- FdRuns.DupKeeps: the steps of the run theorems read the entry that was there; what becomes of a stale one is said by FdTableObject.FdTable.Dup only.
- PathAccess.PathGet: the file system does not change during a lookup; copying and freeing strings and running out of memory are not modelled.
- FutexSteps: unlock and condition wait are called by a thread that holds the lock; what userspace does otherwise is covered only by NeverReadLocked.
- Userspace fast paths are modelled after the promises in the CloudABI lock word format; cloudlibc is not part of this repository.
- Calls that reject the clock try the lock and unmanage it, or hand it over and relock it, in one step of the step system; fast paths that run in between are not modelled.
- Process-shared scopes (ENOTSUP) and several subscriptions in one futex_op_poll call.
- Deadlines as numbers: a sleep may time out at any time, or not; relocking after a condition wait sleeps without a deadline.
- The step system has maps in place of the lists of objects, which ObjectList justifies, and allocation of these objects does not fail in it.
- More than 2^30 - 1 readers or thread identifiers in the step system; LockWords.AddReader says what becomes of the word.
- Memory ordering; every atomic operation is sequentially consistent.
- The branch of path_get for hosts with Capsicum, which leaves confinement to the kernel.
- Host system calls behind the other descriptor operations (read, write, stat, readdir, sockets), error number conversion, and the choice of rights by file type.
- Descriptors received through sock_recv, which are inserted like created objects.
- ELF loading, TLS switching, the vDSO and the launcher's configuration.
