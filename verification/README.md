# Sintra: verified protocols

Sintra is a shared-memory inter-process communication library. This project models its
concurrency and crash-recovery protocols, its message frames and its command-line printer, and
proves what they promise.

`dafny verify dfyconfig.toml` checks everything.

## How it is built

Concurrent protocols are step systems: one step per atomic operation or critical section, a
program counter per thread, any number of threads, and crash, process-start and PID-reuse steps
where the code handles them. `Runs` says what a run is; each protocol has an inductive invariant,
one lemma per group of operations that keeps it, and theorems over every state of every run.
History fields (who holds, which tenure, who cancelled) serve only to state the theorems. Short lemmas
named `...Alone` show that the steps do something: one undisturbed call has its effect.
Sequential code that works in place is written as classes and methods proved against
specification functions.

| file | what it models |
|---|---|
| `Runs` | runs of a step system and induction over them |
| `Processes` | process instances, PIDs, start stamps and what the operating system may answer |
| `Mutex`, `MutexAlone` | the process-robust mutex: all interleavings; one call alone and the class |
| `Spinlock`, `SpinlockAlone` | the shared spinlock with takeover and the live-stall witness; one call alone and the class |
| `Ids`, `Routing` | instance ids, and the star of rings through the coordinator |
| `HandlerSlot`, `NamedActivation` | event-handler slots and subscriptions by name |
| `Rpc`, `RpcTarget` | RPC completion, deferral and cancellation; lifetime of RPC targets |
| `NameCache` | the instance-name cache against the authoritative registry |
| `Bytes`, `Frames`, `FrameReader`, `FrameExchange` | frame sizing, the in-place writer, the frame parser, and both together |
| `Semaphore` | the POSIX semaphore |
| `CommandLine` | the Windows command-line printer and its parser |
| `Shutdown` | shutdown, leave and finalize |

## Assumptions

- Mutex and spinlock: "exited" is answered only of exited processes, an incarnation always shows
  one start stamp, instances are never reused, no two live processes share a PID.
- Steps are sequentially consistent and counters unbounded.
- Routing: readers are in the normal state, rings lose nothing, senders use real process indices.
- RPC calls: return-handler ids of new calls are fresh and no id is zero; in `Rpc.OneWaitPerNameIsSafe`
  they are also apart from the ids the coordinator defers to, which come from another counter range. An exception that leaves a
  reader thread ends the process (no reader catches it), so after a deferral that throws nothing
  changes the return-handler table any more; everything else may still go on.
- RPC targets: readers exist, and no explicit `destroy()` begins once destruction has begun.
- Frames: `size_t` has 64 bits, the frame alignment is 16, frames start at aligned addresses, and
  descriptors lie behind the message prefix, apart from each other, inside the fixed part.
- Shutdown: calls do not overlap, `finalize_impl` completes or reports incompleteness but does not
  throw, and no custody is accepted while admission is closed.

## Where the code differs from what is said about it

- `local()` is documented to deliver in the current process. On a process other than the
  coordinator's an any_local event is dispatched nowhere: the documented meaning of a receiver id is
  honoured exactly for all other messages (`Routing.MeaningIsHonouredExactly`), and
  `Routing.LeafLocalEventIsLost` is a run that loses one.
- A successful post of more than 0x7fffffff units can lose a wakeup: the number of threads to wake is
  cast to a signed integer and, on Linux, negatives become zero (`Semaphore.NoLostWakeupExactly` gives
  the exact condition, `Semaphore.StrandingIsRun` a run). Only a direct `ips_backend::post(n)` can ask
  for that: `interprocess_semaphore` posts single units, so it loses no wakeup whatever its maximum.
- A comment in `shutdown` says an exception always leaves the runtime torn down and the state idle.
  That holds exactly when, at one of the finalization attempts, no child custody is outstanding and the
  native family is inactive or empty (`Shutdown.ThrowTearsDownExactly`); it is certain beforehand exactly
  for a process without outstanding children that never activated the family
  (`Shutdown.SureTeardownExactly`), and `Shutdown.HookThrowsWithChild` shows it failing.
- A deferral is said to move the return handler to its new id. `replace_return_handler_id` throws when
  that id is active, having already erased the old entry, and the exception leaves the reply reader.
  The coordinator hands out one id per waited name and per barrier, so two waits of one process for one
  name get there (`Rpc.TwoWaitsForOneNameCollide`). `Rpc.TableFollowsDeferrals` and
  `Rpc.CollidesExactly` give the exact condition, `Rpc.OneWaitPerNameIsSafe` what a caller can do.
- A program name with a double quote does not survive the command line
  (`CommandLine.ParseUndoesPrint` gives the exact condition).

## Model

| member | source | states |
|---|---|---|
| `Processes.ExitedVerdictIsSound` | include/sintra/detail/ipc/process_utils.h:448-459 | for a live observer, "this recorded instance has exited" is never said of a live process, also when the recorded PID is the observer's own |
| `Processes.WorldStepKeepsExits` | include/sintra/detail/ipc/process_utils.h:347-459 | across any process start (PID reuse included) or crash, an instance once seen exited stays exited and published words stay attributable |
| `Mutex.NextKeepsInv` | include/sintra/detail/ipc/mutex.h:372-537 | every atomic step of every thread, crash and spawn keeps the inductive invariant: one live gate holder, the owner word beside its own stamp and instance, sound verdicts |
| `Mutex.MutualExclusion` | include/sintra/detail/ipc/mutex.h:372-448 | in every run with crashes at any step and PID reuse at most one live thread holds the mutex, at most one is behind the gate, and the words are the live holder's |
| `Mutex.HolderIsNeverDisplaced` | include/sintra/detail/ipc/mutex.h:507-537 | no step other than the holder's own unlock or its process's death ends a live hold |
| `Mutex.PublicationNeverFails` | include/sintra/detail/ipc/mutex.h:421-448 | the publication compare-and-swap always succeeds, because every move off zero happens behind the gate |
| `Mutex.PublishCasKeepsTuple` | include/sintra/detail/ipc/mutex.h:421-448 | at publication the stamp and instance words are already the new owner's |
| `Mutex.VerdictIsSound` | include/sintra/detail/ipc/mutex.h:404-419 | "the owner has exited" is decided, from the stamp read and the probes, only when no live thread holds |
| `Mutex.UnlockKeepsInv` | include/sintra/detail/ipc/mutex.h:264-275 | unlock without the gate, called by any thread at any moment, keeps the invariant |
| `Mutex.RecursionErrorIsExact` | include/sintra/detail/ipc/mutex.h:464-505 | the recursion error is raised exactly for a thread that really holds the mutex, never for an owner left by an earlier process with the same PID and TID |
| `MutexAlone.AdvanceLowersRank` | include/sintra/detail/ipc/mutex.h:464-537 | an undisturbed try_acquire returns: each operation lowers a rank that starts at 70 |
| `MutexAlone.AloneMeetsVerdict` | include/sintra/detail/ipc/mutex.h:464-537 | the step-by-step call refines a one-line verdict on the four words |
| `MutexAlone.CrashRecovery` | include/sintra/detail/ipc/mutex.h:464-537 | from every reachable state one undisturbed try_acquire succeeds if and only if the gate is free or its holder detectably exited and the mutex is unowned or its owner detectably exited; it reports recursion if and only if the caller holds |
| `MutexAlone.DeadAreRecovered` | include/sintra/detail/ipc/mutex.h:464-537 | if the processes of the recorded owner and of the gate holder are dead and their PIDs are free, reused by the caller's own process or, for the owner, told apart by the start stamp, one undisturbed try_acquire takes the mutex |
| `MutexAlone.InterprocessMutex.AcquireRecoveryGate` | include/sintra/detail/ipc/mutex.h:372-382 | takes the gate exactly when it is free or its recorded holder has exited |
| `MutexAlone.InterprocessMutex.TryAcquireUnowned` | include/sintra/detail/ipc/mutex.h:421-448 | publishes stamp, instance and owner exactly when the gate is obtained and the mutex unowned; the gate is given back |
| `MutexAlone.InterprocessMutex.TryRecover` | include/sintra/detail/ipc/mutex.h:507-537 | answers true exactly when an owner was observed, the gate is obtained and the mutex is unowned by now or its owner is the observed one and has exited; clears the owner then and only then |
| `MutexAlone.InterprocessMutex.TryAcquire` | include/sintra/detail/ipc/mutex.h:464-505 | words and outcome equal the verdict, with the recursion error only when asked for |
| `MutexAlone.InterprocessMutex.Unlock` | include/sintra/detail/ipc/mutex.h:264-275 | releases exactly when the caller's token is the owner |
| `Spinlock.MutualExclusion` | include/sintra/detail/ipc/spinlock.h:354-461 | at most one live thread is inside across crashes and racing takeovers; owner zero shows an even generation, a live marked hold an odd one |
| `Spinlock.TakeoverOpKeepsParity` | include/sintra/detail/ipc/spinlock.h:533-562 | failed and successful takeovers never disturb the parity that encodes a marked hold |
| `Spinlock.StepWithinTenure` | include/sintra/detail/ipc/spinlock.h:366-461 | the generation never decreases and within one tenure the owner word can only clear |
| `Spinlock.TenureIsUnbroken` | include/sintra/detail/ipc/spinlock.h:494-531 | equal tenures at two moments mean the same owner at every moment between them |
| `Spinlock.TwoHoldsNeverLookAlike` | include/sintra/detail/ipc/spinlock.h:366-378 | an odd generation and a nonzero owner seen together at two moments of a run belong, with everything between, to one tenure of that owner |
| `Spinlock.StallReportIsSound` | include/sintra/detail/ipc/spinlock.h:380-531 | a reported live-owner stall means one uninterrupted marked hold of the waiter's own process from the first owner read to the last, and at least two seconds of effort, thread CPU plus sleep credited at most 20 ms each |
| `SpinlockAlone.LockAlone` | include/sintra/detail/ipc/spinlock.h:354-450 | from every reachable state an undisturbed lock() with a poll due is inside after eight operations if and only if the lock was open or its recorded owner detectably exited, whatever it sleeps and samples; otherwise neither word changed |
| `SpinlockAlone.UnlockAlone` | include/sintra/detail/ipc/spinlock.h:453-461 | unlock by the thread inside opens the lock under an even generation |
| `SpinlockAlone.SharedSpinlock.TryTakeOverExitedOwner` | include/sintra/detail/ipc/spinlock.h:533-562 | takes the lock exactly from an exited owner, ending with an odd, larger generation; otherwise both words are as they were |
| `SpinlockAlone.SharedSpinlock.TryLock` | include/sintra/detail/ipc/spinlock.h:354-405 | one undisturbed round of lock(): obtained and marked exactly from an open lock or an exited owner, otherwise both words as they were |
| `SpinlockAlone.SharedSpinlock.Unlock` | include/sintra/detail/ipc/spinlock.h:453-461 | the lock is open under a larger, even generation |
| `Ids.PartsAreFaithful` | include/sintra/detail/id_types.h:157-216 | composing and decomposing an id are inverse, and comparing the 64-bit numbers is comparing process part then transceiver part |
| `Ids.LocalityTable` | include/sintra/detail/id_types.h:218-329 | the locality test says of every id what the comment table promises |
| `Routing.RelayedThenDispatched` | include/sintra/detail/messaging/process_message_reader_impl.h:722-881 | relay by the coordinator followed by dispatch at a reader realises exactly the meaning of the receiver id, for every addressable message |
| `Routing.CoordSendsAreDispatched` | include/sintra/detail/messaging/process_message_reader_impl.h:722-881 | messages of the coordinator's process are dispatched directly by exactly the processes they are meant for |
| `Routing.ExactlyOnceInOrder` | include/sintra/detail/messaging/process_message_reader_impl.h:664-891 | in every run what a process dispatched of a sender's messages is a prefix of what was sent for it, in sending order, and all of it once readers caught up: exactly once, first in first out |
| `Routing.RelayedAtMostOnce` | include/sintra/detail/messaging/process_message_reader_impl.h:76-107 | no message is relayed twice, and only messages of the ring's owner are relayed |
| `Routing.DirectIsNeverOvertaken` | include/sintra/detail/messaging/process_message_reader_impl.h:722-881 | at every moment all direct requests in the part of a leaf's ring the coordinator has read have been dispatched, while the relayed messages dispatched are a prefix of those: nothing overtakes a direct request |
| `Routing.RelayedCanBeOvertaken` | include/sintra/detail/messaging/process_message_reader_impl.h:722-881 | a run in which a leaf's event is overtaken at the coordinator by a later direct request |
| `Routing.LocalEventsNeedTheCoordinator` | include/sintra/detail/messaging/process_message_reader_impl.h:722-780 | at every moment of every run an any_local event has been dispatched only by the coordinator's process and only if sent there; once read it has been dispatched in its own process if and only if that is the coordinator's |
| `Routing.MeaningIsHonouredExactly` | include/sintra/detail/messaging/process_message_reader_impl.h:722-881 | once the readers have caught up, a typed message is dispatched by exactly the processes its receiver id is documented to mean, if and only if it is not an any_local event of a process other than the coordinator's |
| `Routing.LeafLocalEventIsLost` | include/sintra/detail/messaging/process_message_reader_impl.h:722-780 | a run in which a leaf sends an any_local event, everything has been read, and nobody dispatched it |
| `Routing.ReadRing` | include/sintra/detail/messaging/process_message_reader_impl.h:664-891 | the reader loop over a ring dispatches and relays exactly the subsequences the decision table names |
| `HandlerSlot.HandlerQuiescence` | include/sintra/detail/transceiver_impl.h:499-543 | after a deactivator returns nobody runs the handler at any later moment, except the caller's own frame when a handler deactivates itself |
| `HandlerSlot.ErasedExactlyOnce` | include/sintra/detail/transceiver_impl.h:499-527 | for any number of concurrent copies the registry entry is erased once, by the one claimer |
| `HandlerSlot.ReturnIsQuiet` | include/sintra/detail/messaging/process_message_reader_impl.h:160-188 | counting in and checking again leaves no running frame unseen by the waiting deactivator |
| `HandlerSlot.InactiveIsForever` | include/sintra/detail/messaging/process_message_reader_impl.h:243-269 | once inactive, a slot stays inactive and no frame starts |
| `NamedActivation.CancellationIsFinal` | include/sintra/detail/transceiver_impl.h:633-708 | for every race of the availability callback with cancellation, once the outer deactivator returned no handler of the subscription is active or can become active |
| `NamedActivation.EntryErasedOnce` | include/sintra/detail/transceiver_impl.h:633-708 | the shared list entry is erased once: by the outer deactivator exactly when it cancelled before installation, otherwise by the inner one |
| `Rpc.OneOutcome` | include/sintra/detail/transceiver_impl.h:1069-1150 | reply, remote exception, cancellation and abandonment race to one outcome that never changes again, late replies and deferrals included |
| `Rpc.WaitResultIsExact` | include/sintra/detail/transceiver_impl.h:1152-1248 | get_until and get(stop) give their own error exactly when their own abandon won; otherwise the outcome committed first |
| `Rpc.TableFollowsDeferrals` | include/sintra/detail/transceiver_impl.h:1471-1491 | in every run, through any number of deferrals to ids fresh or used before, a waiting call is found under the id its state records, and no other, if and only if no deferral of it has met an active id; after cleanup neither the table nor the outstanding set knows the call |
| `Rpc.CollidesExactly` | include/sintra/detail/transceiver_impl.h:1610-1631 | a deferral meets an active id, and throws half-way, exactly when it goes to the id of another call of the process that is not yet cleaned up |
| `Rpc.OneWaitPerNameIsSafe` | include/sintra/detail/transceiver_impl.h:1610-1631 | in every run of a process that never has two calls not yet cleaned up waiting for one name or barrier, no deferral throws and every waiting call is found under its recorded id |
| `Rpc.TwoWaitsForOneNameCollide` | include/sintra/detail/process/coordinator_impl.h:1053-1075 | a run in which two calls of one process are deferred to the one id the coordinator hands out per name, and the second is left waiting with no entry |
| `Rpc.CleanupRemovesItsOwnEntry` | include/sintra/detail/transceiver_impl.h:975-1009 | the last cleanup step removes the call's own table entry and no other call's; the entry is there exactly when no deferral of the call has met an active id |
| `Rpc.NoCallEscapesStop` | include/sintra/detail/transceiver_impl.h:1494-1507 | on a leaf, once the stop scan is over every registered call has an outcome and every later registration is refused |
| `Rpc.ReplyReachesWaiter` | include/sintra/detail/transceiver_impl.h:1449-1470 | a reply to a waiting call, looked up under the id its state records, is the outcome its waiter reads, unless a deferral of the call has met an active id; then the lookup finds nothing |
| `RpcTarget.NoUseAfterFree` | include/sintra/detail/transceiver_impl.h:152-208 | the active count is the number of live guards; a freed object has no guard, and a thread about to touch it is inside an explicit destroy() of its own, for no other reason |
| `RpcTarget.OnlyOverlapTouches` | include/sintra/detail/transceiver_impl.h:335-361 | a thread that touches a freed object was inside its explicit destroy() at every moment since the object was freed; if nobody was then, nobody is later |
| `RpcTarget.ShutdownReturnsQuiet` | include/sintra/detail/transceiver_impl.h:211-299 | ensure_rpc_shutdown returns only at zero, and from then on no guard exists or is ever given again |
| `RpcTarget.WaitsOnlyForOthers` | include/sintra/detail/transceiver_impl.h:211-299 | no thread waits there holding a guard; every wait is for a completed shutdown, a requester that can complete now, or a guard of a thread that does not wait there |
| `RpcTarget.SelfDestructionIsRefused` | include/sintra/detail/transceiver_impl.h:224-242 | the error is thrown exactly when the calling thread itself holds a guard, and then nothing changed |
| `RpcTarget.ClosedForGood` | include/sintra/detail/transceiver_impl.h:152-170 | admission once closed stays closed and guards only disappear |
| `NameCache.CacheCoherence` | include/sintra/detail/process/instance_name_cache.h:17-81 | in every run of publish, retire, notify, loss-then-clear and overlapping resolves each cached entry equals the registry's or is covered by an undelivered notice; a drained channel means a subset of the registry |
| `NameCache.ResolveIsFresh` | include/sintra/detail/process/instance_name_cache.h:18-45 | a resolve returns a coherent snapshot, or a registry value read while no invalidation came, or, having observed one, a registry value read after it |
| `NameCache.RegistryOpKeepsCoherent` | include/sintra/detail/process/coordinator_impl.h:1497-1584 | publication, retirement and the sweep of a process's names never leave a snapshot both stale and uncovered, although notices are emitted later |
| `NameCache.DeliverKeepsCoherent` | include/sintra/detail/process/managed_process_impl.h:3561-3597 | a handled notice removes every snapshot that only it covered |
| `NameCache.InstanceNameCache.Fill` | include/sintra/detail/process/instance_name_cache.h:32-40 | the answer is kept exactly when no invalidation came since the revision was read, never overwriting an entry |
| `NameCache.InstanceNameCache.InvalidateName` | include/sintra/detail/process/instance_name_cache.h:47-52 | the name is gone and the revision new |
| `NameCache.InstanceNameCache.InvalidateInstance` | include/sintra/detail/process/instance_name_cache.h:54-74 | the erase loop removes exactly the snapshots of the retired process, or the one snapshot of the retired instance |
| `NameCache.InstanceNameCache.Clear` | include/sintra/detail/process/instance_name_cache.h:76-81 | everything is gone and the revision new |
| `Frames.SizingIsExact` | include/sintra/detail/messaging/message.h:145-289 | the sizing pass succeeds exactly when the whole frame stays below the limit and returns exactly the bytes behind the fixed part |
| `Frames.PayloadsArePlacedApart` | include/sintra/detail/messaging/message_impl.h:48-80 | payloads are aligned, behind the fixed part, apart from each other and inside the frame |
| `Frames.PlaceCheckIsExact` | include/sintra/detail/messaging/message_impl.h:29-72 | all checks of the payload constructor together mean: the frame so far stays below the limit and the storage is aligned |
| `Frames.PlacementNeverFails` | include/sintra/detail/messaging/message_impl.h:29-72 | if sizing succeeded no payload constructor fails, and each puts its payload where the sizing pass assumed |
| `Frames.PlaceBuffer` | include/sintra/detail/messaging/message_impl.h:18-81 | copies the payload, stores length and self-relative offset, advances the frame length; on an error nothing is written |
| `Frames.WriteMessage` | include/sintra/detail/messaging/message.h:537-560 | fails exactly when sizing fails; otherwise the frame has the announced length and carries every argument, fixed fields are kept and nothing outside changes |
| `Frames.FrameIsReadBack` | include/sintra/detail/messaging/message.h:104-125 | every argument is read back from a frame that carries it |
| `Frames.CopyEncodes` | include/sintra/detail/messaging/message_impl.h:77-79 | a frame copied to any other address carries the same arguments |
| `Frames.CopyMessageFrame` | include/sintra/detail/messaging/message.h:640-666 | refuses exactly the impossible lengths, otherwise returns an equal frame in storage of its own |
| `Frames.OwnedCopyIsFaithful` | include/sintra/detail/messaging/message.h:640-666 | every written frame is accepted by the copy, and its arguments are read back from the copy |
| `FrameReader.NextFrameIsExact` | include/sintra/detail/messaging/message.h:1047-1085 | a frame is returned exactly when the range starts with a well-formed one, and it is that one |
| `FrameReader.EncodedIsWellFormed` | include/sintra/detail/messaging/message.h:537-560 | whatever the writer produced is well formed for the reader |
| `FrameReader.ReadingFindsAll` | include/sintra/detail/messaging/message.h:1047-1085 | reading concatenated frames until no more can be read finds each of them, in order, and leaves nothing |
| `FrameReader.MessageRingReader.CopyNextFrame` | include/sintra/detail/messaging/message.h:1047-1085 | errors in their order change nothing; success copies the frame, removes exactly it from the range and sets the sequence to what is unread |
| `FrameReader.MessageRingReader.FetchAll` | include/sintra/detail/messaging/message.h:949-1026 | over a range of written frames the reader returns exactly them, with the exact sequence after each |
| `FrameExchange.WriteAll` | include/sintra/detail/messaging/message.h:537-560 | messages written one after another all remain carried, each frame starting where the one before it ends |
| `FrameExchange.Exchange` | include/sintra/detail/messaging/message.h:949-1085 | whatever messages are written one after another, the reader fetches each once, in order, and every payload decoded from the reader's own copy of the frame is the original |
| `Semaphore.Conservation` | include/sintra/detail/ipc/semaphore.h:902-1002 | in every run the count is the initial value plus posted minus acquired and never above the maximum |
| `Semaphore.NoLostWakeup` | include/sintra/detail/ipc/semaphore.h:914-1002 | for every maximum, in every run: as long as no post of more than 0x7fffffff units has succeeded, while any waiter sleeps the count is at most pending wakes plus awake contenders, so a sleeper with nobody about means nothing to take |
| `Semaphore.NoLostWakeupExactly` | include/sintra/detail/ipc/semaphore.h:829-835 | for a given maximum and largest post size, no run strands a sleeper if and only if the post size, or else the maximum, fits the signed count of the native wake call |
| `Semaphore.StrandingIsRun` | include/sintra/detail/ipc/semaphore.h:977-1002 | every post size above 0x7fffffff that the maximum allows has a run with two sleepers in which one is left asleep with units to take, nobody awake and no wake pending, even if the kernel wakes one thread when asked for none |
| `CommandLine.ParseUndoesPrint` | include/sintra/detail/utility.h:664-710 | parsing the printed line returns the original vector if and only if the program name holds no double quote |
| `CommandLine.EscapedIsReadBack` | include/sintra/detail/utility.h:686-704 | whatever backslashes are held back and characters follow, the escaped argument is read as it was |
| `CommandLine.AppendEscaped` | include/sintra/detail/utility.h:690-704 | the character loop with its backslash counter computes the escaped form |
| `CommandLine.BuildCommandLine` | include/sintra/detail/utility.h:664-710 | the two loops compute the printed line, which parses back exactly as stated |
| `Shutdown.ShutdownHistories` | include/sintra/detail/runtime.h:702-832 | after every sequence of shutdown, leave and finalize calls admission is closed exactly while the phase is not idle; hook, hook-done rendezvous and drain announcement happen at most once per init cycle |
| `Shutdown.RetryOnlyFinalizes` | include/sintra/detail/runtime.h:883-905 | after shutdown returned false with the runtime alive, the next shutdown, whatever its options, only resumes finalization, and succeeds exactly when by then the custody and native-family guards pass |
| `Shutdown.ThrowTearsDownExactly` | include/sintra/detail/runtime.h:774-788 | a shutdown that throws leaves the runtime torn down and idle exactly when, at one of its finalization attempts, no custody is outstanding and the native family is inactive or empty |
| `Shutdown.SureTeardownExactly` | include/sintra/detail/runtime.h:1137-1194 | whatever children and family do during the call, a shutdown tears the runtime down if and only if beforehand no custody is outstanding and the native family was never activated; so always for a process that never had children |
| `Shutdown.HookThrowsWithChild` | include/sintra/detail/runtime.h:1153-1194 | a history that breaks the promise about exceptions: a coordinator with one child that does not retire, whose hook throws, stays alive with admission closed |
| `Shutdown.SuccessDidEachPartOnce` | include/sintra/detail/runtime.h:1082-1194 | a shutdown that succeeds announced the drain once, ran the hook exactly if the coordinator has one, and entered the rendezvous exactly if the group was not trivial |
| `Shutdown.OnlyTheOwnerContinues` | include/sintra/detail/runtime.h:865-912 | during a teardown exactly the entry point that owns the phase is admitted and every other call throws without effect |
| `Shutdown.Runtime.FinalizeImpl` | include/sintra/detail/runtime.h:702-832 | store by store: admission closes before the phase moves, the drain is announced once and kept across retries, the custody and native-family guards decide, completion resets everything |
| `Shutdown.Runtime.Finalize` | include/sintra/detail/runtime.h:929-948 | result and state are the summary's; every store keeps a non-idle phase under closed admission |
| `Shutdown.Runtime.Leave` | include/sintra/detail/runtime.h:1196-1222 | result and state are the summary's, the refusal on a coordinator with peers included |
| `Shutdown.Runtime.Shutdown` | include/sintra/detail/runtime.h:1082-1194 | result and state are the summary's on the resumed, single-process, trivial-group and collective paths, with the hook or a barrier throwing |

## Left out

- Ring internals (mapping, octiles, eviction accounting): a ring is an append-only sequence with reader positions.
- How custodies retire, recovery, native-family observation and the coordinator's barriers: custodies and family are sets the surroundings change, and barriers return or throw.
- Memory ordering weaker than sequential consistency, and wrap-around of 64-bit counters.
- Wall-clock time, backoff lengths and watchdog timeouts, except the spinlock's effort arithmetic.
- fork without exec, and thread death with TID reuse inside one process, for the two locks.
- The mutex's cleanup variants that hand a token to another owner (`try_lock_cleanup`, `unlock_owned`).
- Routing in service mode, complement ids and replies over the reply ring; they would need the reader-state protocol.
- The delivery fence and its freedom from wait cycles: where a thread parks is decided outside the modelled files.
- The destructor path without readers, which does not wait for RPC guards, and guards handed to another thread.
- Delayed publication notices are emitted in any order and number; which process is still initialising is not modelled.
- Element types of frame payloads: a payload is its bytes and alignment; the running length lives in a local until it is stored.
- UTF-8 conversion before printing a command line, and environment merging.
- The concurrent protocols are modelled on values, not as classes: update in place by many threads has no Dafny counterpart here. The mutex, spinlock, name cache, frame reader and runtime also have class forms.
- The binary post used by ring wakeups (`post_binary`): only `post` and the waits of the semaphore are modelled.
- Logging, console, Qt examples, directory handling and process spawning: plumbing or operating-system I/O.
