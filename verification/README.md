# Locks and their shield, verified

The repository holds seven spin locks and a *lock shield*, a thin layer that counts per thread which locks it
holds, so that acquiring a held lock again, or releasing a lock not held, never reaches the lock underneath.
This project models both and proves what they are for.

**The locks.** Each lock is a state machine: the shared memory, and for every thread its locals and a program
counter with one constructor per atomic load, store, exchange or compare-and-swap. `Next(s, c)` is one atomic
step of one thread; a spin loop is a step that may leave the state as it was. A schedule is any sequence of
choices, so a statement about all schedules covers every interleaving of any number of threads and any results
of the NUMA-node query, the pseudo-random fairness decision and the allocator (`Runs.dfy`). History variables
number the exchanges on `tail`. `FifoLock.dfy` is the abstract first-come-first-served lock; MCS, CLH, K42,
Hemlock, the ticket lock and the array lock are proved to refine it step by step, and so over whole runs.
CNA is not FIFO; its own order is proved instead, also in terms of the nodes that threads run on
(`CnaNodes.dfy`, `CnaNodeOrder.dfy`), that no linked local waiter is passed by (`CnaLocal.dfy`), and with the generator that decides on its fairness
(`CnaRandom.dfy`) a bound on how many handovers pass a waiter over (`CnaBound.dfy`). For each lock a class holds the same shared memory as fields,
and its step methods, written like the code, are proved to do exactly `Next`.

**The hash table.** `UtHash.dfy` works on heap entries that are linked, as in uthash, into bucket chains and an
insertion-order list. The invariant is what the code's own checker looks for and more; that checker is modelled
too and finds nothing.

**The shield.** `ShieldSpec.dfy` says what it promises in terms of a map from locks to counts, `ShieldDepth.dfy`
in terms of the calls alone. The array version
(`ShieldArray.dfy`) and the hybrid version (`ShieldHash.dfy`: four slots, then the hash table, with entries from a
free list) are classes proved against that map. `ShieldLock.dfy` puts the shield over a lock, with any number of
threads, and says what the lock must provide; `ShieldLocks.dfy` shows that all seven locks do.

What a reader may find surprising, each stated with its exact condition:

* A reentrant and a non-reentrant release mixed on one lock free it while it is still held, and free it twice
  (`MixedFlagsFreeTwice`). The lock underneath is held exactly while it is counted if and only if no non-reentrant
  release meets a count above one (`HeldWhileCountedIffCareful`).
* LS_RELEASE on a non-reentrant lock calls `unlock_fn` before it erases the count, so two threads can have
  positive counts at the same time; this is so exactly for non-reentrant locks (`OneCountedIffReentrant`). Mutual
  exclusion is not at risk (`OneOwner`).
* The array table silently drops a fifth lock. Until the thread acquires it again, every release of it is refused
  (`TablesAgreeIffFits`, `FifthLockIsStuck`).
* The array lock is a fair lock for 256 outstanding tickets and 2^31 + 1 acquisitions. It excludes up to 256 threads
  and no more (`ExclusiveIffEnoughSlots`); with one acquisition more, the slot number becomes negative
  (`SlotInRange`, `Abql.FairWithinLimit`). The ticket lock excludes up to 2^32 threads (`ExclusiveIffFewThreads`).

Two comments in the sources say something else than the code, which the model follows: src/k42.h:60 speaks of
moving the tail to `&lock_head.next`, the code uses `&lock_head`; inc/uthash.h:1076-1078 says that expansion is
triggered when a chain exceeds the threshold, the code expands when it reaches it.

`dafny verify dfyconfig.toml` checks everything.

## Model

| member | source | states |
|---|---|---|
| FifoLock.FirstComeFirstServed | src/mcs.h:18-37 | in every legal trace of the abstract lock, threads enter in exactly the order in which they queued, leave in the order of entry, and at most one entry is not yet left |
| FifoLock.RunLogs | src/mcs.h:18-37 | the log of arrivals, the count of departures and the held flag of the abstract lock are what the trace says |
| Runs.RunRefinesWhile | src/mcs.h:18-37 | a protocol whose every step is an allowed abstract step, from every invariant state that meets a condition, behaves like the abstract lock over all schedules that keep to the condition |
| Runs.RunRefines | src/mcs.h:18-37 | without a condition, it does so over all schedules |
| Runs.ProductiveRunsEnd | src/mcs.h:18-37 | if every step that is no failed spin and starts no call lowers a measure, only that many such steps are left |
| Mcs.NextKeepsInv | src/mcs.h:18-37 | every atomic step of every thread keeps the queue invariant, also while links are missing between exchange and store |
| Mcs.NextRefines | src/mcs.h:18-37 | every atomic step is an enqueue, an entry, an exit or a stutter of the abstract FIFO lock |
| Mcs.RunIsFair | src/mcs.h:18-37 | over every schedule of any number of threads the lock behaves as the abstract FIFO lock |
| Mcs.MutualExclusion | src/mcs.h:18-37 | at most one thread holds the lock in any reachable state |
| Mcs.LinksNameSuccessors | src/mcs.h:19-23 | `tail` is null exactly when no thread is queued, and a non-null `next` names the next arrival |
| Mcs.MeasureFalls | src/mcs.h:18-37 | every step inside a call that is not a failed spin brings the lock closer to rest |
| Mcs.NoDeadlock | src/mcs.h:23-36 | while any call is in progress, some thread in a call can take a step that is not a failed spin |
| Mcs.CallsReturn | src/mcs.h:18-37 | after any run, with no new calls, only boundedly many productive steps are left, and when none is left every call has returned |
| Mcs.McsLock.constructor | src/mcs.h:6-15 | a new lock is free and every thread's node is in its initial state |
| Mcs.McsLock.AcquireStep | src/mcs.h:18-26 | each atomic access of `Acquire` on the object's fields is the protocol's step and keeps the invariant |
| Mcs.McsLock.ReleaseStep | src/mcs.h:28-37 | the same for `Release` |
| CnaSteps.NextKeepsInv | src/cna.h:53-161 | every atomic step keeps the whole invariant: both queues chained and sorted by arrival, the secondary one without the holder's socket, the traversal and splicing locals, the grant log |
| CnaSteps.TraverseKeepsInv | src/cna.h:53-66 | walking along the main queue, and giving up at its end, keeps the invariant while other threads append |
| CnaSteps.SpliceOldKeepsInv | src/cna.h:69-71 | linking the skipped threads behind the last thread of the secondary queue loses nobody |
| CnaSteps.CutKeepsInv | src/cna.h:74 | cutting the main queue before the local waiter leaves two proper queues |
| CnaSteps.JoinKeepsInv | src/cna.h:154-157 | putting the secondary queue in front of the main queue keeps every thread, in order of arrival |
| CnaSteps.SwapKeepsInv | src/cna.h:93-97 | an exchange on `tail` at any moment of the holder's release appends to the right queue |
| CnaSteps.GrantKeepsInv | src/cna.h:139-159 | each of the ways to hand the lock over keeps the invariant |
| CnaRuns.MutualExclusion | src/cna.h:87-161 | for any number of threads, sockets and fairness decisions, at most one thread holds the lock |
| CnaRuns.QueuesHoldWaiters | src/cna.h:66-80 | main and secondary queue are disjoint and hold exactly the waiting threads; the main queue is linked from the holder to `tail`; the holder's `spin` points to the secondary queue's head, whose `secTail` is its last node, all linked, but for the steps that change this record |
| CnaRuns.QueuesAreOrdered | src/cna.h:53-82 | secondary queue followed by main queue is sorted by the order of exchanges, and at every moment the secondary queue holds no thread of the holder's socket, or of the socket of the successor once that is chosen |
| CnaRuns.OldestServed | src/cna.h:149-160 | every handover goes to the oldest waiter overall or to the oldest waiter of its socket, which is the holder's if the holder's is recorded |
| CnaSearch.SoughtStays | src/cna.h:53-82 | no step of any thread changes the socket that a running `find_successor` looks for |
| CnaSearch.FoundOnMySocket | src/cna.h:55-76 | whoever gets the lock from a `find_successor` that has not given up is the oldest waiter of the socket it started with, recorded or asked for, whatever all threads did in between |
| CnaLocal.HeadingStep | src/cna.h:53-76 | while a linked waiter of the socket looked for is ahead, no step of any thread leads the holder astray: it stays on its way, or hands over to the oldest waiter of that socket |
| CnaLocal.LinkedLocalServed | src/cna.h:53-76 | if some main-queue waiter of the socket that `find_successor` starts with is linked, and all before it are, then over every schedule the lock goes to the oldest waiter of that socket |
| CnaLocal.KeptLocalServed | src/cna.h:122-149 | the same from the critical section on, if `keep_lock_local` keeps the lock |
| CnaNodes.NextKeepsNodes | src/cna.h:88-103 | if threads stay on their nodes, every step keeps recorded sockets equal to the nodes of their threads |
| CnaNodes.NextSeeksNode | src/cna.h:53-56 | and a running `find_successor` looks for the holder's node, recorded or not |
| CnaNodes.NextInTurn | src/cna.h:88-98 | a thread that finds the lock free is served after all with smaller tickets and before all with larger ones |
| CnaNodeOrder.SocketsAreNodes | src/cna.h:88-103 | over any run, a waiter's recorded socket is the node it runs on, and a ticket's that of the thread that drew it |
| CnaNodeOrder.NoOvertakingOnNode | src/cna.h:88-160 | over any run no thread is overtaken by a later arrival from its own node |
| CnaNodeOrder.SecondaryOffNode | src/cna.h:53-82 | in every reachable state, no thread of the holder's node is in the secondary queue |
| CnaNodeOrder.OldestServedByNode | src/cna.h:149-160 | every handover goes to the oldest waiter of its node, and to the oldest of all unless that node is the holder's |
| CnaNodeOrder.LocalServedByNode | src/cna.h:122-149 | if a waiter on the holder's node is linked, with all before it in the main queue, and `keep_lock_local` keeps the lock, the next thread to get it is the oldest waiter on that node, whatever all threads do in between |
| CnaRuns.NoOvertakingOnSocket | src/cna.h:93-160 | over any run no thread is overtaken by a later arrival that recorded the same socket |
| CnaFairness.OrderStep | src/cna.h:93-160 | while anybody waits, a step keeps the waiting order or serves the one thread whose turn it is, the front unless a local successor was chosen |
| CnaFairness.InOrderServesFront | src/cna.h:152-160 | when `keep_lock_local` lets the lock go, the next handover serves the thread that has waited longest |
| CnaFairness.MovesUp | src/cna.h:149-160 | over any run a waiter never falls back and moves up with every service of the front, until it is served |
| CnaFairness.NoStarvation | src/cna.h:46-51 | a thread with `i` waiters before it has got the lock once `keep_lock_local` has let the lock go more than `i + 1` times |
| CnaRandom.Stride | src/cna.h:43 | `2^j` steps of the generator add `2^j` modulo `2^(j + 1)` to whatever number it is at |
| CnaRandom.FirstSeeds | src/cna.h:41-45 | the first three numbers of the generator from seed 1 |
| CnaRandom.KeepIsNonzero | src/cna.h:40-51 | `keep_lock_local` returns false exactly when the low 16 bits of the generator without wrap-around are zero |
| CnaRandom.OncePerPeriod | src/cna.h:40-51 | from whatever seed, `keep_lock_local` lets the lock go exactly once in any 65536 calls of one thread in a row |
| CnaRandom.LetGoesOften | src/cna.h:40-51 | so it lets go once in 65536 calls, up to one call of that number |
| CnaBound.DrawsAreLetGoes | src/cna.h:42-51 | over any run that decides as the threads' generators do, the lock is let go as often as their calls say |
| CnaBound.ServiceIsDecided | src/cna.h:122-160 | while anybody waits, a handover has been decided on by `keep_lock_local`, or serves the one who has waited longest |
| CnaBound.ServedInTime | src/cna.h:40-161 | with `n` threads deciding by their own generators, a thread with `i` waiters before it has got the lock after at most 65536 (i + 1) + 65535 n + i + 1 handovers |
| CnaProgress.MeasureFalls | src/cna.h:66-80 | every step of a call that is not a failed spin lowers a measure, the traversal of the main queue included |
| CnaProgress.NoDeadlock | src/cna.h:106-160 | while any call is in progress, some thread in a call can take a step that is not a failed spin |
| CnaProgress.CallsReturn | src/cna.h:87-161 | after any run, with no new calls, only boundedly many productive steps are left, and when none is left every call has returned |
| CnaObject.PointersAreNodes | src/cna.h:53-160 | no step follows a null or wild pointer, and `spin` is read as a pointer only when it is one |
| CnaObject.CnaLock.constructor | src/cna.h:20-28 | a new lock is free and every node is in its initial state |
| CnaObject.CnaLock.EnqueueStep | src/cna.h:88-93 | the accesses of `Acquire` up to the exchange on the object's fields are the protocol's steps |
| CnaObject.CnaLock.AwaitStep | src/cna.h:96-109 | the same for the rest of `Acquire` |
| CnaObject.CnaLock.ReleaseStep | src/cna.h:122-152 | the same for `Release` up to the choice of a successor |
| CnaObject.CnaLock.TraverseStep | src/cna.h:54-81 | the same for the traversal in `find_successor` |
| CnaObject.CnaLock.SpliceStep | src/cna.h:69-76 | the same for splitting and splicing in `find_successor` |
| CnaObject.CnaLock.HandOverStep | src/cna.h:134-160 | the same for handing the lock over |
| CnaObject.CnaLock.Step | src/cna.h:53-161 | any step of any thread on the object's fields is the protocol's step and keeps the invariant |
| K42.NextIsSafe | src/k42.h:34-99 | no step reads, writes or deletes a node that is not live |
| K42.NextKeepsInv | src/k42.h:34-99 | every atomic step keeps the queue invariant, with nodes allocated, reused and deleted |
| K42.NextRefines | src/k42.h:34-99 | every atomic step is an enqueue, an entry, an exit or a stutter of the abstract FIFO lock |
| K42.RunIsFair | src/k42.h:40-98 | over every schedule, for any addresses the allocator returns, the lock behaves as the abstract FIFO lock |
| K42.MutualExclusion | src/k42.h:34-99 | at most one thread holds the lock |
| K42.NodesOutliveUse | src/k42.h:36-76 | over any run no access to a deleted node and no second deletion happens, every live node is that of one thread inside `Acquire`, and no pending store to a predecessor targets a deleted node |
| K42.ClearingLosesNoLink | src/k42.h:58 | when the new holder clears the lock's `next`, no waiter has linked or will link to it, so nothing is overwritten |
| K42.NoDeadlock | src/k42.h:48-95 | while any call is in progress, some thread in a call can take a step that is not a failed spin |
| K42.MeasureFalls | src/k42.h:34-99 | every step of a call that is not a failed spin lowers a measure |
| K42.CallsReturn | src/k42.h:34-99 | after any run, with no new calls, only boundedly many productive steps are left, and when none is left every call has returned |
| K42.K42Lock.constructor | src/k42.h:32 | a new lock is free and no queue node is allocated |
| K42.K42Lock.AcquireStep | src/k42.h:35-51 | each access of `Acquire` up to getting the lock, on the object's fields, is the protocol's step |
| K42.K42Lock.ConvertStep | src/k42.h:55-76 | the same for replacing the thread's node by the lock's own |
| K42.K42Lock.ReleaseStep | src/k42.h:80-98 | the same for `Release` |
| K42.K42Lock.Step | src/k42.h:34-99 | any step of any thread on the object's fields is the protocol's step and keeps the invariant |
| Hem.NextIsSafe | src/hem.h:29-61 | the assertions of the code never fail |
| Hem.NextKeepsInv | src/hem.h:23-72 | every atomic step keeps the invariant, with any number of locks held at once by each thread |
| Hem.NextRefines | src/hem.h:23-72 | for each lock, every atomic step is an allowed step of that lock's abstract FIFO lock |
| Hem.RunIsFair | src/hem.h:23-72 | over every schedule of threads nesting locks, each lock behaves as the abstract FIFO lock and no assertion fails |
| Hem.MutualExclusion | src/hem.h:23-72 | each lock has at most one holder |
| Hem.StepIsSafe | src/hem.h:29-61 | what each assertion checks holds where it stands: the own `Grant` is null before an acquisition and a release, the tail is not null once the lock is held, nor what the release finds there |
| Hem.AcquireBegins | src/hem.h:23-30 | a thread may call `Acquire` of any lock that it does not hold, whatever others it holds, and then exchanges itself onto that lock's tail |
| Hem.ReleaseBegins | src/hem.h:47-50 | a thread may call `Release` of any lock that it holds |
| Hem.CallsTakeEffect | src/hem.h:23-72 | `Acquire` returns with its lock held, `Release` with its lock given up, and no other lock of any thread changes |
| Hem.GrantHasOneReader | src/hem.h:63-70 | a thread's `Grant` is set only while it is releasing the lock named there, only its one successor on that lock may clear it, and that one's next step is not a failed spin |
| Hem.GrantSoonCleared | src/hem.h:63-70 | whatever all threads do, the successor takes at most two steps while the `Grant` stays set, so its third at the latest clears it |
| Hem.OnlySuccessorClears | src/hem.h:37-41 | whatever step clears a `Grant` is a step of the releasing thread's successor |
| Hem.MeasureFalls | src/hem.h:23-72 | every step of a call that is not a failed spin brings the locks closer to rest |
| Hem.RestWaitsForHolder | src/hem.h:37-70 | when no call can go on, whoever is in a call waits in `Acquire` for a lock that another thread holds |
| Hem.OrderedWaitsEnd | src/hem.h:37-70 | if no thread waits for a lock smaller than one it holds, then whenever no call can go on but somebody waits, some thread outside any call holds a lock: no deadlock |
| Hem.CallsEndOrWait | src/hem.h:23-72 | after any run, with no new calls, only boundedly many productive steps are left, and then no thread is in `Release` and those in `Acquire` wait for held locks |
| Hem.HemLocks.constructor | src/hem.h:10-21 | all locks are free and all `Grant` words null |
| Hem.HemLocks.Call | src/hem.h:23 | a thread may call `Acquire` of any lock that it does not hold |
| Hem.HemLocks.CallRelease | src/hem.h:47 | a thread may call `Release` of any lock that it holds, in any order |
| Hem.HemLocks.AcquireStep | src/hem.h:29-44 | each access of `Acquire` on the object's fields is the protocol's step |
| Hem.HemLocks.ReleaseStep | src/hem.h:48-71 | the same for `Release` |
| Hem.HemLocks.Step | src/hem.h:23-72 | any step of any thread on the object's fields is the protocol's step and keeps the invariant |
| Clh.NodesChangePlaces | src/clh.h:18-27 | a step leaves all nodes with their owners, but for the exchange, where the thread's node and the lock's change places |
| Clh.NodesConserved | src/clh.h:18-27 | no step, on whichever lock, loses or duplicates a node |
| Clh.NodesStayPartition | src/clh.h:10-27 | over any run on any number of locks, each of the threads + locks nodes has exactly one owner |
| Clh.NextKeepsInv | src/clh.h:10-27 | every atomic step keeps the invariant of all locks, which share the thread-local pointers |
| Clh.NextRefines | src/clh.h:18-27 | for each lock, every atomic step is an allowed step of its abstract FIFO lock |
| Clh.RunIsFair | src/clh.h:10-27 | over every schedule of threads using the locks one after the other, each lock behaves as the abstract FIFO lock |
| Clh.MutualExclusion | src/clh.h:18-27 | each lock has at most one holder |
| Clh.AcquireBegins | src/clh.h:18-20 | an `Acquire` of a lock puts the thread's node at the tail of that lock and no other |
| Clh.MeasureFalls | src/clh.h:18-27 | every step of a call that is not a failed spin brings the locks closer to rest |
| Clh.NoDeadlock | src/clh.h:18-27 | while any call is in progress, some thread in a call can take a step that is not a failed spin |
| Clh.CallsReturn | src/clh.h:18-27 | after any run, with no new calls, only boundedly many productive steps are left, and when none is left every call has returned |
| Clh.ClhLocks.constructor | src/clh.h:6-15 | each thread and each lock has a node of its own, all unlocked |
| Clh.ClhLocks.AcquireStep | src/clh.h:18-22 | each access of `Acquire` on the object's fields is the protocol's step and keeps the invariant |
| Clh.ClhLocks.ReleaseStep | src/clh.h:24-27 | the same for `Release`, the swap of the two node pointers included |
| Int32.WrapEqual | src/ticket.h:8-9 | two 32-bit counters are equal exactly when their true values differ by a multiple of 2^32 |
| Int32.WrapSuccessor | src/ticket.h:13-20 | incrementing the wrapped counter is wrapping the incremented one |
| Int32.WrapsAround | src/ticket.h:8-9 | the largest 32-bit `int` is followed by the smallest |
| Ticket.OutstandingBounded | src/ticket.h:12-21 | at most as many tickets are outstanding as there are threads |
| Ticket.OnlyOldestMatches | src/ticket.h:13-14 | while at most 2^32 tickets are outstanding, `now_serving` equals the oldest and no other |
| Ticket.DistinctIffFew | src/ticket.h:13-14 | wrapped outstanding tickets are all different if and only if at most 2^32 are outstanding |
| Ticket.NextKeepsInv | src/ticket.h:12-21 | every atomic step keeps the invariant across wrap-around while at most 2^32 tickets are outstanding |
| Ticket.NextRefines | src/ticket.h:12-21 | every atomic step is an allowed step of the abstract FIFO lock |
| Ticket.FairWithinLimit | src/ticket.h:12-21 | over runs of any length and any number of threads, the lock behaves as the abstract FIFO lock while at most 2^32 tickets are outstanding |
| Ticket.FewThreads | src/ticket.h:12-21 | with up to 2^32 threads that is so in every run |
| Ticket.RunIsFair | src/ticket.h:12-21 | so over every schedule of up to 2^32 threads, however often the counters wrap, the lock behaves as the abstract FIFO lock |
| Ticket.MutualExclusion | src/ticket.h:12-21 | at most one thread holds the lock while at most 2^32 tickets are outstanding |
| Ticket.OneThreadTooMany | src/ticket.h:8-14 | with more than 2^32 threads some schedule has two threads in the critical section |
| Ticket.ExclusiveIffFewThreads | src/ticket.h:8-14 | over all schedules, mutual exclusion holds if and only if there are at most 2^32 threads |
| Ticket.MeasureFalls | src/ticket.h:12-21 | every step of a call that is not a failed spin brings the lock closer to rest |
| Ticket.NoDeadlock | src/ticket.h:12-21 | while any call is in progress, some thread in a call can take a step that is not a failed spin |
| Ticket.CallsReturn | src/ticket.h:12-21 | with up to 2^32 threads, after any run, with no new calls, only boundedly many productive steps are left, and when none is left every call has returned |
| Ticket.TicketLock.constructor | src/ticket.h:8-9 | both counters start at 0 |
| Ticket.TicketLock.AcquireStep | src/ticket.h:12-17 | each access of `Acquire` on the object's fields is the protocol's step and keeps the invariant |
| Ticket.TicketLock.ReleaseStep | src/ticket.h:19-21 | the same for `Release` |
| Abql.SlotInRange | src/abql.h:26 | for the first 2^32 tickets, the slot computed for the k-th lies in the array exactly when k is at most 2^31 or a multiple of 256 |
| Abql.OutstandingBounded | src/abql.h:25-37 | at most as many tickets are outstanding as there are threads (pigeonhole) |
| Abql.OnlyFrontIsSet | src/abql.h:26-36 | while at most 256 tickets are outstanding, a queued thread's slot is in the array and its flag is set only for the oldest |
| Abql.DistinctIffFew | src/abql.h:26-36 | outstanding tickets have distinct slots if and only if at most 256 are outstanding |
| Abql.NextKeepsInv | src/abql.h:25-37 | every atomic step keeps the invariant while at most 256 tickets are outstanding, until the counter runs over |
| Abql.NextRefines | src/abql.h:25-37 | every atomic step is an allowed step of the abstract FIFO lock |
| Abql.FairWithinLimit | src/abql.h:25-37 | with any number of threads the lock behaves as the abstract FIFO lock while at most 256 tickets are outstanding, and an access outside the array happens exactly after 2^31 + 1 acquisitions |
| Abql.FewThreads | src/abql.h:25-37 | with up to 256 threads that is so in every run |
| Abql.RunIsFair | src/abql.h:25-37 | so with up to 256 threads, over every schedule |
| Abql.MutualExclusion | src/abql.h:25-37 | at most one thread holds the lock while at most 256 tickets are outstanding |
| Abql.AtMostOneFlag | src/abql.h:34-36 | at most one flag is set in any state reached with at most 256 tickets outstanding |
| Abql.MeasureFalls | src/abql.h:25-37 | every step of a call that is not a failed spin brings the lock closer to rest |
| Abql.NoDeadlock | src/abql.h:25-37 | while any call is in progress, some thread in a call can take a step that is not a failed spin |
| Abql.CallsReturn | src/abql.h:25-37 | after any run, with no new calls, only boundedly many productive steps are left, and when none is left every call has returned, as long as the counter has not run over |
| Abql.OneThreadTooMany | src/abql.h:6 | with more than 256 threads some schedule has two threads in the critical section |
| Abql.ExclusiveIffEnoughSlots | src/abql.h:6 | over all schedules without such an access, mutual exclusion holds if and only if there are at most 256 threads |
| Abql.AbqlLock.constructor | src/abql.h:17-23 | only the first flag is set and the counter is 0 |
| Abql.AbqlLock.AcquireStep | src/abql.h:25-32 | each access of `Acquire` on the array is the protocol's step and keeps the invariant |
| Abql.AbqlLock.ReleaseStep | src/abql.h:34-37 | the same for `Release` |
| Bits.MaskIsMod | inc/uthash.h:433-436 | masking with a power of two less one is the remainder |
| Bits.ShiftIsDiv | inc/uthash.h:850 | shifting right is division by a power of two |
| Bits.XorCancels | inc/shielding_hash.h:24 | exclusive or with the same number twice gives the other one back |
| UtHash.HashPtrDistinct | inc/shielding_hash.h:21-25 | two locks within 32 bits of address space never have the same hash value |
| UtHash.ToBkt | inc/uthash.h:433-436 | the bucket of a hash value is its remainder by the number of buckets, a power of two |
| UtHash.ChainDistinct | inc/uthash.h:530-538 | a chain whose back links are right visits no entry twice |
| UtHash.LinkFront | inc/uthash.h:774-779 | an entry becomes the first of a doubly linked chain |
| UtHash.PushFront | inc/uthash.h:772-779 | the entry joins one bucket, whose count grows, and every other bucket keeps its chain |
| UtHash.UnlinkChain | inc/uthash.h:796-804 | an entry leaves its chain, the others stay linked in order |
| UtHash.RemoveFrom | inc/uthash.h:792-805 | one bucket loses exactly the entry, with head and count right; every other bucket keeps its chain |
| UtHash.CountEntry | inc/uthash.h:859-864 | the statistics kept for one moved entry: a nonideal item counted, the multiplier raised to exactly the one that the longer chain must have |
| UtHash.MultBoundsCount | inc/uthash.h:859-863 | the multiplier of a chain is 0 exactly up to the ideal length, and else bounds the chain from both sides by multiples of that length |
| UtHash.MoveEntry | inc/uthash.h:857-870 | moving one entry keeps chains, placement, nonideal items and multipliers of the new buckets right |
| UtHash.MoveChain | inc/uthash.h:854-872 | the inner loop moves exactly the entries of one old chain, although it overwrites the links it walks along |
| UtHash.Rehash | inc/uthash.h:853-873 | the loops end, keep exactly the same entries, each in the bucket that is the remainder of its hash value, and give every bucket exactly the multiplier that its chain length and the ideal length determine |
| UtHash.CeilDivIsQuotient | inc/uthash.h:824-833 | the ideal chain length is the quotient rounded up |
| UtHash.IdealChain | inc/uthash.h:849-851 | shift and mask compute it |
| UtHash.Expand | inc/uthash.h:836-886 | doubling keeps the items, each in the bucket that is the remainder of its hash value by the new size, sets the ideal length to ceil(items / new buckets), nonideal items to the sum of the excesses, every multiplier to the one its chain length determines, and counts ineffective expansions until it stops expanding |
| UtHash.MakeTable | inc/uthash.h:215-245 | a new table has 32 buckets, all empty with multiplier 0, the first item as tail, all statistics 0, and may expand |
| UtHash.AddToBkt | inc/uthash.h:770-789 | the entry joins its bucket, and the table doubles exactly when the bucket then has ten entries, or ten times its multiplier plus one, and expansion is allowed |
| UtHash.AppendList | inc/uthash.h:281-287 | the entry becomes the last of the insertion-order list |
| UtHash.UnlinkList | inc/uthash.h:467-474 | the entry leaves the insertion-order list, the others stay linked in order |
| UtHash.Insert | inc/uthash.h:399-418 | adding a fresh key extends list, chains and the map by exactly this entry, in a new table or an existing one |
| UtHash.Remove | inc/uthash.h:453-480 | deleting removes exactly this entry from list, chains and the map; the last one takes the table along |
| UtHash.ListAndChainsAgree | inc/uthash.h:519-566 | list and chains hold the same entries, each in exactly the bucket that is the remainder of its key's hash value by the number of buckets, and every key leads to one entry |
| UtHash.Table.constructor | src/shielding_hash.cpp:9 | an empty table represents the empty map |
| UtHash.Table.Find | inc/uthash.h:748-767 | find returns exactly the entry that the map holds, or null |
| UtHash.Table.FsckBucket | inc/uthash.h:527-544 | the walk over one bucket finds all back links right and as many entries as the bucket counts |
| UtHash.Table.Fsck | inc/uthash.h:519-566 | the code's own checker never finds anything wrong |
| UtHash.Table.Add | inc/uthash.h:506-507 | adding keeps all of this and adds one key to the map |
| UtHash.Table.Delete | inc/uthash.h:510-511 | deleting keeps all of this and removes one key from the map |
| FreeList.FreeDistinct | src/shielding_hash.cpp:14-58 | the free list is acyclic |
| FreeList.Pool.constructor | src/shielding_hash.cpp:10-12 | the list starts uninitialized |
| FreeList.Pool.Init | src/shielding_hash.cpp:14-26 | the first call puts the whole pool into the list in order, any later call changes nothing |
| FreeList.Pool.Pop | src/shielding_hash.cpp:28-46 | the first free entry leaves the list; only when there is none a new one, marked as such, comes from the heap |
| FreeList.Pool.Push | src/shielding_hash.cpp:48-58 | a pool entry becomes the first free one, a heap entry never enters the list |
| LockSlots.FindSlot | src/shielding_hash.cpp:62-67 | the search finds the lock's slot exactly if the lock is held |
| LockSlots.DeleteHolds | src/shielding_hash.cpp:120-121 | deleting by moving the last slot removes one lock and keeps every other count |
| LockSlots.HoldsUnique | src/shielding_hash.cpp:7-8 | the slots determine the counts |
| ShieldSpec.CountsBalance | inc/shielding_hash.h:59-97 | for every sequence of operations, a lock's count is its accepted acquisitions less its accepted releases |
| ShieldSpec.StatusAnswers | inc/shielding_hash.h:59-97 | the status of an operation is determined by how often its lock is held: the first acquisition is made, inner reentrant ones are skipped without limit, others refused; inner reentrant releases are skipped, unbalanced ones refused |
| ShieldDepth.CountIsDepth | inc/shielding_hash.h:59-97 | for every sequence of operations, a lock's count is its depth as told from the operations on it alone |
| ShieldDepth.StatusIsAnswer | inc/shielding_hash.h:59-97 | every status of a sequence is the one for the depth at which its operation is made |
| ShieldDepth.CallsByDepth | inc/shielding_hash.h:59-97 | `lock_fn` is called exactly for acquisitions at depth 0, `unlock_fn` for releases at depth 1 and for non-reentrant ones above |
| ShieldDepth.ReentrantDepth | inc/shielding_hash.h:68-71 | a lock always used as reentrant is counted as often as it was acquired more than released |
| ShieldDepth.ReentrantStatus | inc/shielding_hash.h:68-93 | no acquisition of it is ever refused; the statuses follow from that surplus |
| ShieldDepth.PlainDepth | inc/shielding_hash.h:60-97 | a lock never used as reentrant is counted once, exactly from an acquisition to the next release |
| ShieldDepth.PlainStatus | inc/shielding_hash.h:60-97 | a second acquisition and a second release of it are refused, all others made |
| ShieldSpec.CarefulIsBalanced | inc/shielding_hash.h:59-97 | without premature releases the calls to each lock underneath strictly alternate, the last one locking it exactly if it is counted |
| ShieldSpec.OneFlagIsCareful | inc/shielding_hash.h:59-97 | no release is premature when each lock is always used with one reentrant flag |
| ShieldSpec.HeldWhileCountedIffCareful | inc/shielding_hash.h:86-96 | the lock underneath is held exactly while its count is positive, after every operation, if and only if no release is premature |
| ShieldSpec.MixedFlagsFreeTwice | inc/shielding_hash.h:94-96 | mixed flags make the shield free a lock that is still held, and free it again |
| ShieldArray.FittingRunsAgree | src/shielding_array.cpp:20-33 | while at most four locks are held, counts and statuses are those of the map, and so of the hybrid table |
| ShieldArray.TablesAgreeIffFits | src/shielding_array.cpp:25-29 | the array table agrees with the map throughout if and only if no operation acquires a fifth lock |
| ShieldArray.FifthLockIsStuck | src/shielding_array.cpp:25-29 | a fifth lock is acquired but not recorded, and whatever follows, until it is acquired again every release of it is refused as unbalanced |
| ShieldArray.FourStayRecorded | src/shielding_array.cpp:25-29 | the four recorded locks are not affected by a fifth |
| ShieldArray.FourLocksFit | src/shielding_array.cpp:3-4 | a thread that uses only four locks never gets there |
| ShieldArray.FiveLocksOverflow | src/shielding_array.cpp:25-29 | five acquisitions of different locks lead there |
| ShieldArray.ArrayShield.constructor | src/shielding_array.cpp:3-4 | no lock is held at first |
| ShieldArray.ArrayShield.Lookup | src/shielding_array.cpp:10-18 | the lock's slot with its count, or null exactly if it is not held |
| ShieldArray.ArrayShield.IncrementRef | src/shielding_array.cpp:20-33 | one more acquisition is counted, except that of a fifth lock |
| ShieldArray.ArrayShield.DecrementRef | src/shielding_array.cpp:35-49 | one acquisition less is counted, the last slot moving into a freed place; the result is what is left, or -1 |
| ShieldArray.ArrayShield.Acquire | inc/shielding_array.h:47-62 | the status is the one for the count of the lock, so that no reentrant acquisition is refused; call of `lock_fn` and new counts are those of the map |
| ShieldArray.ArrayShield.Release | inc/shielding_array.h:65-84 | status, call of `unlock_fn` and new counts are those of the map |
| ShieldArray.ArrayShield.Run | inc/shielding_array.h:47-84 | so for every sequence of operations, agreeing with the unbounded map, and with the depths told from the operations, while at most four locks are held |
| ShieldHash.PopConserves | src/shielding_hash.cpp:28-46 | after a pop, the free list and the pool entries in use still partition the pool |
| ShieldHash.PushConserves | src/shielding_hash.cpp:48-58 | the same after a push, heap entries staying outside |
| ShieldHash.AddLock | src/shielding_hash.cpp:96-100 | a new hash entry holds the lock's count; table, free list and conservation are kept |
| ShieldHash.RemoveLock | src/shielding_hash.cpp:132-133 | the lock's entry leaves the table and goes back where it came from |
| ShieldHash.Migrate | src/shielding_hash.cpp:86-93 | the move to the hash table keeps every count and takes the first four entries of the pool, none from the heap |
| ShieldHash.HashShield.constructor | src/shielding_hash.cpp:7-12 | no lock is held at first, whatever the size of the pool, if it is at least four |
| ShieldHash.HashShield.Lookup | src/shielding_hash.cpp:60-73 | in either mode the lock's slot or entry with its count, or null exactly if it is not held |
| ShieldHash.HashShield.AppendSlot | src/shielding_hash.cpp:81-94 | a new lock in array mode; the move to the hash table is made exactly when it is the fourth |
| ShieldHash.HashShield.IncrementRef | src/shielding_hash.cpp:75-105 | one more acquisition is counted, in array mode, across the move and in hash mode |
| ShieldHash.HashShield.DropSlot | src/shielding_hash.cpp:114-123 | one acquisition less in array mode |
| ShieldHash.HashShield.DropNode | src/shielding_hash.cpp:125-136 | one acquisition less in hash mode |
| ShieldHash.HashShield.DecrementRef | src/shielding_hash.cpp:107-137 | one acquisition less is counted; the result is what is left, or -1 |
| ShieldHash.HashShield.Acquire | inc/shielding_hash.h:59-75 | the status is the one for the count of the lock, so that no reentrant acquisition is refused; call of `lock_fn` and new counts are those of the map; the table is hashed from the fourth lock on |
| ShieldHash.HashShield.Release | Clib/shield_hash.h:225-243 | status, call of `unlock_fn` and new counts are those of the map; an unbalanced release changes nothing |
| ShieldHash.HashShield.Run | inc/shielding_hash.h:59-97 | so for every sequence of operations, across migration, emptying and refilling; every status is the one for the depth told from the operations, and hash mode is entered exactly when four locks have been held |
| ShieldLock.NextKeepsInv | inc/shielding_hash.h:60-97 | over any sound lock, every step of any thread keeps the agreement of its count, its stage in the shield and its phase in the lock |
| ShieldLock.CountsAreCalls | inc/shielding_hash.h:60-97 | over every run, each thread's table is the outcome of the calls that it has made, inner reentrant ones included, as `ShieldSpec` says for one thread |
| ShieldLock.NeverMisused | inc/shielding_hash.h:60-97 | whatever calls the threads make, no thread enters the lock while inside it or holding it, or leaves it without holding it |
| ShieldLock.OneOwner | inc/shielding_hash.h:60-97 | by the calls made, at most one thread has acquired the lock more often than released it, or, if not reentrant, has acquired it last; and that thread holds the lock underneath |
| ShieldLock.OnePositiveCount | inc/shielding_hash.h:86-96 | two threads have positive counts only on a non-reentrant lock, and only while one of them has handed the lock over and not erased its count yet |
| ShieldLock.AcquiresAlone | inc/shielding_hash.h:60-75 | an LS_ACQUIRE that meets no other thread gets the lock and counts it |
| ShieldLock.HandsOverAlone | inc/shielding_hash.h:94-96 | an LS_RELEASE on a non-reentrant lock comes to a point where the lock is free and still counted |
| ShieldLock.OneCountedIffReentrant | inc/shielding_hash.h:94-96 | with two or more threads, at most one has a positive count in every reachable state if and only if the lock is reentrant |
| ShieldLocks.McsIsSound | src/mcs.h:18-37 | all of this holds over the MCS lock |
| ShieldLocks.CnaIsSound | src/cna.h:87-161 | over the NUMA-aware lock |
| ShieldLocks.K42IsSound | src/k42.h:34-99 | over K42, with its allocated nodes |
| ShieldLocks.HemIsSound | src/hem.h:23-72 | over a Hemlock |
| ShieldLocks.ClhIsSound | src/clh.h:18-27 | over a CLH lock |
| ShieldLocks.TicketIsSound | src/ticket.h:12-21 | over the ticket lock with up to 2^32 threads |
| ShieldLocks.AbqlIsSound | src/abql.h:25-37 | over the array lock with up to 256 threads, but for the two lemmas about a thread on its own and what follows from them |
| ShieldMcs.ReentryHangs | src/mcs.h:19-24 | without the shield, once a holder acquires again, with or without waiters, no thread ever gets the lock again, under any schedule |

## Left out

- Weak memory orderings: all atomic accesses are sequentially consistent.
- Holding two locks of the same family at once: for MCS, CLH and CNA a thread has one node, so the code does not allow it. CLH is modelled with any number of locks used one after the other, Hemlock with any number held at once, the others with one lock.
- The NUMA-node query (except in `CnaNodes.dfy` and `CnaNodeOrder.dfy`, where each thread stays on its node), the outcome of `keep_lock_local` (except in `CnaRandom.dfy` and `CnaBound.dfy`) and the choice of addresses by the allocator: arbitrary values chosen by the scheduler. Allocation never fails.
- CnaBound.ServedInTime: a thread has one generator for all CNA locks, so the bound is one for threads that use this lock alone.
- The lazy creation of a thread's node or record (src/cna.h:112-117, src/hem.h:25-27) and the wrappers around it: nodes exist from the start. Nodes are never freed, except in K42.
- Deadlock by nesting: with Hemlock, threads that nest acquisitions in different orders can wait for each other; it is proved that this is the one way to get stuck, and that an order on the locks rules it out.
- Widths of the shield's counts (`int`), of uthash's counters and bucket numbers (`unsigned`): unbounded numbers, right as long as counts stay below 2^31 and items and buckets below 2^32. The counters of the ticket and the array lock do wrap around.
- The hash function is the one of inc/shielding_hash.h; the C version uses uthash's default. No proof about the table depends on which.
- The per-entry pointer to the table header, the key pointer and length, the signature and the offset of the handle in uthash: an entry is found by its reference and its lock pointer.
- uthash's sorting, selecting, replacing, ordered adding, Bloom filter and out-of-memory rollback: the shield never uses them.
- LS_ACQUIRE and LS_RELEASE of the C++ version abort after an unbalanced operation; the model returns the status and goes on, as the C version does, so a run up to an abort is a prefix of a run here.
- The C version's `IncrementRef` and `DecrementRef` do not look the lock up a second time; the model follows the C++ version.
- `lock_fn` and `unlock_fn` are logged by the shield classes; what they do is modelled in `ShieldLocks.dfy`, where their arguments play no role and each thread uses one lock.
- ShieldLocks.AbqlIsSound: does not say that a thread on its own can always go on, as that ends when the counter of the array lock runs over.
- src/tas.h: one flag, simple on its own.
- src/shielding_invoke.cpp and inc/shielding_invoke.h: the same table, called another way.
- Clib/shield_arr.h: its calls do not match its signatures.
- Benchmarks, tests, pinning, padding, printing and timing.
