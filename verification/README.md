# Verified model of the resource-graph scheduler

The library lets a dispatcher hand out coroutines together with the resources each of them reads or writes, runs
them on a pool of threads, and promises that the outcome is the one of running them in program order. This project
models its four concurrent components and proves what they promise, and where they do not keep a promise it proves
exactly when they do.

| component | files |
|---|---|
| the lock-free queue of each resource, `ResourceNode` | `Access`, `NodeMachine`, `NodeInvariant`, `NodeTheorems`, `Walkers`, `Stranding`, `InTurnTheorems`; as an object: `LiveList`, `ResourceNode` |
| registration, launch, execution, removal; the library as a whole | `Program`, `System`, `SystemInvariant`, `SerialEquivalence`, `DataFlow`, `Barrier`, `Progress`, `Ordering`, `OrderSuffices`, `OrderNeeded`, `Overlap`, `FinishExactly` |
| the work-stealing deque | `Ring`, `DequeMachine`, `DequeTheorems`, `DequeCalls`; as an object: `WorkStealingDeque` |
| the bounded ticket queue | `MpmcMachine`, `MpmcInvariant`, `MpmcTheorems`, `MpmcCalls`; as an object: `MpmcQueue` |
| frames, handles, continuations, barrier, root wait | `LifetimeMachine`, `LifetimeInvariant`, `LifetimeTheorems`, `LifetimeCalls`; as objects: `SharedHandle`, `BarrierQueue` |
| scheduler and task tree together, tied by barriers | `BarrierRun`, `BarrierPassed` |

Each concurrent component is a step machine: the shared state, a program counter for every thread, and one atomic
load, store, exchange or addition a step. A run is a list saying who steps next, so a lemma about every run is a lemma
about every interleaving. Fields marked as history are written by steps and read by none; `DequeCalls`, `MpmcCalls` and
`LifetimeCalls` tie them to the requests in the schedule itself, and `DataFlow` ties the result of a program to the
bodies of its tasks, so that what a call is given and what it gives back is fixed from outside. Where the code is also one
mutable object, a class does the same with calls that do not overlap, its methods specified against a plain list.

## What was found

**A lost wake-up.** In `include/ResourceNode.hpp:197-199`, a remover that did not find its entry at `first`, marked
it, then won the exchange on `first` (because the head left meanwhile) returns when the entry behind is not marked.
The head path has no such effective return. When that remover has just emptied the granted run, nobody is left to
grant the next waiting entry, although the comment at line 212 expects it to be done.
`NodeTheorems.TwoReadersStrandAWriter` gives the run: two readers, then a writer; the second reader looks at `first`,
the first reader leaves, the second one marks itself and advances `first`. No continuation ever grants the writer.
`NodeTheorems.LostExactlyByWalker` shows that this is the only way; `NodeTheorems.NoLostWakeUpExactly` gives the
condition a caller can check for one queue: every interleaving is free of lost wake-ups if and only if the modes
registered with the resource never put a registration that has to wait behind two neighbours that may share.

For whole programs, over any number of resources, `FinishExactly.FinishesExactlyWhenOrderly` gives the exact condition,
checkable before anything is dispatched: every run that can go no further has finished every coroutine if and only if,
wherever a run of compatible registrations is followed by one that has to wait, the last of the run can start only after
every earlier one of it has left that resource (`Ordering.Orderly`; "can start only after" follows from the order of
registrations and of each coroutine's accesses alone, `Ordering.StartsAfter`). With one resource each this is the
condition above (`FinishExactly.OneResourceFinishesExactly`). `FinishExactly.TwoReadersStrandAWriterForGood` is a program
that gets stuck, `FinishExactly.ReadersInTurnAlwaysFinish` one with two readers in front of a writer that never does.
Safety (grant safety, launching once, serial equivalence) does not depend on any of this and holds without a condition.

**The exchange on `first`.** `compare_exchange_strong(cur, ++cur, ..)` (`include/ResourceNode.hpp:133`, `167-171`,
`183-187`) takes `cur` by reference, so taken literally it compares with the incremented value, and never succeeds. The
reading (`CasReading`) is a parameter of the step machine, of the whole system, and of the class. Where it makes a
difference:

- what a lost wake-up looks like: read as intended, the granted run was drained by a walker
  (`NodeTheorems.LostExactlyByWalker`); read as written, the entry at `first` is marked
  (`Walkers.LostExactlyBehindMark`);
- which entries are critical in `Ordering.Orderly`: read as intended, the last of a run with something behind it; read
  as written, any entry that shares with its predecessor and has something that must wait anywhere behind it;
- calls that do not overlap: read as intended they never lose a wake-up (`InTurnTheorems.IntendedNeverLosesInTurn`); read
  as written they do, on exactly the same lists as overlapping ones (`InTurnTheorems.AsWrittenInTurnExactly`,
  `InTurnTheorems.TwoReadersInTurn`);
- the class: read as written, `ResourceNode.ResourceNode.RemoveTask` leaves the object standing for its list if and only
  if the call was not at the head or found no marked entry right behind it.

Everything else about the queue and the system holds for both readings.

**A reused address.** `remove_task` finds its entry by comparing coroutine addresses and does not look at the mark
(`include/ResourceNode.hpp:158-167`). An entry is marked from inside its frame's destructor, so a new coroutine can be
created at that address and register while the marked entry is still in the window; its own removal then marks the old
entry again and returns, and its entry is never taken off. `ResourceNode.ResourceNode.RemoveTask` gives the exact
condition: it takes the handle off the list if and only if the first granted entry with it is not already marked
(`LiveList.Finds`).

**The end of the root's wait.** The handle to the parent is a member of the promise (`include/Task.hpp:102`), so it is
released inside the destructor, before the frame's memory is freed. When the wait at `include/initTask.hpp:208` ends every
descendant has left its resources (`LifetimeTheorems.RootWaitsForAll`), but its memory may still be about to be freed
(`LifetimeTheorems.WaitEndsBeforeFreeing`).

**The barrier test.** `include/BarrierQueue.hpp:40` subtracts a flag from a counter; the language leaves open which
is read first. Reading the counter first is safe. Reading the flag first can put a caller back while a child of it is
alive: `LifetimeTheorems.FlagFirstExactly` says precisely when, `LifetimeTheorems.FlagFirstCanFail` gives a run.

## Assumptions

- Atomics are sequentially consistent; fences and weaker orderings are not modelled.
- A queue's array is longer than the number of registrations it ever receives: indices never wrap in the source
  (`include/ResourceNode.hpp:56`), and the loops at 129 and 179 read one entry ahead.
- A coroutine is registered at most once with one queue. `NodeMachine` tells entries apart by their position, so it
  assumes that no coroutine registers at the address of a marked entry still in the window; the class does not assume it.
  One thread adds to a queue at a time (`include/ResourceNode.hpp:73`).
- `co_await dispatch_task(..)` runs the `await_transform` that stores the parent (`include/Task.hpp:179-209`).
- Array indices, deque indices, tickets and owner counts do not reach the end of their machine words. The wait counter
  is a 32-bit word with explicit wrap-around, and is proved not to wrap.
- Coroutines leave their queues when the last handle to their frame goes (`include/Task.hpp:129-135`). The whole system
  lets them leave after their work, so what is said about finishing assumes that task objects are dropped or awaited.
- A body of a coroutine is a function from what it reads to what it stores; it reads all its resources, then writes
  those it may write, then leaves its queues one after the other, all interleaved with everybody else.
- New memory is arbitrary: the buffer a deque grows into holds anything.

## Model

| member | source | states |
|---|---|---|
| Access.ParallelIsSameSharedMode | include/resources.hpp:135-139 | two modes may run together exactly when they are the same non-writing mode, so compatibility is transitive |
| Access.JoinsIsSameSharedMode | include/ResourceNode.hpp:97-98 | an entry joins its predecessor exactly when it carries the predecessor's mode and that is not Write |
| Access.RunIsPairwiseParallel | include/resources.hpp:135-139 | comparing each entry with its neighbour only, as the queue does, makes a whole run pairwise compatible |
| NodeInvariant.InitInv | include/ResourceNode.hpp:56-62 | the invariant holds of a new queue for any list of registrations and any longer array |
| NodeInvariant.AddStepInv | include/ResourceNode.hpp:76-110 | every atomic action of add_task keeps the invariant, whatever the removers are in the middle of |
| NodeInvariant.StartStepInv | include/ResourceNode.hpp:116-156 | looking for the entry and incrementing `first` over it keep the invariant |
| NodeInvariant.WalkStepInv | include/ResourceNode.hpp:157-172 | walking to the entry, marking it and trying to take over keep the invariant |
| NodeInvariant.ClearStepInv | include/ResourceNode.hpp:129-145 | passing marked entries keeps the invariant, including who is responsible for the next grant |
| NodeInvariant.GrantStepInv | include/ResourceNode.hpp:219-242 | the decision to grant the first waiting entry keeps the invariant |
| NodeInvariant.LoopStepInv | include/ResourceNode.hpp:243-275 | granting the rest of a compatible run, with the re-read of `last`, keeps the invariant |
| NodeInvariant.StepInv | include/ResourceNode.hpp:76-279 | every step of every thread keeps the invariant, under both readings of the exchange |
| NodeInvariant.ExecInv | include/ResourceNode.hpp:76-279 | every interleaving of one adder and any number of removers keeps the invariant |
| NodeInvariant.RemoverNotifies | include/ResourceNode.hpp:230-263 | a wait counter is decremented only for a granted entry that was not notified before |
| NodeTheorems.GrantSafety | include/ResourceNode.hpp:97-266 | in every reachable state the indices are ordered, every array access of every thread's next step is inside the array, the granted window is pairwise compatible, every granted entry that has not left lies in it, and two running ones never conflict |
| NodeTheorems.ConflictsAreOrdered | include/ResourceNode.hpp:97-266 | while an entry runs, every earlier conflicting entry has left and no later conflicting entry is granted |
| NodeTheorems.BarrierWaitsForEarlierTasks | include/barrier.hpp:32-39 | on one resource: a Write registration is granted only when every earlier one has removed itself |
| Barrier.BarrierRunsAfterEverythingEarlier | include/barrier.hpp:31-39 | in every run, once a barrier on any set of resources has been launched, everything dispatched earlier on any of them is past its work, has begun to remove itself there and has been passed |
| Barrier.BarrierRunsBeforeEverythingLater | include/barrier.hpp:31-39 | while it runs, nothing dispatched later on any of its resources has started |
| BarrierRun.JointRunInv | include/barrier.hpp:51-102 | every run of the scheduler and the task tree together keeps the invariants of both and what ties them: an awaiting caller stands still, a parked one was parked by its own launched barrier, and a barrier leaves only after parking |
| BarrierRun.CallerAwaited | include/barrier.hpp:66-70 | the caller of a barrier is the frame that awaited it, when it was next to be dispatched |
| BarrierRun.ParkedAfterEverythingEarlier | include/barrier.hpp:51-56 | in every joint run a coroutine parked at a barrier was parked by the barrier it awaited, and everything dispatched earlier on any resource of it is past |
| BarrierRun.ContinuesAfterEverything | include/BarrierQueue.hpp:34-56 | in every joint run a coroutine is put back after a barrier only when everything dispatched earlier on any of its resources is past and its own children have left, unless the flag was read first and its task object dropped in between |
| BarrierRun.EveryBarrierParks | include/barrier.hpp:51-56 | in every joint run the body of a barrier finds its caller standing still and appends it to the queue, and no barrier gets past its work without that |
| BarrierPassed.ABarrierIsPassed | include/barrier.hpp:66-104 | a joint run in which a coroutine awaits a barrier on a resource, is parked and put back |
| NodeTheorems.QuiescentNotified | include/ResourceNode.hpp:104-107 | with no call in flight every granted entry has been notified |
| NodeTheorems.CompatibleIsGranted | include/ResourceNode.hpp:97-106 | with no call in flight, on every list of registrations, the first one is granted, and so is every one that may run with a granted predecessor |
| NodeTheorems.LostExactlyByWalker | include/ResourceNode.hpp:197-200 | read as intended: with no call in flight and an entry waiting, the queue is healthy if and only if no walking remover passed the last granted entry |
| Walkers.LostExactlyBehindMark | include/ResourceNode.hpp:129-145 | read as written: it is healthy if and only if the entry at `first` is not marked |
| NodeTheorems.UnhealthyShowsTriple | include/ResourceNode.hpp:165-206 | a lost wake-up shows two entries that joined followed by one that does not |
| NodeTheorems.SharingNeverLoses | include/ResourceNode.hpp:165-206 | lists of modes that share to the end lose no wake-up in any interleaving, under either reading |
| NodeTheorems.TripleCanLose | include/ResourceNode.hpp:165-200 | for every other list there is an interleaving after which a waiting entry is abandoned |
| NodeTheorems.AbandonedForever | include/ResourceNode.hpp:219-242 | once abandoned, a waiting entry is not granted by any continuation |
| NodeTheorems.NoLostWakeUpExactly | include/ResourceNode.hpp:83-275 | every interleaving leaves a quiet queue healthy (whatever waits conflicts with the last granted entry, and a granted one not removed stands at `first`) if and only if two neighbours that may share are never followed by a registration that may not, under both readings |
| NodeTheorems.TwoReadersStrandAWriter | include/ResourceNode.hpp:165-200 | the smallest run that loses one: two readers and a writer that no continuation grants |
| InTurnTheorems.IntendedNeverLosesInTurn | include/ResourceNode.hpp:116-279 | read as intended, calls that do not overlap never lose a wake-up, whatever the registrations |
| InTurnTheorems.AsWrittenInTurnExactly | include/ResourceNode.hpp:129-145 | read as written, calls that do not overlap lose none if and only if the registrations share to the end |
| InTurnTheorems.TwoReadersInTurn | include/ResourceNode.hpp:129-145 | the smallest such run: two readers leave one after the other, the later one first, and the writer is never granted |
| Walkers.RemStepPasses | include/ResourceNode.hpp:129-187 | a remover passes the entry at `first` only as its own head, or if it is marked and of the remover's own run |
| Walkers.HeadWhenOthersLeft | include/ResourceNode.hpp:118-123 | once everybody in front of it in its run has left, a critical entry is found at the head |
| Walkers.UnhealthyNeedsWalker | include/ResourceNode.hpp:165-206 | a queue whose critical entries never walked loses no wake-up |
| Stranding.UnhealthyIsDead | include/ResourceNode.hpp:219-242 | with no call in flight, a queue that is not healthy never becomes so again |
| Stranding.DeadStep | include/ResourceNode.hpp:76-279 | no step of anybody brings such a queue back |
| Stranding.DoomedStep | include/ResourceNode.hpp:165-206 | a walker behind which everybody has left strands what waits, whatever the others do |
| LiveList.PrefixIsLongest | include/ResourceNode.hpp:219-275 | the entries of the plain list that may run are pairwise compatible, and the next one conflicts with every one of them |
| LiveList.GrantedIsPrefix | include/ResourceNode.hpp:97-107 | what the array has granted and not removed is exactly the part of the plain list that may run |
| LiveList.AddIsAppend | include/ResourceNode.hpp:89-108 | an added entry is granted at once exactly when the list then lets all of it run |
| LiveList.MarkIsRemove | include/ResourceNode.hpp:160-165 | marking an entry inside the granted run removes it from the list and grants nothing |
| LiveList.MarkedInside | include/ResourceNode.hpp:157-165 | marking the first entry of a handle inside the granted run takes the handle off the list if and only if that entry was not already marked |
| LiveList.HeadRemoval | include/ResourceNode.hpp:122-146 | passing the head and the marked entries behind it removes one entry of the list and grants nothing while some granted entry is left |
| LiveList.MarkedHead | include/ResourceNode.hpp:124-141 | passing the head only, with a marked entry behind it, still removes one entry of the list, but the array no longer stands for the list |
| LiveList.DrainRemoval | include/ResourceNode.hpp:219-275 | removing the last granted entry grants exactly what the list newly lets run |
| ResourceNode.ResourceNode.AddTask | include/ResourceNode.hpp:76-110 | appends to the list of live entries, whatever other entries carry the same handle, and says whether the whole list may run |
| ResourceNode.ResourceNode.PassHead | include/ResourceNode.hpp:122-146 | read as intended, moves `first` over its entry and exactly the marked entries behind it; read as written, gives up exactly when the entry right behind is marked |
| ResourceNode.ResourceNode.MarkInside | include/ResourceNode.hpp:157-165 | finds the entry of the handle inside the granted run and marks it alone |
| ResourceNode.ResourceNode.GrantWhile | include/ResourceNode.hpp:250-270 | grants as long as the next entry may run with the first one granted, and stops only at a conflict or at the `last` it has seen |
| ResourceNode.ResourceNode.GrantRun | include/ResourceNode.hpp:219-275 | grants the longest compatible run of waiting entries and wakes exactly those |
| ResourceNode.ResourceNode.RemoveTask | include/ResourceNode.hpp:116-279 | takes the handle out of the list wherever it stands, if and only if the first granted entry with it is not already marked; wakes exactly the newly allowed entries, in order, and keeps standing for the list, always if read as intended, and if read as written exactly when it was not at the head or found no marked entry right behind |
| ResourceNode.ResourceNode.RemoveHead | include/ResourceNode.hpp:119-146 | the same when the handle is at `first`, with the same condition on the reading |
| ResourceNode.ResourceNode.RemoveInside | include/ResourceNode.hpp:157-172 | the same when it is not at `first`: one entry less and nobody granted, or nothing changed if a marked entry with the handle stands in front |
| Program.PosIsPosition | include/dispatchTask.hpp:195-206 | a dispatched coroutine sits in the queue of a resource at the position given by how many before it use that resource |
| Program.PosOrder | include/dispatchTask.hpp:195-206 | positions in every queue are ordered as the dispatches are |
| SystemInvariant.StartInv | include/Task.hpp:85-91 | the whole system starts in its invariant, every wait counter at the registration offset |
| SystemInvariant.CountInv | include/dispatchTask.hpp:192 | adding the number of resources, or one at a time for a barrier (`include/barrier.hpp:36-38`), keeps the account of the wait counter |
| SystemInvariant.RegisterInv | include/dispatchTask.hpp:195-206 | every step of registering with the queues keeps the invariant |
| SystemInvariant.FinishInv | include/dispatchTask.hpp:209-213 | subtracting the registration offset launches exactly when every queue has already granted |
| SystemInvariant.RemoveInv | include/Task.hpp:129-135 | every step of leaving the queues one after the other keeps the invariant |
| SystemInvariant.TargetCounter | include/ResourceNode.hpp:228-235 | the decrement of a wait counter uses up one pending notification and launches exactly when it was the last |
| SystemInvariant.SysStepInv | include/dispatchTask.hpp:171-213 | every step of the dispatcher and of every coroutine keeps the invariant of the whole system |
| SystemInvariant.RunInv | include/dispatchTask.hpp:171-213 | so does every interleaving |
| SerialEquivalence.LaunchedIsGranted | include/dispatchTask.hpp:209-213 | what has been launched has been granted and notified by every queue it registered with |
| SerialEquivalence.ConflictsInOrder | include/ResourceNode.hpp:97-266 | while one works on a resource, every earlier conflicting one is past its work and no later conflicting one has started, over all resources at once |
| SerialEquivalence.PassedIsPastWork | include/Task.hpp:129-135 | whatever a queue has passed has finished its work |
| SerialEquivalence.ActiveSplits | include/ResourceNode.hpp:97-266 | at a resource being worked on, the writers that have stored are exactly those dispatched earlier |
| SerialEquivalence.ParallelIsSerial | tests/randGraph.cpp:209-228 | in every interleaving each coroutine reads exactly what it reads in program order, and when all have finished the memory is the one of the serial run |
| DataFlow.ReadsLastWriter | include/dispatchTask.hpp:181-183 | in every interleaving, at every moment, what a task has read of a resource is what the body of the last earlier writer of that resource stores, given what that writer has read, or the initial value; a finished task has read everything |
| DataFlow.MemoryIsLastStore | include/dispatchTask.hpp:181-183 | at every moment memory holds what the body of the last task that has stored to the resource stores, given what that task has read, or the initial value |
| DataFlow.FinalMemory | tests/randGraph.cpp:209-228 | when all have finished, each resource holds what the body of its last writer in program order stores, or the initial value |
| Progress.RemoverMoves | include/ResourceNode.hpp:116-279 | every step of a remove_task call uses up a bounded rank, so the call ends whatever the others do |
| Progress.AdderMoves | include/ResourceNode.hpp:76-110 | every step of an add_task call uses up a rank |
| Progress.MoveDecreases | include/dispatchTask.hpp:171-213 | every move of anybody lowers one measure of the whole system; who cannot move changes nothing |
| Progress.BlockedIsUnhealthy | include/ResourceNode.hpp:219-275 | a queue that holds back the oldest unfinished one with nobody in flight has lost a wake-up |
| Progress.StuckIsUnhealthy | include/ResourceNode.hpp:219-275 | there is no wait cycle: if nobody can move and something is unfinished, some queue lost a wake-up |
| Ordering.StartsAfterIsLater | include/dispatchTask.hpp:195-213 | a coroutine only ever has to wait for ones dispatched before it |
| Ordering.SharingIsOrderly | include/ResourceNode.hpp:97-266 | programs whose registrations share to the end on every resource are orderly, under both readings |
| Ordering.OneResourceOrder | include/ResourceNode.hpp:97-266 | with one resource each, orderly is the same as sharing to the end |
| OrderSuffices.LaunchedAfter | include/dispatchTask.hpp:209-213 | in every run, when something has been launched, whatever it can only start after has left |
| OrderSuffices.CriticalStartsAtHead | include/ResourceNode.hpp:118-123 | in an orderly program a critical call begins at the head |
| OrderSuffices.OrderlyFinishes | include/dispatchTask.hpp:195-213 | in an orderly program whoever can no longer move has finished |
| OrderNeeded.RunHolding | include/ThreadPool.hpp:164-249 | everybody but held coroutines can go on until only they could move, the held ones staying where they are |
| Overlap.UnlaunchedStartsAfter | include/dispatchTask.hpp:209-213 | with two sharers held and every queue healthy, what has not been launched can start only after the earlier sharer has left |
| Overlap.WalkerStrandsIntended | include/ResourceNode.hpp:165-200 | read as intended, a critical walker that looked at `first` too early ends in a system that is stuck |
| Overlap.WalkerStrandsAsWritten | include/ResourceNode.hpp:165-171 | so it does read as written |
| FinishExactly.DisorderStrands | include/ResourceNode.hpp:165-200 | every program that is not orderly has a run after which nobody can move and somebody has not finished |
| FinishExactly.FinishesExactlyWhenOrderly | include/dispatchTask.hpp:195-213 | every run that can go no further has finished everything if and only if the program is orderly, for any number of resources and both readings |
| FinishExactly.OneResourceFinishesExactly | include/ResourceNode.hpp:197-200 | with one resource each: if and only if the registrations share to the end |
| FinishExactly.FinishedExactlyUnlessLost | include/ResourceNode.hpp:197-200 | a run in which nobody can move has finished everything if and only if no queue lost a wake-up, in the way its reading allows |
| FinishExactly.EveryMaximalRunFinishes | include/dispatchTask.hpp:195-213 | in an orderly program every run is bounded by the measure and every maximal run finishes everything with the serial result |
| FinishExactly.TwoReadersStrandAWriterForGood | include/ResourceNode.hpp:165-200 | a program of two readers and a writer has a run that gets stuck, under either reading |
| FinishExactly.ReadersInTurnAlwaysFinish | include/ResourceNode.hpp:97-266 | a program with two readers in front of a writer that always finishes, because the second reader starts only after the first has left |
| Progress.LaunchedExactlyOnce | include/waitCounter.hpp:18-19 | the wait counter equals the pending notifications, plus the offset and less the registrations not yet added to it while registering, and never wraps; a launch happens at most once, exactly when registration is complete and every queue has notified |
| Ring.MaskIsMod | include/dequeue.hpp:34-54 | masking by capacity - 1 is the remainder by the capacity, for every power of two |
| Ring.SlotsDiffer | include/dequeue.hpp:45-54 | indices less than one capacity apart occupy different slots |
| Ring.CopyKeeps | include/dequeue.hpp:57-65 | the copying loop of a resize preserves every logical element of the range |
| WorkStealingDeque.RingBuff.Slot | include/dequeue.hpp:45-54 | the masked index is the index modulo the capacity and inside the array |
| WorkStealingDeque.RingBuff.Store | include/dequeue.hpp:45-48 | stores one logical element and no other slot |
| WorkStealingDeque.RingBuff.Load | include/dequeue.hpp:51-54 | loads the logical element of the index |
| WorkStealingDeque.RingBuff.Resize | include/dequeue.hpp:57-65 | a new buffer of twice the capacity with every live logical element, the old one untouched |
| WorkStealingDeque.Deque.Emplace | include/dequeue.hpp:169-191 | appends at the back, growing when full and keeping the old buffer |
| WorkStealingDeque.Deque.Pop | include/dequeue.hpp:194-228 | takes the newest element, or none exactly when empty |
| WorkStealingDeque.Deque.Steal | include/dequeue.hpp:231-259 | takes the oldest element, or none exactly when empty |
| DequeTheorems.OwnerKeepsElements | include/dequeue.hpp:169-228 | no owner step before a publish changes a live logical element, resizes included |
| DequeTheorems.StepRefines | include/dequeue.hpp:169-259 | each step of each thread performs one operation of an abstract sequence, at the right end, or none |
| DequeTheorems.RunIsLinearizable | include/dequeue.hpp:83-86 | every run replays on the abstract sequence: push at the back, pop from the back or empty, steal from the front, with the returned values in that order; `DequeCalls.CallsAreAnswered` ties these operations to the calls |
| DequeTheorems.NothingLostOrDuplicated | include/dequeue.hpp:169-259 | in every interleaving the pushed elements are exactly those popped, stolen, in the owner's hand and still between top and bottom |
| DequeTheorems.StolenIsOldest | include/dequeue.hpp:233-252 | a winning thief returns the oldest element, although it read the slot before the exchange and from a buffer that may have been replaced any number of times |
| DequeTheorems.PoppedIsTaken | include/dequeue.hpp:204-222 | the element a pop returns is the one that was newest at its deciding step, although it is read later |
| DequeTheorems.TakenWithoutCasIsSafe | include/dequeue.hpp:204-222 | an element taken by the owner without an exchange is won by no thief in any continuation of the run by thieves, whatever they had loaded |
| DequeCalls.CallsAreAnswered | include/dequeue.hpp:169-228 | the calls the owner began, read off the schedule, are answered one by one and in order: an emplace by pushing its own value, a pop by the newest element or by finding the deque empty |
| DequeCalls.EmplacedIsPushed | include/dequeue.hpp:172-187 | the values handed to emplace, in order, are exactly those pushed and the one in progress |
| DequeCalls.StealRefuses | include/dequeue.hpp:231-259 | a steal comes back empty-handed only if somebody else took the oldest element since the call began, or the deque is empty, or the owner is about to pop the only element |
| DequeCalls.CallsEnd | include/dequeue.hpp:169-259 | every step inside a call brings it closer to its end, whatever the others do |
| MpmcInvariant.TicketOrder | include/MPMCQueue.hpp:326-334 | of two tickets of one slot the later has the later turn, so a turn names one ticket |
| MpmcInvariant.TakeHeadInv | include/MPMCQueue.hpp:200-222 | taking a producer ticket keeps the invariant |
| MpmcInvariant.TakeTailInv | include/MPMCQueue.hpp:269-289 | taking a consumer ticket keeps the invariant |
| MpmcInvariant.TouchInv | include/MPMCQueue.hpp:104-117 | constructing or destroying in the slot of a ticket disturbs no other thread |
| MpmcInvariant.PublishFullInv | include/MPMCQueue.hpp:205 | publishing the odd turn keeps the invariant and releases exactly the consumer of that ticket |
| MpmcInvariant.PublishFreeInv | include/MPMCQueue.hpp:275 | publishing the next even turn keeps the invariant and completes that ticket's delivery |
| MpmcInvariant.FreeIsEmpty | include/MPMCQueue.hpp:202-204 | a slot whose turn says free for a ticket nobody is producing holds no value |
| MpmcInvariant.FullIsThere | include/MPMCQueue.hpp:271-273 | a slot whose turn says full for a ticket nobody is freeing holds the value its producer was given |
| MpmcInvariant.StepInv | include/MPMCQueue.hpp:195-304 | every atomic action of any number of producers and consumers keeps the invariant, for any capacity |
| MpmcTheorems.Exclusion | include/MPMCQueue.hpp:195-237 | no two threads are ever both inside construct, move or destroy of one slot |
| MpmcTheorems.ConstructedOnceDestroyedOnce | include/MPMCQueue.hpp:104-122 | at each step, values are constructed only in empty slots, and moved from and destroyed only in slots holding the ticket's own value |
| MpmcTheorems.ConstructedIsDestroyedOrStored | include/MPMCQueue.hpp:195-304 | in every run the values constructed are, as often as constructed, those destroyed and those in slots |
| MpmcTheorems.EveryValueDestroyedOnce | include/MPMCQueue.hpp:181-188 | across any run followed by destruction with no call in flight, every constructed value is destroyed exactly as often as it was constructed |
| MpmcTheorems.FirstInFirstOut | include/MPMCQueue.hpp:267-276 | what has been received under ticket k is what was issued under it, and both tickets were taken |
| MpmcTheorems.QuietQueue | include/MPMCQueue.hpp:195-304 | with no call in flight the received values are a prefix of the issued ones, in order, and the rest are in their slots |
| MpmcTheorems.QuietCapacity | include/MPMCQueue.hpp:140-155 | with no call in flight at most capacity values wait |
| MpmcTheorems.DestructorDestroysTheRest | include/MPMCQueue.hpp:96-102 | with no call in flight the odd-turn slots are exactly those holding a value |
| MpmcTheorems.LapBack | include/MPMCQueue.hpp:326-334 | one capacity back is the same slot one turn earlier |
| MpmcTheorems.FullWhenEmplaceRefused | include/MPMCQueue.hpp:209-237 | try_emplace returns false only if at an instant inside the call the next ticket was k and the value one lap before it had not been taken out |
| MpmcTheorems.UnpublishedWhenPopRefused | include/MPMCQueue.hpp:278-304 | try_pop returns false only if at an instant inside the call the next ticket was k and its value had not been published |
| MpmcCalls.TicketWasAsked | include/MPMCQueue.hpp:200-222 | every producer ticket was taken inside one call of its thread and carries the value which the request that began that call handed in, for emplace and try_emplace |
| MpmcCalls.RequestedIsReceived | include/MPMCQueue.hpp:200-276 | first in, first out from request to result: the consumer of ticket k receives the value handed in by the call that took producer ticket k |
| MpmcCalls.CallsAreAnswered | include/MPMCQueue.hpp:195-304 | every call takes up its request and comes back only with the answer: its own value newly published, the value of its own ticket newly received, or a justified refusal of a try form; a lost exchange ends no call |
| MpmcCalls.CallsMoveOn | include/MPMCQueue.hpp:195-304 | every step inside a call brings it closer to its end, unless it spins on its slot or another thread took the ticket meanwhile |
| MpmcCalls.BlockedWhenItMust | include/MPMCQueue.hpp:202 | emplace spins only while the value one lap before its ticket has not been taken out, pop only while its value has not been published |
| MpmcQueue.FullTest | include/MPMCQueue.hpp:218 | the turn of the next slot tells whether the queue is full |
| MpmcQueue.EmptyTest | include/MPMCQueue.hpp:284 | the turn of the oldest slot tells whether the queue is empty |
| MpmcQueue.Queue.TryEmplace | include/MPMCQueue.hpp:209-237 | appends exactly when fewer than capacity values wait, else refuses and changes nothing |
| MpmcQueue.Queue.TryPop | include/MPMCQueue.hpp:278-304 | takes the oldest value, or refuses exactly when there is none |
| LifetimeInvariant.KidUpdate | include/Task.hpp:191-194 | how the number of handles children hold to a frame changes when one frame changes |
| LifetimeInvariant.HandleKeepsAlive | include/SharedCoroutineHandle.hpp:159-167 | a frame with a handle to it is not being destroyed |
| LifetimeInvariant.ReleaseParentInv | include/Task.hpp:102-135 | the release of the parent inside the promise's destructor keeps every counter equal to its handles |
| LifetimeInvariant.OwnerMoves | include/Task.hpp:37-55 | every step of awaiting, reading the result and dropping the owner's handle keeps the invariant |
| LifetimeInvariant.SelfMoves | include/FinalDelete.hpp:19-28 | every step of the final suspend keeps the invariant and never resumes a coroutine that is not suspended |
| LifetimeInvariant.Spawns | include/dispatchTask.hpp:171-189 | creating a child frame keeps the invariant |
| LifetimeInvariant.Links | include/Task.hpp:179-209 | storing the creator's handle as the child's parent keeps the invariant |
| LifetimeInvariant.Walks | include/BarrierQueue.hpp:34-56 | every action of a pass over the barrier queue keeps the invariant |
| LifetimeInvariant.StepInv | include/Task.hpp:149-209 | every atomic action of creators, owners, coroutines, destructors and the barrier worker keeps the invariant |
| LifetimeTheorems.CounterCountsHandles | include/SharedCoroutineHandle.hpp:41-98 | in every reachable state a frame's counter is the number of handles to it: its own, its owner's and one for each linked child that has not yet released its parent handle |
| LifetimeTheorems.NoUseAfterFree | include/Task.hpp:49-55 | a frame is alive while it runs, while its owner has a handle to it and while a linked child has not released it; an owner reads only a stored result |
| LifetimeTheorems.ChildrenLeaveFirst | include/Task.hpp:129-135 | a frame is destroyed only after its final suspend and after every linked child has left its resources and released it, the child's own memory being freed then or later |
| LifetimeTheorems.DestroyedOnce | include/SharedCoroutineHandle.hpp:86-98 | over any continuation of any run a frame's destruction only advances and its counter never leaves zero again |
| LifetimeTheorems.DescendantsHaveLeft | include/initTask.hpp:208-227 | when a root has neither its own handle nor children, every linked descendant at any depth has left its resources and released its parent |
| LifetimeTheorems.RootWaitsForAll | include/initTask.hpp:208-227 | when the root's wait loop ends, every linked descendant is registered nowhere and has released its parent; freeing it may still be under way |
| LifetimeTheorems.WaitEndsBeforeFreeing | include/initTask.hpp:208-227 | a run in which the wait is over and a descendant's memory is not freed yet |
| LifetimeTheorems.ContinuedExactlyOnce | include/Task.hpp:149-160 | a suspended awaiter is resumed by exactly one party, with the continuation stored before the winning exchange, and none is forgotten |
| LifetimeTheorems.CountFirstIsSafe | include/BarrierQueue.hpp:40 | with the counter read first, a parked caller is put back only when it has no live child |
| LifetimeTheorems.FlagFirstExactly | include/BarrierQueue.hpp:40 | with the flag read first, the caller put back has a live child if and only if its owner dropped its handle between the two reads |
| LifetimeTheorems.FlagFirstCanFail | include/BarrierQueue.hpp:40 | a run in which that happens |
| LifetimeTheorems.ChildlessIsReady | include/BarrierQueue.hpp:40 | a parked caller whose owner is not in the middle of dropping it passes the test exactly when it has no live child |
| LifetimeTheorems.QueueHoldsTheParked | include/BarrierQueue.hpp:26-56 | the queue holds exactly the parked callers, each once, and putting one back keeps the others in order |
| LifetimeCalls.FrameWasDispatched | include/dispatchTask.hpp:171-192 | every frame has its creator, its way of returning and its number of registrations from the dispatch that created it |
| LifetimeCalls.LeavesOneByOne | include/Task.hpp:129-135 | a frame loses its registrations one at a time, and only by its own destruction |
| LifetimeCalls.AwaiterAsked | include/Task.hpp:37-48 | the coroutine that awaits a frame, suspended or resumed, is the one that asked for its result, and has awaited ever since |
| LifetimeCalls.AwaitGoesOn | include/Task.hpp:37-55 | no step of anybody ends an await or sets it back, except the awaiter's own reading of the stored result |
| LifetimeCalls.AwaiterGoesOn | include/Task.hpp:37-48 | nobody is left waiting: an awaiter whose exchange fails goes on to read the stored result, a suspended one waits for a task still at work or its final suspend gets nearer to resuming it |
| LifetimeCalls.AskingBegins | include/Task.hpp:23-34 | asking for a result begins an await, and reads at once only if the task has finished |
| LifetimeCalls.RootLeavesLast | include/initTask.hpp:208-227 | in every run, from the moment the root's handle is let go, everything it dispatched is registered nowhere and has released its parent |
| LifetimeCalls.EachMovesOn | include/FinalDelete.hpp:19-28 | every step of an owner that is not suspended and of a final suspend brings it closer to its end |
| LifetimeCalls.DestructionMovesOn | include/Task.hpp:129-135 | every step of a destruction brings it closer to its end |
| LifetimeCalls.PassReachesAll | include/BarrierQueue.hpp:43-55 | when a pass over the barrier queue is about to end, every caller in the queue at its beginning has been decided about, whatever else happened meanwhile |
| LifetimeCalls.PutBackByTest | include/BarrierQueue.hpp:46-49 | only a passed test puts a parked caller back |
| LifetimeCalls.PassEnds | include/BarrierQueue.hpp:44-55 | every step of the walking worker brings the pass closer to its end, and nobody else's step sets it back |
| SharedHandle.Handle.Copy | include/SharedCoroutineHandle.hpp:41-46 | one handle more to the same frame |
| SharedHandle.Handle.Move | include/SharedCoroutineHandle.hpp:48-54 | the same number of handles, the source emptied |
| SharedHandle.Handle.Assign | include/SharedCoroutineHandle.hpp:57-67 | also for self-assignment and two handles of one frame: counts follow the handles and only a frame that lost its last one is destroyed |
| SharedHandle.Handle.MoveAssign | include/SharedCoroutineHandle.hpp:70-83 | the same for moving assignment |
| SharedHandle.Handle.Reset | include/SharedCoroutineHandle.hpp:86-98 | one handle less, destruction exactly when it was the last |
| BarrierQueue.SelectSplits | include/BarrierQueue.hpp:43-55 | a pass loses nobody and hands nobody back twice |
| BarrierQueue.SelectedByTest | include/BarrierQueue.hpp:46 | a caller is handed back exactly when its test holds |
| BarrierQueue.SelectKeepsOrder | include/BarrierQueue.hpp:43-55 | those handed back, and those that stay, keep their order in the queue |
| BarrierQueue.ReadyIsMachineTest | include/BarrierQueue.hpp:40 | the object's test is the test that LifetimeTheorems.ChildlessIsReady shows to tell whether a caller has live children |
| BarrierQueue.BarrierQueue.EmplaceBack | include/BarrierQueue.hpp:26-30 | a new caller goes to the end |
| BarrierQueue.BarrierQueue.ProcessAndExtract | include/BarrierQueue.hpp:34-56 | hands back exactly the callers whose counter is one more than their flag counts, in order, and keeps exactly the others, in order |

## Left out

- NodeTheorems.NoLostWakeUpExactly: the absence of lost wake-ups is not claimed for all lists of modes, because it is false of the code; the exact condition is stated instead.
- FinishExactly.EveryMaximalRunFinishes: assumes an orderly program, because it is false of the code for every other one (`FinishExactly.FinishesExactlyWhenOrderly`).
- BarrierRun.ContinuesAfterEverything: the scheduler and the task tree are tied by their barriers only: which frame belongs to which scheduled task, and that a task leaves its queues when its frame is destroyed, is not part of the joint machine. While a caller is suspended the dispatcher may go on with later tasks, which covers more runs than the source has.
- LifetimeTheorems.NoUseAfterFree: about frames only. The synchronous `await_suspend` reads `resourcesReady` of its own awaiter (`include/dispatchTask.hpp:44`) after the exchange of lines 40-42 has published the continuation, when the caller may already have been resumed and the awaiter destroyed; this read is not modelled.
- SerialEquivalence.ParallelIsSerial: Read and Write only, since resources hand out no other access (`include/resources.hpp:335-345`); the atomic modes take part in everything about the queue itself. Coroutines that dispatch others while holding resources are not part of the program model: they may block by design.
- ResourceNode.ResourceNode.RemoveTask: calls that do not overlap; overlapping calls are the subject of NodeMachine.
- WorkStealingDeque.Deque.Pop: calls that do not overlap; overlapping calls are the subject of DequeMachine.
- MpmcQueue.Queue.TryEmplace: calls that do not overlap; the blocking forms, which by themselves would spin for ever on a full or empty queue, are in MpmcMachine only.
- LifetimeTheorems.RootWaitsForAll: a child dispatched as finishing before its creator returns holds no parent and is not waited for. The root's own result and `InitTask::get` are not modelled.
- LifetimeTheorems.ContinuedExactlyOnce: each task object is awaited at most once and never overwritten by move assignment (`include/Task.hpp:250-255` would leave the old frame's flag set).
- LifetimeTheorems.CountFirstIsSafe: a child created by a caller is counted from the moment it holds its parent; a parked caller creates none.
- BarrierQueue.BarrierQueue.ProcessAndExtract: counters and flags stand still during the pass; LifetimeMachine interleaves them.
- Memory orderings and fences weaker than sequential consistency.
- The thread pool's loop, its choice of a victim, core pinning, thread start and stop: the deque's thieves are arbitrary.
- Coroutine machinery, templates, exceptions and allocation failure.
- The allocators under `include/alloc` and `include/CoroAllocator.hpp`.
- The examples, and the hash function of the tests, which is an uninterpreted function of what a coroutine reads.
