# Timers, events and threads of the device HAL, verified

A Dafny model of the parts of the repository that carry real invariants, with proofs of what they promise:

- the GPS timer service: the pointer-tree heap of `gps/utils/LocHeap.cpp`, the containers, messages and threads of
  `gps/utils/LocTimer.cpp`, and the shared lock of `gps/utils/LocSharedLock.h`;
- the RIL event loop of `libril/ril_event.cpp` and, on top of it, the counted wake lock and the pending requests of
  `libril/ril.cpp`;
- the shared ownership of a thread object in `gps/utils/LocThread.cpp`;
- the adapter table and the event mask of `gps/core/LocApiBase.cpp` and `gps/core/LocAdapterBase.h`;
- the list of `gps/utils/linked_list.c`.

`dafny verify dfyconfig.toml` checks everything.

## How it is built

Code that changes objects in place is a class whose methods are proved against functions on values, and the properties
are proved about those functions. Code that several threads run at once is a machine: a state, the steps that can be
taken in it (`Enabled`), what they do (`Step`), and runs (`Exec`); its theorems hold in every state of every run.

| files | what they hold |
|---|---|
| `HeapTree`, `Heap` | the heap as a value, and the class on linked nodes |
| `TimerTime`, `TimerContainer` | deadlines; one container and its three messages |
| `TimerService` | the machine of client threads, message thread and poll thread |
| `TimerClient` | the classes of clients, delegates and shared lock |
| `TimerWakeup`, `TimerPoll`, `TimerExpire`, `TimerLifetime`, `TimerCallback` | its theorems |
| `RilTime`, `RilSchedule`, `RilList`, `RilWatch`, `RilEvents` | the event loop |
| `WakeLock`, `WakeLockGlobals` | the machine of the wake lock, on the same sorted queue of timers; the functions that take its steps |
| `WakeLockRace`, `WakeLockWindows`, `WakeLockRuns` | the same machine with the callback and the sections under the mutex taken apart; exactly when that breaks a promise; runs that do |
| `WakeLockBalance` | what the runs of both add up to |
| `RequestModel`, `RequestList`, `RequestHistory` | the machine of pending requests; one list; what the state owes to the calls of the run |
| `ThreadLife`, `ThreadRuns` | the machine of one thread object; what the thread calls on its runnable |
| `EngineApi`, `AdapterTable` | the adapter table as a value, and the class |
| `ListModel`, `LinkedList` | the list as a value, and the class |

The functions that say what one step does have no contract of their own; they follow the source branch by branch:

- `HeapTree`: `Push`, `DropIn` gps/utils/LocHeap.cpp lines 107-124, `Pop` 134-164, `Remove` 170-193.
- `TimerContainer`: `Decide`, `Perform` gps/utils/LocTimer.cpp lines 281-306, `HeadDue` 383-390, `PopDue`, `Batch` 360-374.
- `TimerService`: `DoStart` gps/utils/LocTimer.cpp lines 547-565, `DoStop` 567-580 with 485-501, `DoTake` 317-321, 334-346
  and 360-367, `DoRead` 524, `DoStopClient` 526, `DoCallback` 530, `DoScan` 369 and 373, `DoRegister` and `DoSetTime` 290-303,
  `DoPoll` 377-380, `DoDelete` 184 and 345, `DoDrop` gps/utils/LocSharedLock.h line 52.
- `WakeLock`: `DoGrab` libril/ril.cpp lines 660-684, `DoRelease` 686-708, `DoFire` 348-362 and 713-731, `Request` 869-900,
  `DoProcess` libril/ril_event.cpp lines 158-180.
- `WakeLockRace`: `DoReadParam` libril/ril_event.cpp lines 207-208 and libril/ril.cpp line 353, `DoRunBody` libril/ril.cpp
  lines 713-731, the test, the reset and the free 357-361; `DoRequest` 663-673, `DoCount` 689-697, and of both sections
  the test 674 and 698, the load and `DoStore` 675 and 699, and the new pointer 677.
- `RequestModel`: `Hook`, `DoAdd` libril/ril.cpp lines 204-259, `DoAck` 511-585, `DoComplete` 511-566 and 602-658.
- `ThreadLife`: `DoParent` gps/utils/LocThread.cpp lines 65-149, `DoChild` 173-197, `DoDestroy` 151-171.
- `EngineApi`: `AddAdapter`, `RemoveAdapter` gps/core/LocApiBase.cpp lines 157-202, `SetMask`
  gps/core/LocAdapterBase.h lines 72-79, `Proc` gps/core/LocApiBase.cpp lines 96-99 and 115-117.
- `ListModel`: `Step` gps/utils/linked_list.c lines 110-204, 230-327.

## Where code and comments disagree

The model follows the code.

- gps/utils/LocHeap.cpp line 34 says that `mSize` leaves out the node itself; it counts it.
- gps/utils/LocTimer.cpp line 370 says that a delegate is deleted before `expire()` returns; it is deleted by its Remove
  message, later.
- gps/utils/LocTimer.cpp lines 289-294 disarm the timer of an empty heap; none of the three callers gets there
  (`TimerContainer.PushDecision`, `ExpireDecision`, `RemoveDecision`), so an empty heap can keep an armed timer
  (`TimerExpire.CanStayArmed`). `TimerWakeup.ArmedExactly` says for every run when a kernel timer is armed, and
  `RemoveTellsKernel` that a Remove which empties the heap never goes to the kernel.
- gps/utils/LocTimer.cpp line 367 pops the first timer whether it is due or not, and line 526 stops whatever timer the
  client has by then. So a callback can come before its deadline in two ways (`TimerExpire.CanFireEarly` and
  `CanFireEarlyAfterRestart`). `TimerCallback.EarlyCallbackExactly` says exactly when the start called back was not due
  at the clock reading of its Expire, and that there is no other way to be early.
- gps/utils/LocTimer.cpp lines 524-530 read `mClient` outside the lock, stop it, and call it back after the lock is given
  back; a client destroyed in between is used after it is gone (`TimerExpire.CanCallGoneClient` at line 526,
  `CanCallBackGoneClient` at line 530). `TimerLifetime.OnlyDestructionHurts` says for every run that the client is there
  if and only if it was not destroyed since the read. Runs in which that does not happen are called polite, and
  `NoUseAfterDelete` is about those; the other theorems on lifetime need no such thing.
- libril/ril.cpp lines 353-361 run without the mutex of lines 660-731. A grab between the read of `userParam` and line
  722 loses its lock at once (`WakeLockRuns.GrabIsStolen`); a grab between lines 357 and 358 is forgotten, and its timer
  takes a later grab's lock (`OldTimerReleases`). Lines 674-675 and 698-699 test the pointer and use it later: it can be
  null by then (`NullAfterTest`), or what was loaded can be freed (`FreedAfterLoad`). `WakeLockWindows` has the exact
  conditions, and `ApartKeepsPromises` says that runs without such grabs keep what the callback of lines 713-731 is for.
- libril/ril_event.cpp line 167 speaks of timers whose time has been reached; the loop moves those strictly before now.
- gps/utils/LocThread.h lines 75-77 promise that the runnable is deleted exactly if `start()` returns true; two races
  break that, and `ThreadLife.PromiseKeptExactly` says that they are the only ones.

## Model

| member | source | states |
|---|---|---|
| `HeapTree.TopRanksHighest` | gps/utils/LocHeap.cpp:107-124 | in an ordered tree nothing stored outranks the top, not only its children |
| `HeapTree.PushKeeps` | gps/utils/LocHeap.cpp:107-124 | push keeps order and every size exact, adds exactly the pushed element, and the top changes only to an element that outranks it |
| `HeapTree.PopKeeps` | gps/utils/LocHeap.cpp:134-164 | pop takes out exactly the top and keeps order and every size exact |
| `HeapTree.RemoveFinds` | gps/utils/LocHeap.cpp:170-193 | the search finds a stored element although it skips subtrees by rank |
| `HeapTree.RemoveKeeps` | gps/utils/LocHeap.cpp:170-193 | remove succeeds if and only if the element is stored, takes out one occurrence of it, and keeps order, sizes and, unless it was removed, the top |
| `HeapTree.PushBalanced` | gps/utils/LocHeap.cpp:116-123 | a push keeps the left subtree of every node as large as the right one or larger by one |
| `HeapTree.PushesStayBalanced` | gps/utils/LocHeap.cpp:107-124 | after any n pushes into an empty heap every node is balanced and 2^(height-1) <= n |
| `HeapTree.PopHeight` | gps/utils/LocHeap.cpp:134-164 | a pop never makes the heap higher |
| `HeapTree.RemoveHeight` | gps/utils/LocHeap.cpp:170-193 | nor does a remove |
| `HeapTree.ApplyRefines` | gps/utils/LocHeap.cpp:228-267 | each operation is a step of a priority queue on a multiset: pop returns an element that no stored one outranks |
| `HeapTree.HeapIsPriorityQueue` | gps/utils/LocHeap.cpp:197-267 | so is every step of every sequence of operations, and checkNodes holds after each |
| `Heap.HeapNode.Swap` | gps/utils/LocHeap.cpp:88-92 | the data of two nodes changes places, their links and sizes do not |
| `Heap.HeapNode.Push` | gps/utils/LocHeap.cpp:107-124 | the linked nodes afterwards hold exactly the tree the value-level push gives, in the old nodes and the new one |
| `Heap.HeapNode.DropIn` | gps/utils/LocHeap.cpp:113-123 | the choice of the subtree: a free side first, then the smaller one, the left one on a tie |
| `Heap.HeapNode.SwapWithChild` | gps/utils/LocHeap.cpp:146-155 | a child's data moves up, and what has to be popped is on top of the child |
| `Heap.HeapNode.PopLeft` | gps/utils/LocHeap.cpp:141-158 | a pop through the left child gives the value-level tree and detaches one old node |
| `Heap.HeapNode.PopRight` | gps/utils/LocHeap.cpp:141-158 | likewise through the right child |
| `Heap.HeapNode.Pop` | gps/utils/LocHeap.cpp:134-164 | the reference to the tree ends up at the value-level tree, or null for a leaf; the node handed back holds the old top |
| `Heap.HeapNode.Remove` | gps/utils/LocHeap.cpp:170-193 | the reference to the tree ends up at the value-level result, and the node handed back holds the object, or null if it is not stored |
| `Heap.HeapNode.CheckNodes` | gps/utils/LocHeap.cpp:197-220 | the recursive check answers true exactly if the tree is ordered throughout and every size is the number of nodes |
| `Heap.LocHeap.Push` | gps/utils/LocHeap.cpp:228-234 | the heap becomes the value-level push of what it was |
| `Heap.LocHeap.Peek` | gps/utils/LocHeap.cpp:237-242 | the top, or none of an empty heap |
| `Heap.LocHeap.Pop` | gps/utils/LocHeap.cpp:245-253 | heap and result are those of the value-level pop |
| `Heap.LocHeap.Remove` | gps/utils/LocHeap.cpp:256-267 | heap and result are those of the value-level remove |
| `TimerTime.RanksIsEarlier` | gps/utils/LocTimer.cpp:503-517 | on normalised times below 2^31 seconds the int rank is positive exactly for the earlier deadline and 0 exactly for the same one |
| `TimerTime.RanksOverflows` | gps/utils/LocTimer.cpp:509 | for all normalised times from 2^31 up to 2^32 seconds apart the truncation to int ranks the earlier one lower; the later one ranks higher beyond exactly 2^31 |
| `TimerTime.FutureTimeExact` | gps/utils/LocTimer.cpp:551-558 | start's carry gives a normalised time exactly timeOutInMs milliseconds ahead |
| `TimerContainer.OutRanksOrders` | gps/utils/LocTimer.cpp:503-517 | outRanks on timers is a strict weak order, as the heap needs |
| `TimerContainer.HeadIsEarliest` | gps/utils/LocTimer.cpp:272-274 | no stored timer is due before the head |
| `TimerContainer.PushDecision` | gps/utils/LocTimer.cpp:317-321 | a push either leaves a head the kernel already knows or arms for the new head; it never disarms |
| `TimerContainer.RemoveDecision` | gps/utils/LocTimer.cpp:334-343 | likewise for a remove: it tells the kernel the new head exactly if the old one went |
| `TimerContainer.ExpireDecision` | gps/utils/LocTimer.cpp:373-373 | likewise after an expiry |
| `TimerContainer.RemovedIsTop` | gps/utils/LocTimer.cpp:339-339 | the test of the source, whether the removed object is the prior top, is true exactly if the head changes or both are null |
| `TimerContainer.BatchExact` | gps/utils/LocTimer.cpp:360-374 | an Expire pops, in order of deadlines, exactly the due timers if any is due and otherwise just the head; what is left is in the future, and popped plus left is the old content |
| `TimerContainer.Container.UpdateSoonestTime` | gps/utils/LocTimer.cpp:281-306 | for a head due before the prior one, or without a prior one, the kernel timer is set to its deadline and polled; for a head not before it nothing changes; with an empty heap it is disarmed, unless there was no prior one |
| `TimerContainer.Container.ProcPush` | gps/utils/LocTimer.cpp:317-321 | the heap after a Push message; if the kernel timer was set for the head and polled, or the heap was empty, it is so afterwards |
| `TimerContainer.Container.ProcRemove` | gps/utils/LocTimer.cpp:334-346 | likewise after a Remove message; a heap that is then empty leaves the kernel timer alone |
| `TimerContainer.Container.ProcExpire` | gps/utils/LocTimer.cpp:360-374 | the loop expires exactly the batch, in order, and leaves exactly its rest; whatever the kernel timer was, it is then set for the new head and polled |
| `TimerContainer.Container.PopIfOutRanks` | gps/utils/LocTimer.cpp:383-390 | the head is popped exactly if it is due at now |
| `TimerWakeup.NoLostWakeup` | gps/utils/LocTimer.cpp:281-381 | in every state of every interleaving, a container with timers has its kernel timer set to exactly the head's deadline and polled, or the message thread is doing that, or an Expire is in flight |
| `TimerWakeup.NeverSleepsPastHead` | gps/utils/LocTimer.cpp:446-470 | with nothing queued and nothing under way, the poll thread can wake exactly when the head is due |
| `TimerWakeup.OnlyPollDisarms` | gps/utils/LocTimer.cpp:281-306 | at every step of every run a kernel timer is armed afterwards if and only if the message thread has just set it, or it was armed and this is not the poll thread's disarming |
| `TimerWakeup.ArmedExactly` | gps/utils/LocTimer.cpp:281-306 | in every run a kernel timer is armed if and only if the message thread set it after the poll thread last disarmed it |
| `TimerPoll.PolledExactly` | gps/utils/LocTimer.cpp:281-306 | in every run a kernel timer is polled if and only if the message thread registered it after the poll thread last took it out |
| `TimerPoll.EveryWakeExpires` | gps/utils/LocTimer.cpp:446-470 | in every run, for each container: its Expires taken, queued and still to be sent are as many as the wake-ups that returned its event |
| `TimerWakeup.RemoveTellsKernel` | gps/utils/LocTimer.cpp:334-346 | in every run a Remove goes to the kernel if and only if the head went and another timer is left; otherwise the kernel timer stays as it is |
| `TimerExpire.InterleavedExpireIsBatch` | gps/utils/LocTimer.cpp:360-374 | whatever other threads do while an Expire is handled, it expires the batch of the heap and clock it started with, and leaves its rest |
| `TimerExpire.CanFireEarly` | gps/utils/LocTimer.cpp:367-367 | a run in which the popped head is called back before its deadline |
| `TimerExpire.CanFireEarlyAfterRestart` | gps/utils/LocTimer.cpp:520-532 | a run in which a due timer is popped, its client restarts after the read, and the new start is ended and called back before its deadline while its Push is still queued |
| `TimerExpire.CanStayArmed` | gps/utils/LocTimer.cpp:281-306 | a run to a state with an empty heap in which neither the message thread nor the poll thread can take a step, and the kernel timer is set to the future and polled |
| `TimerExpire.CanCallGoneClient` | gps/utils/LocTimer.cpp:524-526 | a run in which expire() is about to stop a client that is gone |
| `TimerExpire.CanCallBackGoneClient` | gps/utils/LocTimer.cpp:526-530 | a run in which stop() has returned and expire() is about to call back a client that is gone |
| `TimerCallback.CallbackTarget` | gps/utils/LocTimer.cpp:520-532 | in every run, the start that an expiry ends and calls back is the popped timer's, if and only if the client has not started that one since expire() read mClient |
| `TimerCallback.EarlyCallbackExactly` | gps/utils/LocTimer.cpp:360-372 | over all runs, the start an expiry calls back was not due at the clock reading of its Expire if and only if nothing in the heap was, or, when the client restarted since the read, that start had a delay or the clock had moved; what is early even when it is called back is one of the two |
| `TimerCallback.EarlyWithDelays` | gps/utils/LocTimer.cpp:360-372 | when every start asks for a delay: not due at that reading if and only if the client restarted since the read or nothing in the heap was due |
| `TimerLifetime.NoUseAfterDelete` | gps/utils/LocTimer.cpp:308-350 | in every polite run no step touches a deleted delegate, neither stop() nor the callback is called on a client that is gone, and no delegate is deleted twice |
| `TimerLifetime.OnlyDestructionHurts` | gps/utils/LocTimer.cpp:520-532 | in every run, whenever expire() is about to stop or to call back a client, the client is there if and only if it was not destroyed since expire() read mClient |
| `TimerLifetime.LockCounts` | gps/utils/LocSharedLock.h:42-57 | in every run the count of a shared lock is its living client plus its undeleted delegates; it is freed once, exactly when none is left |
| `TimerLifetime.StartAccounting` | gps/utils/LocTimer.cpp:520-580 | in every run a start is ended at most once; once the callback it is owed is made, it ran once if an expiry ended the start and never if a client did; until it is ended it is on its way to its expiry, and afterwards its delegate is on its way to being deleted |
| `TimerLifetime.DeletedByOwnRemove` | gps/utils/LocTimer.cpp:334-346 | in every run, when a delegate is about to be deleted its own Remove has been taken, once, its start is ended, and it is in no heap and named by no queued message |
| `TimerLifetime.DeletesAreRemoves` | gps/utils/LocTimer.cpp:334-346 | in every run the deletes of a delegate are the Remove messages taken for it, at most one |
| `TimerClient.LocTimer.Start` | gps/utils/LocTimer.cpp:547-565 | refused exactly while a timer runs, with nothing changed; otherwise a new delegate exactly timeOutInMs ahead, one more user of the lock and one Push message; client, delegate and queue go through the machine's start |
| `TimerClient.LocTimer.Stop` | gps/utils/LocTimer.cpp:567-580 | true exactly if a timer ran; then it forgets its client and its one Remove message is sent; client, delegate and queue go through the machine's stop |
| `TimerClient.LocTimer.Destroy` | gps/utils/LocTimer.cpp:539-545 | the timer is stopped and the client gives up its use of the lock, as in the machine's two steps |
| `TimerClient.TimerDelegate.constructor` | gps/utils/LocTimer.cpp:475-482 | the delegate knows its client, shares its lock and sends its Push message |
| `TimerClient.TimerDelegate.DestroyLocked` | gps/utils/LocTimer.cpp:485-501 | client and container are forgotten, and Remove is sent at most once |
| `TimerClient.TimerDelegate.Delete` | gps/utils/LocTimer.cpp:184-184 | the delegate's use of the lock ends with it |
| `TimerClient.TimerDelegate.Expire` | gps/utils/LocTimer.cpp:520-532 | for a client not destroyed meanwhile: the timer it has is stopped, its callback is made exactly if there was one, and both go through the machine's steps |
| `TimerClient.SharedLock.Share` | gps/utils/LocSharedLock.h:50-50 | one more user |
| `TimerClient.SharedLock.Drop` | gps/utils/LocSharedLock.h:52-52 | one user less, freed exactly when it was the last, as the machine's drop |
| `RilTime.BeforeIsLess` | libril/ril_event.cpp:48-54 | timercmp on normalised timevals is the order of the times |
| `RilTime.AddSub` | libril/ril_event.cpp:37-66 | timeradd and timersub are exact and undo each other |
| `RilSchedule.LeadingUnique` | libril/ril_event.cpp:170-177 | the first timer that is not before a bound is determined, however it is found |
| `RilSchedule.InsertKeepsSorted` | libril/ril_event.cpp:302-307 | inserting in front of the first timer that is not earlier keeps the list sorted |
| `RilList.InitList` | libril/ril_event.cpp:104-110 | the head becomes an empty circular list with fd -1 and a zero timeout |
| `RilList.AddToList` | libril/ril_event.cpp:112-119 | ev stands in front of the given event or head, and every pair of neighbours is linked both ways |
| `RilList.RemoveFromList` | libril/ril_event.cpp:121-131 | exactly the event is taken out, the list closes over it, and its own links are null |
| `RilList.Drain` | libril/ril_event.cpp:202-213 | every event of the list is called once, in order, and the list is empty |
| `RilWatch.WatchTable.Add` | libril/ril_event.cpp:265-283 | the event gets the first free slot, or nothing changes when the table is full; readFds stays the set of watched descriptors and nfds one more than the largest |
| `RilWatch.WatchTable.Largest` | libril/ril_event.cpp:144-153 | the recomputation loop ends at the largest watched descriptor, or 0 |
| `RilWatch.WatchTable.RemoveWatch` | libril/ril_event.cpp:134-156 | slot, descriptor and index are cleared, and readFds and nfds stay exact |
| `RilWatch.WatchTable.Del` | libril/ril_event.cpp:315-329 | an event without a slot is left alone; otherwise as removeWatch |
| `RilWatch.PickedExact` | libril/ril_event.cpp:182-197 | the events made ready are those of the reported slots |
| `RilWatch.PickedInOrder` | libril/ril_event.cpp:187-197 | of two events made ready, the one in the lower slot comes first |
| `RilWatch.CountedAll` | libril/ril_event.cpp:187-197 | counting down from select's number stops the loop early only when every reported descriptor has been found |
| `RilEvents.FindPlace` | libril/ril_event.cpp:302-306 | the walk stops at the first timer not before t, or at the head |
| `RilEvents.MoveDue` | libril/ril_event.cpp:165-177 | the loop moves exactly the leading timers before now, in order, and both lists stay well formed and disjoint |
| `RilEvents.EventLoop.constructor` | libril/ril_event.cpp:241-249 | empty lists, an empty table, an empty set and bound 0 |
| `RilEvents.EventLoop.EventAdd` | libril/ril_event.cpp:265-283 | watching an event leaves the lists alone and keeps the whole loop coherent |
| `RilEvents.EventLoop.EventDel` | libril/ril_event.cpp:315-329 | likewise for the end of watching |
| `RilEvents.EventLoop.TimerAdd` | libril/ril_event.cpp:286-312 | the timer gets now plus tv as deadline and stands in front of the first one not earlier; a null tv does nothing |
| `RilEvents.EventLoop.ProcessTimeouts` | libril/ril_event.cpp:158-180 | exactly the timers strictly before now become pending, in order, and no event is lost or doubled |
| `RilEvents.EventLoop.ProcessReadReadies` | libril/ril_event.cpp:182-200 | exactly the watched events whose descriptor select reported become pending, in table order; exactly those of them that are not persistent lose their slot |
| `RilEvents.EventLoop.FirePending` | libril/ril_event.cpp:202-213 | every pending event is called once, in order |
| `RilEvents.EventLoop.CalcNextTimeout` | libril/ril_event.cpp:215-238 | no timeout without timers; zero if some timer is due; otherwise the exact time to the earliest of all timers, so select never sleeps past one |
| `RilEvents.EventLoop.RunPass` | libril/ril_event.cpp:377-382 | one pass calls the due timers in order and then the ready events in table order, each once, and leaves the rest |
| `WakeLock.WakeLockInvariant` | libril/ril.cpp:660-731 | in every state of every run the lock is held exactly while the count is positive; while held, the timer of the latest grab is the one uncancelled wake timer and is s_last_wake_timeout_info; that pointer is null or points to a timer not yet freed |
| `WakeLock.WakeLockBounded` | libril/ril.cpp:660-731 | once a pass has ended whose clock reading is more than 200 ms after the latest grab, the lock is not held |
| `WakeLock.NeverTimesOutEarly` | libril/ril.cpp:713-731 | a timer takes the lock away only in a pass that read the clock more than 200 ms after the latest grab |
| `WakeLockBalance.CountExact` | libril/ril.cpp:660-708 | in every run the count is the number of grabs that no release and no timer has matched; the lock is held exactly while there is one, and a release gives it up exactly if it matches the last |
| `WakeLockBalance.RaceCountExact` | libril/ril.cpp:660-731 | the same with callbacks and sections taken apart |
| `WakeLockBalance.EveryTimerOnce` | libril/ril.cpp:869-900 | in every run each timer requested waits once, or has been called once and is gone |
| `WakeLockRace.RaceStaysBounded` | libril/ril.cpp:660-731 | with callbacks and sections taken apart, in every run: held exactly while the count is positive, the pointer null or not freed, and not held once a pass has ended more than 200 ms after the latest grab |
| `WakeLockWindows.UncancelledExactly` | libril/ril.cpp:660-684 | in every run with no section under way, an uncancelled wake timer is the pointer's, and the latest grab's, if and only if the pointer to it was not set between the test and the reset of a callback |
| `WakeLockWindows.StealsExactly` | libril/ril.cpp:713-731 | in every run a callback that takes the lock takes that of a later grab exactly when one came since its userParam was read, or, if its own was lost to a reset, when one came at all; otherwise its pass read the clock more than 200 ms after the latest grab |
| `WakeLockWindows.EarlyReleaseExactly` | libril/ril.cpp:713-731 | what is taken in a pass not more than 200 ms after the latest grab is the lock of a later grab whose timer is still waiting, and the other way round |
| `WakeLockWindows.LoadsNullExactly` | libril/ril.cpp:674-675 | in every run a section that found the pointer not null loads null if and only if a callback reset it since the test |
| `WakeLockWindows.StoresIntoFreedExactly` | libril/ril.cpp:675-675 | in every run the info a section is about to store into is freed if and only if that happened since the load |
| `WakeLockWindows.ApartKeepsPromises` | libril/ril.cpp:348-362 | in every run with no grab under way between a callback's read of userParam and its section, or between its test and its reset: one uncancelled wake timer at most, the latest grab's and the pointer's, and no lock taken within 200 ms |
| `WakeLockRace.UndisturbedCallback` | libril/ril.cpp:348-362 | with nothing in between, the parts of a callback make the one step of the simpler machine |
| `WakeLockRace.UndisturbedSections` | libril/ril.cpp:660-708 | so do the parts of a grab and of a release |
| `WakeLockRuns.GrabIsStolen` | libril/ril.cpp:714-725 | a run in which a grab between the read of userParam and the mutex loses its lock at once |
| `WakeLockRuns.OldTimerReleases` | libril/ril.cpp:357-359 | a run in which a grab between the test and the reset of the pointer is forgotten, and its timer takes a later grab's lock away after 100 ms |
| `WakeLockRuns.NullAfterTest` | libril/ril.cpp:674-675 | a run in which a grab loads null right after it found the pointer not null |
| `WakeLockRuns.FreedAfterLoad` | libril/ril.cpp:675-675 | a run in which a grab is about to store into an info that is freed |
| `WakeLock.RequestKeeps` | libril/ril.cpp:869-900 | a requested timer is new, lands in its place, and leaves the others in order |
| `WakeLockGlobals.Globals.GrabPartialWakeLock` | libril/ril.cpp:660-684 | held, one more counted, a fresh uncancelled info as s_last_wake_timeout_info and the former one cancelled; and that is the machine's grab |
| `WakeLockGlobals.Globals.ReleaseWakeLock` | libril/ril.cpp:686-708 | one less counted, or the lock released at the last one and its timer cancelled; and that is the machine's release |
| `WakeLockGlobals.Globals.UserTimerCallback` | libril/ril.cpp:348-362 | an uncancelled wake timer releases the lock whatever the count, any other leaves it; the pointer is reset exactly if it is this info, which is freed; and that is the machine's callback |
| `WakeLockGlobals.Globals.RequestTimedCallback` | libril/ril.cpp:869-900 | a fresh info with a null userParam joins the queue at its place |
| `RequestModel.CompletedAtMostOnce` | libril/ril.cpp:511-658 | in every run no request is completed twice; each one ever added is completed or stands once in the list of its own slot, never both |
| `RequestModel.ResponseTypeExact` | libril/ril.cpp:602-658 | a completed request got one response exactly if neither local nor cancelled; it expects an ack exactly if the version is 13 or later and an ack had been accepted |
| `RequestModel.AcceptedExactly` | libril/ril.cpp:568-610 | acks and completions are accepted exactly for requests not yet completed; acks change no list |
| `RequestHistory.HistoryExact` | libril/ril.cpp:204-610 | in every run the requests are those added and supported, in order; one is completed exactly if its completion was reported, its flags are the last set, and its ack counts exactly if reported before |
| `RequestHistory.SlotExact` | libril/ril.cpp:204-259 | in every run a request stands in the list of its own slot, or the first one if that is not configured, exactly until its completion is reported, and in no other |
| `RequestList.ChooseHook` | libril/ril.cpp:214-232 | the conditionals on the socket choose the list of the slot itself if it is configured, and the first list otherwise |
| `RequestList.PendingList.Push` | libril/ril.cpp:249-256 | the request stands at the front of the list |
| `RequestList.PendingList.Unlink` | libril/ril.cpp:557-557 | the link in front of the request skips it |
| `RequestList.PendingList.CheckAndDequeueIfAck` | libril/ril.cpp:511-566 | 1 exactly if the request is listed; an ack marks it and leaves the list, anything else takes out exactly it |
| `ThreadLife.FreedOnceByTheLast` | gps/utils/LocThread.cpp:128-171 | over all interleavings nobody touches a freed delegate, and it is freed at most once, exactly when parent and child are both through with it |
| `ThreadLife.AtMostOneMoreRun` | gps/utils/LocThread.cpp:128-142 | after stop() has reset mRunnable at most one more run() begins |
| `ThreadLife.StopJoins` | gps/utils/LocThread.cpp:143-149 | the owner of a joinable thread gets to destroy() only after threadMain() has ended |
| `ThreadLife.PromiseKeptExactly` | gps/utils/LocThread.cpp:109-200 | the runnable is deleted exactly if start() returned true if and only if neither the child had left its loop when the parent came to line 114 nor stop() came before line 177; it is never deleted twice |
| `ThreadLife.FastChildFailsStart` | gps/utils/LocThread.cpp:109-121 | a run in which start() returns false although the thread ran and deleted the runnable |
| `ThreadLife.EarlyStopKeepsRunnable` | gps/utils/LocThread.cpp:173-197 | a run in which start() returns true and the runnable is never deleted |
| `ThreadRuns.LoopExactly` | gps/utils/LocThread.cpp:173-197 | in every run each run() that has returned, but for one that ended the loop, returned true; the child is past its loop exactly if one returned false or mRunnable was found null, never both; a run() begins only if all before returned true |
| `ThreadRuns.AroundTheLoop` | gps/utils/LocThread.cpp:173-197 | prerun() at most once and before any run(), postrun() at most once and only after a false; without a stop() both were called when the runnable is deleted |
| `ThreadRuns.StartReturnsExactly` | gps/utils/LocThread.cpp:109-121 | start() returns true exactly if the thread was created and had not left its loop before line 114 |
| `ThreadRuns.ByeLeavesRunning` | gps/utils/LocThread.cpp:128-149 | mRunnable is null when stop() comes to the join; on a detached thread only stop() resets it, so bye() leaves it running |
| `EngineApi.EngineInStep` | gps/core/LocApiBase.cpp:89-207 | in every run the table holds each adapter once, at most ten; while it is not empty a message is queued or the engine was last opened with the current mask |
| `EngineApi.TableIsSet` | gps/core/LocApiBase.cpp:157-202 | each operation does to the adapters of the table what it would do to a set, until the table is full |
| `EngineApi.MaskExact` | gps/core/LocApiBase.cpp:135-142 | an event is in the mask exactly if it is not excluded and some adapter wants it |
| `EngineApi.LastRemovalExactly` | gps/core/LocApiBase.cpp:190-197 | after the last adapter is removed the engine stays closed if and only if no message was queued; otherwise it is opened again with an empty mask |
| `EngineApi.CallsExact` | gps/core/LocApiBase.cpp:89-124 | in every run the engine is opened once for each message handled and closed once for each Ssr handled and each last removal; an Ssr closes it before it opens it with the current mask |
| `EngineApi.OpenWithoutAdapters` | gps/core/LocApiBase.cpp:115-117 | a run that ends with the engine open and no adapter |
| `AdapterTable.LocApi.AddAdapter` | gps/core/LocApiBase.cpp:157-166 | a new adapter goes to the end of the prefix and an Open message is sent, unless it is known or the table is full; as the value-level addition |
| `AdapterTable.LocApi.RemoveAt` | gps/core/LocApiBase.cpp:173-191 | the last adapter takes the place of the removed one, and nothing else moves |
| `AdapterTable.LocApi.RemoveAdapter` | gps/core/LocApiBase.cpp:168-202 | exactly the adapter goes; the engine is closed if it was the last and an Open message is sent otherwise; as the value-level removal |
| `AdapterTable.LocApi.GetEvtMask` | gps/core/LocApiBase.cpp:135-142 | the loop's mask has exactly the events that are not excluded and some adapter wants |
| `AdapterTable.LocApi.UpdateEvtMask` | gps/core/LocAdapterBase.h:72-79 | the adapter's mask gains or loses the event, and an Open message is sent |
| `AdapterTable.LocApi.HandleEngineUp` | gps/core/LocApiBase.cpp:209-218 | an Ssr message is sent, and every adapter of the table is told once |
| `AdapterTable.LocApi.ProcNext` | gps/core/LocApiBase.cpp:89-124 | the next message opens the engine with exactly the events wanted at that moment, after a close for an Ssr |
| `ListModel.EveryDataOnce` | gps/utils/linked_list.c:110-327 | after every run what the additions were given, with their dealloc functions, is in the list, handed out, deallocated or abandoned, and only one of these; everything deallocated had a dealloc function and nothing abandoned had one |
| `ListModel.AddRemoveIsFifo` | gps/utils/linked_list.c:110-204 | added data joins the queue at its end and removed data leaves it at its front |
| `ListModel.FirstInFirstOut` | gps/utils/linked_list.c:110-204 | data added to an empty list is removed in the same order |
| `ListModel.FlushAccounts` | gps/utils/linked_list.c:230-260 | a flush keeps every element accounted for |
| `ListModel.FlushFrees` | gps/utils/linked_list.c:230-260 | a flush empties the list, hands nothing out, and deallocates what Freed lists, from the head on |
| `ListModel.FreedExact` | gps/utils/linked_list.c:240-250 | what is deallocated is exactly what was added with a dealloc function |
| `ListModel.FreedInOrder` | gps/utils/linked_list.c:240-250 | and it is deallocated in the order of the list |
| `LinkedList.List.LinkHead` | gps/utils/linked_list.c:139-152 | the new element is the head, and every link, head and tail fit |
| `LinkedList.List.CutTail` | gps/utils/linked_list.c:183-195 | the tail element goes, and every link, head and tail fit |
| `LinkedList.List.Unlink` | gps/utils/linked_list.c:297-310 | the found element goes, and links on both sides, head and tail are mended |
| `LinkedList.List.Add` | gps/utils/linked_list.c:110-155 | a null datum is refused; otherwise it stands at the head with the dealloc function it was given |
| `LinkedList.List.Remove` | gps/utils/linked_list.c:162-204 | the datum at the tail, or the error of a null argument or an empty list, with nothing changed |
| `LinkedList.List.Empty` | gps/utils/linked_list.c:211-223 | 1 exactly for an empty list |
| `LinkedList.List.Flush` | gps/utils/linked_list.c:230-260 | the list is empty, and the dealloc functions were called for exactly the right data, from the head on |
| `LinkedList.List.Search` | gps/utils/linked_list.c:267-327 | the first match from the head is copied out or removed as asked and nothing else leaves; dealloc is called only for data not copied out, and an empty list leaves the caller's pointer untouched |

## Left out

- System calls: epoll, timerfd, select, pthread and the clocks are abstract state, steps or parameters; that a full timer queue, allocation or `epoll_ctl` fails is not modelled.
- Interleaving: threads share the objects of the timer service, of `LocThread` and of the wake lock, so the theorems on runs are about machines on values whose steps are the critical sections or field accesses; `TimerClient` and `WakeLockGlobals` have the classes, each method undisturbed; `LocThread` is the machine alone.
- Message queue: `msg_q` is not part of this model; it is taken to be first in, first out.
- Containers of the timer service: they exist from the start; their creation on first use is left out.
- Widths: `mSize`, `mRef`, counts and identifiers are unbounded; the boot clock is taken to be positive with seconds below 2^31, which `RanksOverflows` shows to matter.
- CLOCK_MONOTONIC fallback, `LocTimerWrapper` and the test programs of the sources are left out.
- Event callbacks: those of one pass are called in the order listed; what they change in the loop is a later call.
- Watch table: descriptors are non-negative and each is watched by one event, as the callers see to.
- Wake lock: RIL version 13 or later and allocation succeeds; in `WakeLock` a timer callback and a section under the mutex are one step each, which hides the runs of `WakeLockRuns`; in `WakeLockRace` they are not, but a section up to its test of the pointer is, since what comes before touches no pointer, and what a store through null or into a freed info does is not modelled.
- Requests: the call of `responseFunction` and the radio service are left out, and so is the wake lock a completion grabs; a token is null or was handed out once, and reading the socket of a freed request is taken to give what it held.
- Threads: `LocThread` is driven by one parent, and one delegate is followed from its creation to its end.
- Adapter table: its operations are taken one at a time, although nothing in LocApiBase.cpp locks the table.
- `TimerClient.TimerDelegate.Expire`: takes the client to be there throughout, because a method of that class has one thread; `TimerLifetime.OnlyDestructionHurts` says when it is.
- `AdapterTable.LocApi.HandleEngineUp`: leaves out `LocDualContext::injectFeatureConfig`, which does not touch the table or the mask.
- Callbacks of timers: what a client does in `timeOutCallback()` is not modelled, except that it may start, stop or be destroyed as it may at any other time; what a call on a client that is gone does is not modelled either.
- Masks: an event mask is the set of its bits, so that or is union and and-not is difference.
- Linked list: the null handle and a failing allocation are left out; `linked_list_destroy` is a flush and a free.
- HIDL marshalling, the SAP service, singletons and `dlopen`, logging and number parsing, lights, thermal, touch and audio: no state worth an invariant, or only easier versions of the above.
