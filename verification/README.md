# SmallWin engine, task registry and event monitor: a verification model

SmallWin is a message engine for small windows: clients create windows and send them messages through one
bounded queue, a dispatcher thread pops the messages and runs the windows' handlers, and a ticker thread sends
periodic messages for up to 32 tick slots. Below it sits a thin layer over POSIX with a task registry and an
event object. This project models these parts and proves what they promise. `dafny verify dfyconfig.toml` checks
all of it.

## How the model is built

- **Values first.** `Messages`, `Rings`, `TickSlots` and `TaskSlots` define the queue's ring buffer, the tick
  slots and the task slots as values, with the code's arithmetic: 16-bit indices, 32-bit counters, 64-bit ids.
- **Classes refine them.** `MessageQueue`, `WindowList`, `TickTable` and `TaskTable` update arrays, links and
  fields in place, as the C code does. Their contracts tie each operation to the value layer.
- **One step system for the engine.** `Engine` interleaves any number of client threads, the ticker and the
  dispatcher. A step is one semaphore operation, or one stretch of code between two of them; the push is split
  further into its slot write, its signal and its tail move. Handlers run on the dispatcher's stack and may send,
  pop, create, erase, set ticks and express messages, to any depth. An event log records what happened.
- **Invariants by concern.** `EngineLocks`, `EngineDeadlock`, `EngineQueue`, `EngineTicks`, `EngineTiming`,
  `EngineClosing`, `EngineNesting`, `EngineCreation` and `EngineDispatch` each prove one invariant for every step.
  `EngineCalls` shows that each library call takes effect at one step, `EngineVisits` what the ticker does to a slot,
  and `EngineOrigins` where each event comes from; `EngineRuns` states the results over whole runs. `EnginePaths`
  builds runs of one thread at a time, from which `EngineNesting` and `EngineDuplicates` make the runs in which
  something goes wrong.
- **Two smaller step systems.** `TaskRuns` lets creations, endings and thread-id reuse interleave; `EventMonitor`
  does so for waits, sets, resets, spurious wake-ups and timeouts.

## What the code does not keep

Some promises hold only under a condition. The code is modelled as it is; each condition is proved to be exact.

- `sm_destroy_tick` ends by locking again where an unlock is evidently meant (`src/sk_sm/smtick.c:130-133`). The
  flag `relocks` selects the text as written or the unlock; the results hold for either. As written, the tick lock
  is lost exactly when a call has been through its critical section (`RunSelfLockIff`), for ever, and the caller
  hangs (`RunSelfLocked`). Deadlock freedom as written is promised to programs that do not call it
  (`RunDeadlockFree`); when the engine is stuck otherwise is `RunStuckIff`.
- A handler that expresses `SMM_CLOSE` to its own window while handling `SMM_CLOSE` makes the node be unlinked
  and freed twice (`NestedCloseUnlinksTwice`), and only that does (`RunUnlinkedTwiceIff`). The step system
  logs the second unlinking and leaves the list alone; after it the program's memory is undefined, so no claim
  carries over to the program past such an event.
- With more than 32766 messages of capacity the 16-bit indices leave the buffer (`IndexBound`).
- Tick thresholds above 4294967200 are not reached on time, because the product wraps (`DueOnTimeIff`).
- A tick slot with a `param2` of its own is checked for its count but sends `param2`. For thresholds of at
  least 1, ticks are de-duplicated exactly when `param2` is 0 or the count at which the slot fires
  (`TicksDistinctIff`), which for thresholds reached on time is the period in rounds (`AgreesIff`).
- A thread's search for its own slot can land on a slot that an unfinished creation holds, when that slot carries
  the same thread id from before (`ScanIff`, `ScanMisled`). It then runs another task's function and frees the
  wrong slot, and name lookup and later threads go wrong too (`MisledSpreads`). Until such a search they are right
  (`RunNameFindsLive`, `RunOwnFunction`), and a run is free of it exactly when every search so far has found its
  own slot (`ScansIff`).
- Event waits that leave the bit set overcount (`ConservedIff`), and these or timed waits can leave another
  waiter asleep beside a set bit (`NoLostSignalIff`).

## Assumptions

- Window handles are abstract and never reused: an allocation returns 0 or a handle that no call has named. The
  code casts pointers to a 32-bit `HSM` and frees a node before it erases the node's messages, so a reused
  address could blank a new window's messages. That is not modelled.
- Waits on the binary semaphores do not fail; a wait on `sem_event` may fail at any time, and its result is
  ignored as in the code. `sem_event` does not overflow.
- `express_message` is called from the dispatcher thread, inside a handler. The membership walk of
  `sm_is_smallwin`, which takes no lock, is one step.
- `SK_ASSERT` only prints, so erase operations with handle 0 are allowed.
- Tasks: one `sk_task_create` at a time, split at its critical sections; `pthread_create` returns a thread id
  that no unreaped thread has. Freeing a slot, with its test of the in-use flag, is one step.
  `MAX_OS_NAME_NUM` is 60 and ids are 64 bits wide, as on Linux.
- Event waits may wake spuriously, and a timed-out wait may consume a signal sent at the same moment, as POSIX
  allows for `pthread_cond_timedwait`.

## Model

| member | source | states |
|---|---|---|
| EngineRuns.RunInv | src/sk_sm/smmsg.c:45-222 | every state of every interleaving of clients, ticker and dispatcher satisfies the engine's whole invariant: locks, tokens, FIFO, ticks, closing, creation, dispatch |
| EngineRuns.RunTokens | src/sk_sm/smmsg.c:53-113 | token accounting: sem_event plus the consumers holding a token, less the queued and announced messages, is exactly the number of completed pops whose wait failed |
| EngineRuns.RunNoLostWakeup | src/sk_sm/smmsg.c:69-110 | with messages queued, a token is free or in the hands of a consumer on its way to pop |
| EngineRuns.RunPopFindsMessage | src/sk_sm/smmsg.c:96-110 | while no wait on sem_event fails, no pop ever takes the branch for an empty queue |
| EngineRuns.FailedWaitFindsNothing | src/sk_sm/smmsg.c:107-110 | a run of three steps with one failed wait that ends in a pop on an empty queue, so that hypothesis is needed |
| EngineRuns.RunFifo | src/sk_sm/smmsg.c:45-113 | popped messages followed by queued ones are the accepted pushes, position by position, each itself or blanked while still queued; every accepted or refused push is, to the field, that of its thread's own send_message or creation, or the tick of the slot the ticker visits |
| EngineRuns.RunCall | src/sk_sm/smmsg.c:45-222 | every send, pop, erase, search, tick setting and tick destruction has, between its call and its return, its effect on queue, windows, slots and log at exactly one of its steps, stated field by field, and no other; a push is refused exactly when size - 1 messages are queued |
| EngineRuns.RunCreation | src/sk_sm/smscheduler.c:119-145 | a creation either gets no memory and does nothing, or appends its window to the list at one step and pushes exactly its SMM_CREATE at one later step |
| EngineRuns.RunDispatch | src/sk_sm/smscheduler.c:186-209 | while only the dispatcher pops: messages handled, in hand and queued are together the accepted pushes, each once and in order |
| EngineRuns.StuckMeansEmpty | src/sk_sm/smmsg.c:93-110 | for either text of sm_destroy_tick: if nothing in progress can move and the tick lock is not lost, everything waits for messages, and the queue is empty and holds no token |
| EngineRuns.RunDeadlockFree | src/sk_sm/smtick.c:51-72 | in every state of every run some thread can go on, unless all that is in progress is consumers of an empty queue; with sm_destroy_tick as written, for programs that have not called it |
| EngineRuns.RunSelfLockIff | src/sk_sm/smtick.c:128-134 | in every state of every run the tick lock is lost to its own holder if and only if sm_destroy_tick, as written, has been through its critical section |
| EngineRuns.RunStuckIff | src/sk_sm/smtick.c:128-134 | for either text, in every state of every run: stuck exactly when all that is in progress is consumers without a token and, once the lock is lost that way, threads that want the tick lock |
| EngineRuns.RunSelfLocked | src/sk_sm/smtick.c:128-134 | once the tick lock is lost it keeps its holder in the rest of the run, and that thread never moves again |
| EngineRuns.RunTicksDistinct | src/sk_sm/smtick.c:51-72 | while only the ticker sends SMM_TICK and every slot's param2 agrees with its period, no two queued ticks agree on window, slot and count |
| EngineRuns.TicksDistinctIff | src/sk_sm/smtick.c:56-65 | over all runs whose ticks are set for threshold n with param2 p: no tick is ever queued twice if and only if p is 0 or the count at which n is reached |
| EngineRuns.RunOneTickPending | src/sk_sm/smtick.c:51-72 | a slot only ever set for a window with one nonzero period has at most one tick of it in the queue |
| EngineRuns.RunTickTiming | src/sk_sm/smtick.c:51-115 | in every run, whatever other threads do: a tick set for a period of at most 4294967200 and not destroyed since has, after t visits of the ticker, the count (t-1) mod c + 1 and has been due (t-1) div c times, each time with c in the counter |
| EngineRuns.RunVisit | src/sk_sm/smtick.c:56-70 | a visit that finds a slot due looks once for the slot's tick; if it is queued nothing is sent, if not exactly one tick is, with the slot's window, SMM_TICK, its number, and its param2 or count |
| EngineRuns.RunRound | src/sk_sm/smtick.c:51-72 | each round visits each of the 32 slots exactly once |
| EngineRuns.RunDestroyedTick | src/sk_sm/smtick.c:128-134 | from the critical section of sm_destroy_tick until its slot is set again, the slot is free, is never found due, and the ticker pushes no tick with its number |
| EngineRuns.RunEvents | src/sk_sm/smscheduler.c:67-117 | handlers start exactly for live windows, those outside the queue exactly with the message expressed; activations nest like brackets and the list is in creation order; messages are passed over exactly when blank or dead; SMM_CLOSE ends only after unlink then erase; a second unlink comes only after a nested SMM_CLOSE |
| EngineRuns.RunExpress | src/sk_sm/smscheduler.c:67-74 | express_message starts the handler of a live window at once, with that very message, as the innermost activation; for any other handle it does nothing |
| EngineRuns.RunNoStartAfterClose | src/sk_sm/smscheduler.c:94-117 | once a window's SMM_CLOSE has been run it is off the list for good and no handler starts for it, whatever is still queued |
| EngineRuns.RunUnlinkedTwiceIff | src/sk_sm/smscheduler.c:94-117 | with no SMM_CLOSE activation of a window left on the stack, its node has been unlinked twice if and only if SMM_CLOSE was run for it from inside its own SMM_CLOSE handler |
| EngineRuns.RunCreateFirst | src/sk_sm/smscheduler.c:128-143 | an accepted SMM_CREATE push is the first accepted message addressed to its window and is popped, itself or its blank, no later than any other |
| EngineLocks.CoreStep | src/sk_sm/smmsg.c:61-80 | mutual exclusion: every step of every thread keeps each lock with exactly the thread that is inside its section, and the producer's message at the tail |
| EngineLocks.QueueStep | src/sk_sm/smmsg.c:63-110 | seen as a sequence, the queue changes only by the tail move (append), the pop (drop first) and the erase loops (blank in place) |
| EngineDeadlock.AccessHolderMoves | src/sk_sm/smmsg.c:61-80 | whoever holds the queue lock can always go on |
| EngineDeadlock.SystemHolderMoves | src/sk_sm/smscheduler.c:119-145 | whoever holds the system lock waits for the queue lock at most |
| EngineDeadlock.TickHolderMoves | src/sk_sm/smtick.c:51-72 | whoever holds the tick lock waits for the other two at most, unless it relocks |
| EngineDeadlock.StuckIff | src/sk_sm/smtick.c:128-134 | the engine is stuck exactly when all that is in progress is consumers without a token and, behind a self-locked sm_destroy_tick, threads that want the tick lock |
| EngineDeadlock.BlockedIff | src/sk_sm/smtick.c:51-72 | what is in progress can go on except at a lock another thread holds, at sem_event without a token, or at the second lock of sm_destroy_tick as written |
| EngineDeadlock.DeadlockFree | src/sk_sm/smmsg.c:45-51 | for either text: unless the tick lock is lost to its holder, only waiting for a message can stop the engine |
| EngineDeadlock.SelfLockedForever | src/sk_sm/smtick.c:130-133 | no step of any thread ends the self-lock of sm_destroy_tick as written |
| EngineDeadlock.DestroyTickLocks | src/sk_sm/smtick.c:128-134 | a run of three steps in which a client's sm_destroy_tick, as written, locks itself out |
| EngineDeadlock.SelfLockStep | src/sk_sm/smtick.c:130-133 | as written, a step leads to a lost tick lock exactly when it was lost before or the step is the critical section of sm_destroy_tick |
| EngineDeadlock.RunNoDrops | src/sk_sm/smtick.c:128-134 | in a run without calls of sm_destroy_tick no thread is ever inside it |
| EngineDeadlock.UserCodeIsFree | src/sk_sm/smscheduler.c:104-117 | clients and handlers may make any call, and handlers express any message to any depth |
| EngineDeadlock.UserCodeHoldsNothing | src/sk_sm/smscheduler.c:104-117 | handlers and clients run with no lock held |
| EngineQueue.BalanceKept | src/sk_sm/smmsg.c:69-110 | no step changes a thread's share of the token account |
| EngineQueue.TokenStep | src/sk_sm/smmsg.c:69-110 | token accounting is kept by every step of every thread |
| EngineQueue.NoLostWakeup | src/sk_sm/smmsg.c:69-73 | state form of the no-lost-wake-up property |
| EngineQueue.NobodyAnnounces | src/sk_sm/smmsg.c:61-80 | whoever holds the queue lock for another purpose sees no push between its signal and its tail move |
| EngineQueue.PopFindsMessage | src/sk_sm/smmsg.c:93-110 | a consumer with a token finds a message if no pop so far completed without one |
| EngineQueue.FifoStep | src/sk_sm/smmsg.c:63-106 | FIFO conservation is kept by every step of every thread |
| EngineQueue.FatesMatch | src/sk_sm/smmsg.c:177-222 | every accepted push has exactly one fate: itself, or its blank |
| EngineQueue.FatesWithoutErase | src/sk_sm/smmsg.c:53-113 | without erases the fates are the accepted messages themselves |
| EngineCalls.BeforeStep | src/sk_sm/smmsg.c:45-222 | a step of a call before its effect does nothing yet, or all of it |
| EngineOrigins.FateOrigin | src/sk_sm/smmsg.c:45-82 | a step that accepts or refuses a message accepts exactly when there is room, and the message is that of its thread's call, creation or visit |
| EngineOrigins.BracketsStep | src/sk_sm/smscheduler.c:104-117 | each step keeps the open activations and the window list equal to what the log says of them |
| EngineVisits.VisitStep | src/sk_sm/smtick.c:53-67 | the ticker asks for and sends the messages of the slot it visits and of no other; kept by every step of every thread |
| EngineTicks.SlotsKept | src/sk_sm/smtick.c:93-134 | slots change only under the tick lock, keep the window and period they were set with, and have not been due since their count left 0 |
| EngineTicks.QueueOkStep | src/sk_sm/smtick.c:58-65 | the ticker's send, made after its check has let go of the queue lock, still adds no duplicate; no other step adds a tick |
| EngineTicks.TickStep | src/sk_sm/smtick.c:51-72 | no step of any thread queues a tick twice or leaves a queued tick without the slot setting it was sent for |
| EngineTicks.AtMostOnePending | src/sk_sm/smtick.c:51-72 | state form of the one-pending-tick property |
| EngineDuplicates.RunPlain | src/sk_sm/smtick.c:93-116 | a run keeps its ticks de-duplicated as long as no call sends SMM_TICK or sets a tick whose param2 does not agree with its period |
| EngineDuplicates.TickDuplicates | src/sk_sm/smtick.c:56-65 | for every threshold and every param2 that does not agree with it, a run whose only call sets that tick and which queues it twice |
| EngineTiming.OthersKeepSlot | src/sk_sm/smtick.c:93-134 | no thread but the ticker changes an occupied slot, except sm_destroy_tick on that slot |
| EngineTiming.TickerVisits | src/sk_sm/smtick.c:52-70 | the ticker's steps on a slot, split at its check and its send, add up to one round of the slot |
| EngineTiming.TrackRun | src/sk_sm/smtick.c:51-72 | over any stretch of a run in which it is not destroyed, an occupied slot is where its visits take it and has been due as often as that takes |
| EngineClosing.ClosingStep | src/sk_sm/smscheduler.c:94-117 | list, log and activation stack stay in step: the list holds exactly the live windows after every step of every thread |
| EngineClosing.UnlinkExact | src/sk_sm/smscheduler.c:167-184 | sm_destroy_smallwin finds its node on the list exactly when no SMM_CLOSE was run for the window from inside its SMM_CLOSE handler |
| EngineClosing.MarksStay | src/sk_sm/smscheduler.c:104-117 | the mark stays until the activation leaves the stack |
| EngineNesting.NestStep | src/sk_sm/smscheduler.c:94-117 | after a nested SMM_CLOSE the second unlinking has happened or is still owed by an activation on the stack; kept by every step of every thread |
| EngineNesting.UnlinkedTwiceIff | src/sk_sm/smscheduler.c:94-117 | state form of the exact condition for a second unlinking |
| EngineNesting.NestedCloseUnlinksTwice | src/sk_sm/smscheduler.c:67-117 | a run from the start in which a window closes itself inside its own SMM_CLOSE handler and its freed node is unlinked again |
| EngineClosing.NoStartAfterClose | src/sk_sm/smscheduler.c:94-117 | state form: nothing starts for a window after its SMM_CLOSE was finished or its node unlinked |
| EngineCreation.CreationStep | src/sk_sm/smscheduler.c:128-143 | between list insertion and the end of the creator's push nobody can push to the window; kept by every step |
| EngineCreation.CreateComesFirst | src/sk_sm/smscheduler.c:128-143 | state form of the creation-first property, down to what has been popped |
| EngineDispatch.DispatchKept | src/sk_sm/smscheduler.c:193-206 | the dispatcher's pops are what it handled followed by what is in its hand, after every step of every thread |
| EngineDispatch.Dispatches | src/sk_sm/smscheduler.c:186-209 | handled, in hand and queued are the fates of the accepted pushes, in order |
| Messages.EraseIsFilter | src/sk_sm/smmsg.c:191-222 | what is dispatched after erase_message or erase_message_type is what was dispatched before without the named messages, in order |
| Messages.EraseExact | src/sk_sm/smmsg.c:177-222 | by the fields, which queued messages each of the three erase operations blanks, and into what |
| Messages.ErasedMembers | src/sk_sm/smmsg.c:177-222 | after an erase the messages with a handle, or a type, are those queued before and not named |
| Messages.EraseFilters | src/sk_sm/smmsg.c:191-222 | the filter law with the messages that go named by window, or by window and type |
| Messages.InvalidateIsMap | src/sk_sm/smmsg.c:177-189 | invalidate_message dispatches the same windows in the same order, with the named type blanked |
| Messages.EraseForgesNothing | src/sk_sm/smmsg.c:177-222 | blanking never makes a message with a nonzero type |
| Rings.FullExact | src/sk_sm/smmsg.c:65-66 | the two-case test refuses exactly when size - 1 messages are queued |
| Rings.EmptyExact | src/sk_sm/smmsg.c:96 | head meets tail exactly when nothing is queued |
| Rings.StoreInvisible | src/sk_sm/smmsg.c:67-70 | writing the slot at the tail changes nothing that is queued |
| Rings.PublishAppends | src/sk_sm/smmsg.c:71-74 | the tail move appends the written message |
| Rings.DiscardDropsFirst | src/sk_sm/smmsg.c:97-105 | the head move drops the oldest message and no other |
| Rings.EraseSlotsErases | src/sk_sm/smmsg.c:191-222 | erasing every slot, dead ones too, is erasing the queued sequence |
| Rings.DeadSlotsInvisible | src/sk_sm/smmsg.c:191-222 | buffers that agree on the live slots agree on the queue, whatever the dead slots hold |
| Rings.DrainIsDispatched | src/sk_sm/smscheduler.c:194-206 | popping until empty and skipping blanks yields the queued messages with a handle, in order |
| Rings.DrainAfterErase | src/sk_sm/smmsg.c:191-222 | draining after an erase yields the drain without the erased messages; length and room are unchanged |
| Rings.WalkInRange | include/smmsg.h:63-68 | for up to 32766 messages a 16-bit index stays inside the buffer for ever |
| Rings.IndexBound | include/smmsg.h:63-68 | the 16-bit indices stay inside the buffer for ever if and only if nqueue is at most 32766 |
| MessageQueues.MessageQueue.constructor | src/sk_sm/smmsg.c:36-43 | an empty queue of any capacity, zero included, with slots that hold anything; it is one the other operations keep exactly up to 32766 messages |
| MessageQueues.MessageQueue.Push | src/sk_sm/smmsg.c:53-82 | appends exactly when the handle is nonzero and there is room, signals as often, and is the step system's store and tail move |
| MessageQueues.MessageQueue.Pop | src/sk_sm/smmsg.c:84-113 | takes the first message or, from an empty queue, leaves the caller's cells and hands the token back; the token account moves by failed waits only |
| MessageQueues.MessageQueue.IsMessage | src/sk_sm/smmsg.c:115-137 | 1 exactly when a queued message carries the nonzero handle; the circular scan ends and reads live slots only |
| MessageQueues.MessageQueue.IsMessageParam | src/sk_sm/smmsg.c:139-161 | 1 exactly when the very message is queued |
| MessageQueues.MessageQueue.GetNMessage | src/sk_sm/smmsg.c:163-175 | the number of queued messages |
| MessageQueues.MessageQueue.InvalidateMessage | src/sk_sm/smmsg.c:177-189 | blanks type and parameters of every slot of that type, keeping its handle |
| MessageQueues.MessageQueue.EraseMessage | src/sk_sm/smmsg.c:191-205 | blanks every slot of the window |
| MessageQueues.MessageQueue.EraseMessageType | src/sk_sm/smmsg.c:207-222 | blanks every slot of that window and type |
| MessageQueues.EraseForgetsOnlyOne | src/sk_sm/smmsg.c:191-205 | after erase_message(h), is_message(h) is 0 and every other window's answer is what it was |
| WindowLists.WindowList.Add | src/sk_sm/smscheduler.c:76-92 | appends the node; next and prev stay inverse, null-ended and without repeats |
| WindowLists.WindowList.IsSmallwin | src/sk_sm/smscheduler.c:147-165 | the walk ends and answers 1 exactly for members |
| WindowLists.WindowList.Bypass | src/sk_sm/smscheduler.c:173-178 | the pointer writes of the unlink: every other node is linked past the one left out |
| WindowLists.WindowList.Destroy | src/sk_sm/smscheduler.c:167-184 | nothing for the invalid handle; otherwise removes exactly the node and keeps the order of the others and the links |
| WindowLists.WithoutSplices | src/sk_sm/smscheduler.c:167-184 | unlinking the k-th of distinct nodes leaves the others in order |
| TickSlots.FirstFree | src/sk_sm/smtick.c:99-108 | the lowest free slot, or none |
| TickSlots.DropExact | src/sk_sm/smtick.c:131-132 | sm_destroy_tick frees the numbered slot and changes no other, and the next setting takes a slot no higher |
| TickSlots.DueAtPeriod | src/sk_sm/smtick.c:56 | up to the period, count * time_tick does not wrap and reaches the threshold at the period exactly |
| TickSlots.TickTiming | src/sk_sm/smtick.c:52-70 | after t rounds a slot's count is (t-1) mod c + 1 and it has fired (t-1) div c times, for c the period rounded up to 100 ms |
| TickSlots.FiringSeesPeriod | src/sk_sm/smtick.c:56-65 | every firing sees the period in the counter, unwrapped |
| TickSlots.FirstDueUnique | src/sk_sm/smtick.c:56-65 | a nonzero threshold is first due at one count only |
| TickSlots.DueOnTimeIff | src/sk_sm/smtick.c:56 | a threshold is first reached at its period if and only if it is at most 4294967200 |
| TickSlots.AgreesIff | src/sk_sm/smtick.c:58-65 | for thresholds reached on time, the param2 values that agree are 0 and the period |
| TickSlots.NoticeIsProbe | src/sk_sm/smtick.c:58-65 | a slot with such a param2 sends the very message it looked for |
| TickTables.TickTable.SetXTick | src/sk_sm/smtick.c:93-116 | fills the lowest free slot with count 0 and returns its number, or 0 with the table unchanged |
| TickTables.TickTable.CreateTick | src/sk_sm/smtick.c:118-121 | the same with no param2 and no system flag |
| TickTables.TickTable.DestroyTick | src/sk_sm/smtick.c:128-134 | frees the numbered slot, and nothing for a number out of range |
| TickTables.TickTable.Round | src/sk_sm/smtick.c:51-72 | one round over a real queue: slot by slot, one send per due slot that has no equal tick queued, and every counter moved on |
| TickTables.FireTwice | src/sk_sm/smtick.c:58-65 | firing twice at one count leaves one message if and only if param2 is 0 or that count, which for a slot firing on time is its period |
| TickTables.RoundExact | src/sk_sm/smtick.c:51-72 | a round into a queue with room only appends, only ticks of due slots, and the tick of every due slot that was not queued |
| TaskSlots.Find | src/sk_os/skyapi_task.c:25-39 | the searches return the first match and pass over no match |
| TaskTables.TaskTable.constructor | src/sk_os/priv_mac.h:96-105 | all slots free, the id counter at 0 |
| TaskTables.TaskTable.Search | src/sk_os/skyapi_task.c:318-330 | the table's search loops end at the first match or past the end |
| TaskTables.TaskTable.CheckTaskName | src/sk_os/skyapi_task.c:798-825 | accepts a name exactly when it is short enough and no live task has it |
| TaskTables.TaskTable.TaskId | src/sk_os/skyapi_task.c:308-335 | the id in the first slot of that name, live or stale; an invalid id when there is none |
| TaskTables.TaskTable.Term | src/sk_os/skyapi_task.c:374-404 | frees the first slot that carries the id found for the calling thread, and no other |
| TaskTables.TaskTable.Create | src/sk_os/skyapi_task.c:144-305 | claims the lowest free slot, names it, and on success registers thread, function and a fresh id; each refusal and failure leaves what the code leaves |
| TaskRuns.IdsStep | src/sk_os/skyapi_task.c:285-298 | until the counter wraps, nonzero ids in the table stay distinct, stale slots included, whatever the scans find |
| TaskRuns.RunIds | src/sk_os/skyapi_task.c:285-298 | the same in every state of every run |
| TaskRuns.ScanIff | src/sk_os/skyapi_task.c:79-131 | while names and threads are in order, a thread's scan finds its own slot if and only if no slot below, held by an unfinished creation, carries its thread id from before |
| TaskRuns.TermFindsOwn | src/sk_os/skyapi_task.c:374-404 | the second search of sk_task_term finds the caller's slot although it ignores the in-use flag, until the id counter wraps |
| TaskRuns.ThreadMoves | src/sk_os/skyapi_task.c:79-131 | a thread whose scan was not masked reads the function in its own slot, and frees its own slot and no other when it ends |
| TaskRuns.CreationFills | src/sk_os/skyapi_task.c:254-298 | undisturbed, the steps of a creation fill the lowest free slot with all it was asked for, and those of a failed one free it again with the leftovers in it |
| TaskRuns.TermFrees | src/sk_os/skyapi_task.c:374-404 | undisturbed, sk_task_term frees the first slot, in use or not, with the id that its first search found |
| TaskRuns.NameLeads | src/sk_os/skyapi_task.c:318-330 | a name leads to its first slot, whether a task lives there or not |
| TaskRuns.NamesStep | src/sk_os/skyapi_task.c:814-823 | live names stay distinct and every live task's slot stays below each slot that merely remembers its name, through every step but a masked scan |
| TaskRuns.ThreadsStep | src/sk_os/skyapi_task.c:274-298 | every live slot is the home of one unfinished thread with its id, name and function, and conversely, through every step but a masked scan |
| TaskRuns.RunInv | src/sk_os/skyapi_task.c:144-305 | all table invariants hold in every run in which no scan was taken while masked |
| TaskRuns.ScansIff | src/sk_os/skyapi_task.c:79-131 | until the id counter wraps, all scans of a run have found their own slots if and only if none was taken while masked |
| TaskRuns.NameFindsLive | src/sk_os/skyapi_task.c:318-330 | state form of name lookup |
| TaskRuns.RunNameFindsLive | src/sk_os/skyapi_task.c:318-330 | while no scan was taken while masked, name lookup finds the unfinished task of that name although it never tests the in-use flag, empty name and failed creations included |
| TaskRuns.RunOwnFunction | src/sk_os/skyapi_task.c:79-131 | while no scan was taken while masked, every running thread runs the function its own sk_task_create was given, and a further scan finds its own slot exactly when not masked |
| TaskRuns.ScanMisled | src/sk_os/skyapi_task.c:254-298 | a run in which a masked scan makes a new thread run another task's function |
| TaskRuns.MisledSpreads | src/sk_os/skyapi_task.c:79-131 | how it goes on: the misled thread frees a slot under a creation, whose task then has no name, and with no creation in progress its thread runs yet another task's function |
| TaskRuns.IdentityRun | src/sk_os/skyapi_task.c:285-298 | a returned id is carried by no slot but its own, and by that one exactly until the slot is given to another task, in every run |
| TaskRuns.RunIdentity | src/sk_os/skyapi_task.c:25-39 | a returned id resolves to its own slot until that slot is successfully re-created, afterwards to nothing, never to a different task, in every run |
| EventMonitor.MutexStep | src/sk_os/skyapi_event.c:124-242 | at most one thread is inside the monitor, through waits, wake-ups and timeouts |
| EventMonitor.CountStep | src/sk_os/skyapi_event.c:147-155 | with consuming waits, each completed wait uses up the initial bit or a set |
| EventMonitor.SignalStep | src/sk_os/skyapi_event.c:193-219 | with consuming waits that do not time out, no step leaves the bit set and every waiter asleep |
| EventMonitor.RunInv | src/sk_os/skyapi_event.c:124-242 | the monitor's invariants in every state of every run, resets and spurious wake-ups included |
| EventMonitor.BitIff | src/sk_os/skyapi_event.c:124-242 | for every configuration and run, the bit is set exactly when it was put, by a set or from the start, and since then neither reset nor used up; completed waits and sets are counted exactly; a timed-out wait changes nothing |
| EventMonitor.ReturnsOnly | src/sk_os/skyapi_event.c:146-184 | a wait returns only after finding the bit set or timing out, a reset only after clearing it |
| EventMonitor.WakesAndLooks | src/sk_os/skyapi_event.c:147-148 | a waiter may wake at any time; with the bit off it blocks again and nothing has changed, with the bit on its wait completes |
| EventMonitor.SignalsOnly | src/sk_os/skyapi_event.c:169-206 | only a set signals, and only a blocked or woken timed wait expires |
| EventMonitor.ConservedIff | src/sk_os/skyapi_event.c:151-155 | completed waits never exceed the initial bit plus the sets, in all runs, if and only if every wait consumes |
| EventMonitor.NoLostSignalIff | src/sk_os/skyapi_event.c:136-184 | whenever the bit is set and a waiter sleeps another waiter is coming, in all runs, if and only if every wait consumes and none times out |
| EventMonitor.PeeksOvercount | src/sk_os/skyapi_event.c:151-155 | a run in which non-consuming waits complete more often than the event was set |
| EventMonitor.SignalGetsLost | src/sk_os/skyapi_event.c:151-184 | a run in which the woken waiter leaves the bit set, or times out, and another sleeps on beside it |

## Left out

- MessageQueues.MessageQueue.GetNMessage: exact on a quiet queue only, because the code reads both indices without the lock.
- MessageQueues.MessageQueue.InvalidateMessage: takes the message type as unsigned; the code compares an `s32` with the field, which agrees bit for bit.
- MessageQueues.MessageQueue.constructor: leaves out a negative capacity, the one whose successor overflows 32 bits, and a failing allocation, none of which the code checks.
- WindowLists.WindowList.Destroy: for a node already unlinked and freed the pointer writes are undefined; `RunUnlinkedTwiceIff` says when that happens.
- TickTables.TickTable.Round: one round with nothing in between; what other threads do during a round is in the step system.
- TickTables.TickTable.DestroyTick: the table's part only, without the lock; the lock is in the step system.
- TaskTables.TaskTable.Create: one call with nothing in between; null arguments, stack size, priority and thread attributes are not modelled.
- TaskRuns.RunIdentity: until the id counter wraps, and without `sk_task_destroy`, which clears a slot whose thread may free it again later.
- TaskRuns.RunOwnFunction: besides masked scans it excludes a `sk_task_term` completed after the id counter has wrapped, when ids may repeat.
- EngineRuns.TicksDistinctIff: for thresholds of at least 1; with threshold 0, which fires at the counts 0 and 1, only `param2 == 0` is claimed to keep ticks distinct.
- EngineRuns.RunDispatch: while no handler or client calls `pop_message` itself; other poppers take messages from the dispatcher by design.
- The dispatcher, the ticker's loop and the event monitor as classes: what matters there is the interleaving, so they are step systems on values.
- Concurrent `sk_task_create` calls: the name check runs without the lock, so duplicates can then pass it.
- `express_message` from other threads: its liveness check and the handler are not atomic against them.
- `sk_task_destroy`, `sk_task_wait_timeout`, suspend, resume and signals: they act on foreign threads.
- Priorities and nice values, and the branch for generated task names, which a null-name check makes unreachable.
- Semaphores, mutexes, queues, memory and time of the POSIX layer: thin wrappers, used here as atomic steps.
- Window types, ids and texts beyond two fields of a list node; handler return values.
- Real time, delays, logging, start-up (`run_smallwin`, `sm_tick_init` creating the threads) and `main.cpp`.
