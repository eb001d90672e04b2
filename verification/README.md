# Iquora's durable state engine and its concurrent containers

This project models the state engine of Iquora and the containers it stands on, and proves what they
guarantee over every input, every run and every schedule.

| file | what it models |
|---|---|
| `Base.dfy` | bytes, `uint64_t`, thread identities, storage slots, log records |
| `Decimal.dfy` | decimal printing and `std::stoull` |
| `LogFormat.dfy` | the line format of the log: framing, `std::getline`, parsing, replay |
| `LogLines.dfy` | what replay makes of a file with any content, and when it throws |
| `Wal.dfy` | `WAL`: sequence numbers, append, rotation, replay |
| `StoreSpec.dfy` | what `MemStore` operations do to memory: values, versions, TTL index |
| `StoreCells.dfy` | what each slot holds and until when it can be read, from the calls alone |
| `BoundedQueue.dfy` | `BoundedThreadsafeQueue`: monitor steps, both condition variables, four policies |
| `QueueAnswers.dfy` | what every push and pop answers, and what `Stop` does to sleepers |
| `Pipeline.dfy` | store, dirty queue, write-behind worker and log as one machine |
| `Recovery.dfy` | what that machine guarantees over whole runs |
| `Drain.dfy` | the timer's flush, and that everything written can reach the log |
| `CrashRecovery.dfy` | what rotations and a crash leave of the log, and when folding it gives the memory after the last complete record |
| `CrashWitnesses.dfy` | runs, rotations and cuts in which it gives a memory that never was |
| `BatchMutex.dfy` | the worker as it is written, with `batch_mutex_`, and what its blocking does to writers |
| `DrainAsWritten.dfy` | exactly when that worker can still get everything into the log |
| `MemStore.dfy` | `MemStore` and `WriteBehindWorker` as objects that implement the machine step by step |
| `Chain.dfy`, `LockedList.dfy`, `ListRuns.dfy` | `ThreadSafeList` under concurrency: heap, mutex owners, program counters, and their invariant |
| `ListTheorems.dfy`, `ListLiveness.dfy` | memory safety, traversal, order, deadlock freedom, atomicity, termination |
| `ListAnswers.dfy` | what the concurrent calls answer |
| `RemoveIfAsWritten.dfy` | `remove_if` as it is written, in the same machine, and with it `cleanup_expired` |
| `ThreadSafeList.dfy` | `ThreadSafeList` as an object over real nodes, run by one thread |
| `PubSub.dfy` | `SubscriptionList` and `SubscriptionSystem` |
| `SubscriptionHandles.dfy` | how long a subscription handle is good, which id comes next, what a used handle does |
| `NotifyRace.dfy` | `notify` in its two halves, with lists that can be freed in between |
| `TimerLoop.dfy`, `TimerOrigins.dfy` | the timer thread of `Scheduler`; where every task comes from |

Concurrency is modelled by interleaving. A step is one critical section, or a smaller piece where another
thread can be scheduled in between: in the list, reading `next`, taking a mutex, giving one up, calling a
callback, relinking, and counting and freeing a removed node are steps of their own; a predicate called with
both mutexes held is one step with the unlinking or unlocking that follows it. Choices the program leaves
open (which thread `notify_one` wakes, when a timed wait ends, what a clock reads, which of several earliest
timers a heap gives up) are parameters of the steps, and every theorem holds for all of them.

Each component has three layers: a value-level machine or specification that says what a step does, lemmas
about its runs, and classes whose methods update fields in place. The methods of the queue, the log, the store with its
worker, and the subscription system are proved to take exactly the steps of the machine or specification. The list and
the scheduler differ: the object of the list is proved against a sequence of values and that of the scheduler against
the multiset of its tasks, each run by one thread, and no formal link joins them to the machines of `LockedList.dfy` and
`TimerLoop.dfy`.

## What was found in the code

Each of these is proved with the exact condition under which the code does what it promises.

- A full batch never reaches the log. `run` calls `process_batch` with `batch_mutex_` held, and `process_batch` locks it
  again (`src/write_behind_worker.cpp:48-53`, `81`). The worker blocks for ever exactly when the record in hand fills
  the batch: `BatchMutex.BlocksExactlyWhenFull`; it happens for every batch size: `BatchMutex.BlocksForEveryBatchSize`.
  Up to there the worker as written is the worker of `Pipeline.dfy` (`BatchMutex.RunsAsThePipeline`), where the mutex is
  released before the flush; the progress theorems of `Recovery.dfy` are about that one, and
  `BatchMutex.NeverDeadlockedUntilBlocked` is about the one as written. Once the worker is blocked, a write keeps the
  store's lock for ever exactly when it finds the queue full: `BatchMutex.WriteStuckExactlyWhenFull`. Everything written
  can still reach the log exactly when the worker is not blocked, the record it must take next does not fill the batch,
  and a batch holds more than one record or nothing more is to be taken: `DrainAsWritten.LogsAllExactly`.
- `remove_if` (`utils/threadsafe_list.h:131-133`) moves on to the node it has just freed. A run is safe throughout
  exactly when no `remove_if` comes to a value that matches: `RemoveIfAsWritten.SafeExactlyWithoutMatch`. A
  `cleanup_expired` as written touches freed memory exactly when an entry has expired or a pair of the TTL index names an
  absent slot: `RemoveIfAsWritten.CleanupAsWritten`. The rest of the project has the intended loop, which stays where it
  is after a removal.
- After `stop` nobody drains the dirty queue. A write is then stuck, holding the store's lock, exactly when it finds the
  queue full (`Recovery.StuckExactlyWhenFull`); a client already parked can return exactly when there is room
  (`Recovery.ParkedReturnsExactlyWithRoom`).
- `replay` opens only the live file (`src/wal.cpp:78`) and nothing reads the rotated one, so what was logged before the
  last rotation is lost: `CrashWitnesses.RotationForgets`. An empty value is not read back, so an old one reappears:
  `CrashWitnesses.EmptyValueBringsBackTheOld`. A value cut short by a crash passes for a value:
  `CrashWitnesses.CutValueIsTakenForAValue`. In each of these runs the fold of what replay reads is a memory that never
  was. `CrashRecovery.TornLogRecovery` says exactly when the fold is the memory after the last record that is complete
  in the file; where it is not, it may still be an earlier memory or, as in these runs, none at all. For replayable
  values and a cut that goes through no value it is that memory exactly when every slot logged before the last rotation
  has been logged again since: `CrashRecovery.CleanCutRecovers`.
- `replay` skips records with an empty value and misreads values that contain a newline and actors or keys that
  contain `|` or a newline: `LogFormat.RoundTripExactly`. It throws, and leaves the rest of the file unread, exactly when
  a line has four bars and something after them but a number that cannot be read: `LogLines.ReplayThrowsExactly`.
- `del` and expiry are not logged. The store is the fold of the log exactly while every slot ever logged has been
  written since its last removal: `StoreSpec.FoldIsExactIff`; `StoreSpec.FoldStaysExactIff` gives the guard for one
  operation.
- `cleanup_expired` can be seen by a reader, exactly when the next operation that touches the slot is a `set`
  without a ttl or a `set_if_version`, even a refused one, and would otherwise have found an entry that had expired when
  the cleanup ran: `StoreSpec.CleanupShowsExactly`.
- A blocking queue of capacity 0 gets stuck: `BoundedQueue.NeverStuckExactlyWithRoom`. `DropOldest` and `Compact` come to
  `pop_front` on an empty deque exactly when the capacity is 0: `BoundedQueue.UndefinedExactlyWithoutRoom`.
- `ScheduleEvery` promises repetition (`src/scheduler.h:37`) but runs its task twice: `TimerLoop.EveryMeansTwice`.
- Subscription ids start again at 1 exactly when an actor has no subscriber left
  (`SubscriptionHandles.IdsRestartExactly`), so a used handle can cancel somebody else's subscription
  (`SubscriptionHandles.StaleHandleHitsNewcomer`). The second use cancels something exactly when, since the first, a
  subscriber came while the count of those since the list was last empty stood one below the id:
  `SubscriptionHandles.SecondCancelHitsExactly`; never while the actor keeps a subscriber:
  `SubscriptionHandles.SecondCancelMisses`.
- `notify` uses the list after it has given up the mutex of the map (`src/pubsub.cpp:50-60`). The list is freed under it
  exactly when the actor has been without subscribers at some moment in between: `NotifyRace.ListIsFreedExactly`.

## Model

| member | source | states |
|---|---|---|
| Decimal.PrintParse | src/wal.cpp:38-38 | reading back a printed 64-bit sequence number or timestamp gives the number, for all 2^64 values |
| Decimal.StoullReads | src/wal.cpp:88-88 | blanks, a sign or none, digits and anything after them are read as the decimal value of the digits, negated modulo 2^64 after a minus, and out of range from 2^64 on |
| LogFormat.ParseHeaderAndValue | src/wal.cpp:81-88 | a line with a whole header and any newline-free value parses to that entry, even when the value contains a bar; with an empty value the line is skipped |
| LogFormat.ReplayEncode | src/wal.cpp:76-92 | replaying a log of framable entries delivers, in order, exactly those with a non-empty value, and never throws |
| LogFormat.DeliveredAreReplayable | src/wal.cpp:81-90 | whatever the bytes of the file, every entry delivered has delimiter-free actor and key and a non-empty newline-free value |
| LogFormat.RoundTripExactly | src/wal.cpp:30-50 | replay gives back exactly the appended entries if and only if every record has an actor and key free of bar and newline and a non-empty, newline-free value |
| LogFormat.TornHeader | src/wal.cpp:81-87 | no proper prefix of a line that ends before its value parses to an entry |
| LogFormat.TornReplay | src/wal.cpp:76-92 | the replay of any byte prefix of a log is the explicitly described torn reading and never throws |
| LogFormat.TornLogSafety | src/wal.cpp:76-92 | for a log of admissible records cut at any byte: the non-empty records of a prefix of the log, then at most one more whose sequence number, timestamp, actor and key are the next record's and whose value is a non-empty prefix of that record's value |
| LogLines.SampleLine | src/wal.cpp:38-39 | the bytes of a line: decimal digits, bars (124) between the fields, a newline (10) at the end |
| LogLines.ParseFields | src/wal.cpp:82-88 | a line with four bars and something after them is delivered with its five fields, or throws when the sequence number or the timestamp cannot be read |
| LogLines.LineThrowsExactly | src/wal.cpp:82-88 | for every line: it throws if and only if it is such a line with a number that cannot be read, and is skipped if and only if it has fewer bars or nothing after the fourth |
| LogLines.ReplayLineByLine | src/wal.cpp:80-90 | a file is read as its first line and then the rest, unless the line throws |
| LogLines.ReplayThrowsExactly | src/wal.cpp:76-92 | whatever the bytes of the file: replay throws if and only if some line of it is such a line |
| Wal.RotationInvariant | src/wal.cpp:30-50 | after any appends the live file holds the entries from some `k` on and is below the limit, the rotated file holds the entries just before `k` and was closed by the first append that reached the limit, and the counter is the number of appends modulo 2^64 |
| Wal.RotationTheorem | src/wal.cpp:43-46 | rotated file followed by live file is a contiguous suffix of the append history with consecutive sequence numbers, and replaying the live file gives the readable records since the last rotation |
| Wal.LiveSinceRotation | src/wal.cpp:43-46 | the live file holds exactly the records appended since the last append that brought it to the limit, or all of them if none has |
| Wal.NoRotationExactly | src/wal.cpp:44-46 | the log has never rotated if and only if its whole history is below the limit, and then the live file is that history |
| Wal.HandlerHearsEntries | src/wal.cpp:48-74 | after any appends, a handler registered at the start has heard exactly the entries numbered 1, 2, 3 and so on modulo 2^64 with their records and times, in order, and nobody has heard anything without one |
| Wal.WAL.Rotate | src/wal.cpp:63-68 | the live file becomes the rotated one, replacing any earlier one, and a new empty live file is opened |
| Wal.WAL.DoAppend | src/wal.cpp:30-50 | the object moves exactly as the specification of an append: counter, line, rotation test; a registered handler is called once, with the next number, the record and the time |
| Wal.WAL.DoReplay | src/wal.cpp:76-92 | the line-reading loop calls a registered handler with exactly the entries of the specified replay, appended to what it has heard, and stops by throwing exactly when a number cannot be parsed |
| StoreSpec.AlwaysCovered | src/mem_store.cpp:26-29 | in every reachable state each entry that can expire has its pair in the TTL index |
| StoreSpec.CleanupIsExact | src/mem_store.cpp:121-137 | of the intended removal loop: in every reachable state a cleanup at clock t removes exactly the entries expired at t, leaves the others untouched, and every index pair left names a stored, unexpired slot; RemoveIfAsWritten.CleanupAsWritten says when the loop as written gets that far |
| StoreSpec.StoreAgreesWithLog | src/mem_store.cpp:18-40 | after any run of set, set_if_version, get, del and cleanup, every entry with a version above 0 has the value of the last record logged for its slot |
| StoreSpec.FoldStaysExactIff | src/mem_store.cpp:60-67 | an operation keeps the written part of the store equal to the last-writer-wins fold of the log if and only if it is not about to erase a written entry: not a del of one, and not a cleanup that finds one expired |
| StoreSpec.CleanupForgetsExpired | src/mem_store.cpp:121-137 | in reachable states the guard for a cleanup is that some stored entry with a version above 0 has expired, whatever the index holds |
| StoreSpec.FoldIsExactIff | src/mem_store.cpp:60-67 | over all runs with del, cleanup and everything else: the written part of the store is the fold of the log if and only if every slot ever logged has been written since it was last removed |
| StoreSpec.FoldIsExact | src/mem_store.cpp:69-87 | in runs without del and cleanup the written part of the store is the fold of the log |
| StoreSpec.VersionCountsWrites | src/mem_store.cpp:21-23 | the version of a slot is the number of successful writes to it since its last removal |
| StoreSpec.VersionsGrow | src/mem_store.cpp:69-87 | between removals versions never decrease, and two equal readings mean no write in between |
| StoreSpec.OneSuccessPerVersion | src/mem_store.cpp:72-73 | two set_if_version calls with the same expected version cannot both succeed unless the slot was removed in between |
| StoreSpec.SuccessMeansNoInterference | src/mem_store.cpp:69-87 | a set_if_version with the version read earlier succeeds if and only if nobody has written the slot since |
| StoreSpec.CleanupIsInvisible | src/mem_store.cpp:42-58 | with a clock that does not go back, extra cleanups anywhere in a run do not change the answer of a later get on a slot to which no set without a ttl and no set_if_version, successful or refused, has come since the first of them |
| StoreSpec.CleanupShowsExactly | src/mem_store.cpp:26-29 | after any run, a cleanup followed by any operations that do not write to the slot and then by one that does changes what get answers from then on if and only if that one is a set without a ttl or a set_if_version and, without the cleanup, would have found an entry that had expired when the cleanup ran |
| StoreSpec.CleanupShowsAfterSet | src/mem_store.cpp:26-29 | a run in which the cleanup shows after a plain set, which keeps the old expiry time of an entry that was not cleaned up |
| StoreSpec.CleanupShowsAfterRefusal | src/mem_store.cpp:72-73 | a run in which it shows without any write: a refused set_if_version leaves an empty entry behind, and both runs log the same |
| StoreCells.StoreIsCells | src/mem_store.cpp:18-87 | after any run the map with its TTL index holds for every slot exactly what the calls make of the slot by itself: value, version, and expiry time in nanoseconds |
| StoreCells.AnswersFollowCells | src/mem_store.cpp:42-87 | in every run get answers the value of the slot exactly while it can be read, set_if_version writes and logs exactly on its version, and set always logs its record |
| StoreCells.GetAfterSet | src/mem_store.cpp:18-58 | what get answers after a set, with anything in between that leaves the slot alone: with a ttl of n seconds the value up to now + n * 10^9 and nothing later; without one, the value as long as the expiry time given since the last removal allows, and always if there was none |
| StoreCells.GetAfterVersionedSet | src/mem_store.cpp:69-87 | the same after a set_if_version on the number of writes since the last removal: its value, under the expiry time already given |
| StoreCells.GetAfterDel | src/mem_store.cpp:60-67 | after a del get answers nothing until the slot is written again |
| BoundedQueue.StepKeepsInv | utils/threadsafe_queue.cpp:69-104 | every step keeps size and length equal and bounded, every parked thread accounted for, and every free slot or element with a sleeper served by a notified thread |
| BoundedQueue.NoLostWakeup | utils/threadsafe_queue.cpp:4-38 | before Stop, for all policies and capacities: with a consumer asleep there are at least as many notified consumers as elements, and the next step of each receives the front element; with a producer asleep there are at least as many notified producers as free slots, and the next step of each is accepted |
| BoundedQueue.NeverStuck | utils/threadsafe_queue.cpp:80-83 | with room for an element, or without blocking, no reachable state before Stop has producers and consumers all asleep and nobody notified |
| BoundedQueue.NeverStuckExactlyWithRoom | utils/threadsafe_queue.cpp:80-83 | for every policy and capacity: the queue never gets stuck if and only if it does not block or has room for an element |
| BoundedQueue.FifoConservation | utils/threadsafe_queue.cpp:80-85 | Block and DropNewest: values received followed by values queued are exactly the values accepted, in order, and the queue never exceeds its capacity |
| BoundedQueue.EvictingConservation | utils/threadsafe_queue.cpp:86-97 | DropOldest and Compact, at every capacity: the queue is the newest accepted values, at most the capacity of them, and what was received is an in-order part of the older ones |
| BoundedQueue.CompactIsDropOldest | utils/threadsafe_queue.cpp:90-97 | from every state the invariant allows, a sequence of steps is a run of Compact if and only if it is one of DropOldest, and both runs have the same results |
| BoundedQueue.UndefinedExactlyWithoutRoom | utils/threadsafe_queue.cpp:86-97 | some run comes to pop_front on an empty deque if and only if the policy evicts and the capacity is 0 |
| QueueAnswers.PopAnswers | utils/threadsafe_queue.cpp:4-67 | in every reachable state, stopped or not: a pop, blocking or not, answers the oldest value in the queue if and only if there is one; with none it sleeps if it may wait and the queue has not been stopped, and otherwise answers empty |
| QueueAnswers.ResumePopAnswers | utils/threadsafe_queue.cpp:18-38 | the same for a pop that comes back from its wait, which sleeps on only if its deadline has not passed |
| QueueAnswers.PushAnswers | utils/threadsafe_queue.cpp:69-104 | in every reachable state: a push is refused once stopped; with room its value goes to the back; without room it waits, is refused, or pushes the oldest value out, as the policy says |
| QueueAnswers.ResumePushAnswers | utils/threadsafe_queue.cpp:81-103 | a push that comes back from its wait is refused if the queue has been stopped, puts the value its thread called it with at the back if there is room, and sleeps on otherwise |
| QueueAnswers.CallsAreEnabled | utils/threadsafe_queue.h:44-48 | a thread that is not waiting can make any call, and one that has been woken can go on |
| QueueAnswers.NobodySleepsAfterStop | utils/threadsafe_queue.h:50-54 | once stopped, nobody is asleep in any later state of any run |
| BoundedQueue.BoundedThreadsafeQueue.DoPush | utils/threadsafe_queue.cpp:69-104 | a push from the lock to its return, its wait or its undefined eviction moves the object exactly as the specified step, for all four policies and every capacity |
| BoundedQueue.BoundedThreadsafeQueue.MakeRoom | utils/threadsafe_queue.cpp:90-97 | the loop of Compact leaves the newest capacity - 1 elements, and comes to pop_front on an empty deque if and only if the capacity is 0 |
| BoundedQueue.BoundedThreadsafeQueue.FinishPush | utils/threadsafe_queue.cpp:81-103 | the part of a blocked push after its wait |
| BoundedQueue.BoundedThreadsafeQueue.DoPop | utils/threadsafe_queue.cpp:4-67 | a pop, blocking or not, from the lock to its return or its wait, is the step whose answer QueueAnswers.PopAnswers gives |
| BoundedQueue.BoundedThreadsafeQueue.FinishPop | utils/threadsafe_queue.cpp:18-38 | the part of a blocked pop after its wait, woken or timed out |
| BoundedQueue.BoundedThreadsafeQueue.DoStop | utils/threadsafe_queue.h:50-54 | stopping marks the queue and notifies every sleeper of both condition variables |
| Pipeline.StepKeeps | src/write_behind_worker.cpp:37-64 | every step of clients, worker and stopper keeps the shape invariant, and in-flight records plus the new write equal the newly logged records plus the new in-flight records, in order |
| Recovery.RunConserves | src/write_behind_worker.cpp:77-100 | in every state of every interleaving: logged records ++ batch being flushed ++ current batch ++ record in hand ++ dirty queue ++ the lock holder's pending push is the write history in store-lock order |
| Recovery.LogHoldsAppended | src/wal.cpp:30-50 | the log object holds exactly the appends the run made |
| Recovery.PrefixConsistentRecovery | src/mem_store.cpp:114-119 | in runs without del and cleanup, folding the log alone gives the memory as it stood at some earlier moment of the run, whatever the interleaving |
| CrashRecovery.FoldIsRightExactly | src/wal.cpp:76-92 | for every history of framable records, wherever it was last rotated and wherever the live file is cut: the fold of what replay delivers is the fold of the complete records of the whole history if and only if no slot was last given an empty value since the rotation and every slot logged before has been logged again; when the cut goes through a value, what is left of it must be what its slot held before |
| CrashRecovery.TornLogRecovery | src/wal.cpp:76-92 | a crash at any moment of any run without removals, after any number of rotations, cutting the live file at any byte: replay does not throw, the fold of the complete records was the memory at some earlier moment, and the fold of what replay delivers is that memory if and only if the condition of FoldIsRightExactly holds |
| CrashRecovery.CleanCutRecovers | src/wal.cpp:76-92 | if every value written is replayable and the cut does not go through a value, the fold of what replay delivers is the memory after the last complete record if and only if every slot logged before the last rotation has been logged again in what is complete since |
| CrashWitnesses.RotationForgets | src/wal.cpp:76-79 | runs in which the fold of what replay delivers was never the memory, because of two slots the one logged before a rotation is not read |
| CrashWitnesses.EmptyValueBringsBackTheOld | src/wal.cpp:87-87 | runs in which it was never the memory, because an empty value is not read back |
| CrashWitnesses.CutValueIsTakenForAValue | src/wal.cpp:87-87 | runs and cuts in which it was never the memory, because a value is cut short |
| Recovery.MissingAfterStop | src/write_behind_worker.cpp:25-35 | once stopped, what the log is missing is exactly the queue and the push still waiting |
| Recovery.WriteAheadHasNoLag | src/mem_store.cpp:31-33 | in write-ahead mode the log is the write history at every moment |
| Recovery.BoundedLag | src/write_behind_worker.cpp:8-9 | with a fixed batch size, acknowledged but unlogged writes never exceed 1000 + max(1, batch size) |
| Recovery.NeverDeadlocked | src/write_behind_worker.cpp:37-64 | of the worker that releases batch_mutex_ before it flushes: until it has stopped it can step, or it sleeps on an empty queue and a parked writer can step |
| Drain.TimerFlushesBatch | src/write_behind_worker.cpp:57-62 | in every reachable state in which the worker comes to its timer with a batch: a due timer and the flush it begins can be taken, append exactly the batch to the log, in order, and leave it empty at the head of the loop |
| Drain.EverythingCanBeLogged | src/write_behind_worker.cpp:37-64 | from every reachable state of a worker not told to stop, its own steps and those of clients coming back from their wait can lead to a log that is the whole write history |
| Drain.ClientsCanCall | src/mem_store.cpp:18-87 | in every reachable state in which nobody is parked with the store's lock, any client can make any call; the store does what the call says, and in write-ahead mode the record of a write is appended at once |
| BatchMutex.RunsAsThePipeline | src/write_behind_worker.cpp:37-64 | every run of the worker as written is, up to where it blocks, a run of the pipeline with the released mutex |
| BatchMutex.BlocksExactlyWhenFull | src/write_behind_worker.cpp:48-53 | as written, the step that takes the record in hand blocks the worker in every continuation, with nothing more logged, if and only if the record fills the batch |
| BatchMutex.BlocksForEveryBatchSize | src/write_behind_worker.cpp:51-53 | for every batch size there is a run that blocks the worker for ever |
| BatchMutex.NeverDeadlockedUntilBlocked | src/write_behind_worker.cpp:37-64 | of the worker as written: until it blocks or has stopped it can step, or it sleeps on an empty queue and a parked writer can step; once blocked it cannot step |
| BatchMutex.WriteStuckExactlyWhenFull | src/write_behind_worker.cpp:66-69 | in every reachable state with the worker blocked and nobody parked, a write keeps the store's lock in every continuation if and only if it finds the queue full, and returns if and only if there is room |
| DrainAsWritten.LogsAllExactly | src/write_behind_worker.cpp:37-100 | of the worker as written, in every reachable state before it is told to stop and without further writes: some continuation gets the whole write history into the log if and only if it is not blocked, the record it must take next does not fill the batch, and a batch holds more than one record or nothing more is to be taken |
| Recovery.WriterStuckAfterStop | src/write_behind_worker.cpp:25-35 | a client parked in a full queue after stop holds the store's lock in every continuation, and nothing more reaches the log |
| Recovery.StuckAfterStopIsReachable | src/write_behind_worker.cpp:66-69 | such a state is reached from the start, for every batch size: stop, then 1001 calls of set |
| Recovery.StuckExactlyWhenFull | src/write_behind_worker.cpp:66-69 | in every reachable stopped state with nobody parked, a write gets stuck if and only if the queue is full, and returns if and only if there is room |
| Recovery.ParkedReturnsExactlyWithRoom | src/write_behind_worker.cpp:25-35 | in every reachable stopped state with a client parked, some continuation lets it return if and only if there is room in the queue |
| Engine.WriteBehindWorker.Enqueue | src/write_behind_worker.cpp:66-69 | enqueue is the push of the record, up to its return or its wait |
| Engine.WriteBehindWorker.RunHead | src/write_behind_worker.cpp:42-46 | the loop test and the first half of the timed pop |
| Engine.WriteBehindWorker.RunResume | src/write_behind_worker.cpp:46-46 | the timed pop after its wait |
| Engine.WriteBehindWorker.TakeIntoBatch | src/write_behind_worker.cpp:48-55 | the record in hand joins the batch, and a full batch is swapped out for flushing, with batch_mutex_ released before; BatchMutex says what the nested lock does instead |
| Engine.WriteBehindWorker.CheckTimer | src/write_behind_worker.cpp:57-62 | a due, non-empty batch is swapped out for flushing, as in the step Drain.TimerFlushesBatch is about |
| Engine.WriteBehindWorker.FlushOne | src/write_behind_worker.cpp:88-91 | one turn of the flush loop appends the next record of the batch |
| Engine.WriteBehindWorker.StopFlush | src/write_behind_worker.cpp:33-34 | stop flushes the current batch after the join and leaves the queue alone |
| Engine.MemStore.Emit | src/mem_store.cpp:31-35 | the record of a write goes to the log or to the dirty queue under the store's lock |
| Engine.MemStore.Set | src/mem_store.cpp:18-40 | value, version, creation time, expiry, index pair and log record change exactly as specified |
| Engine.MemStore.SetIfVersion | src/mem_store.cpp:69-87 | succeeds exactly on the expected version, leaves an empty version-0 entry behind when it refuses an absent key |
| Engine.MemStore.Get | src/mem_store.cpp:42-58 | the stored value unless absent or expired, as StoreCells.AnswersFollowCells says in terms of the calls |
| Engine.MemStore.Del | src/mem_store.cpp:60-67 | erases the entry, reports whether there was one, logs nothing |
| Engine.MemStore.ResumeWriter | src/mem_store.cpp:114-119 | a client parked inside the push finishes it and gives up the lock |
| Engine.MemStore.CleanupExpired | src/mem_store.cpp:121-137 | the loop over the TTL index does exactly what the specification of a cleanup says |
| LockedList.ReadyIsSafe | utils/threadsafe_list.h:90-111 | in a consistent state every step that can be scheduled touches allocated nodes only |
| LockedList.StepKeepsHeap | utils/threadsafe_list.h:43-135 | every step of every thread keeps the heap invariant: next pointers form exactly the chain, mutex owners and program counters agree, local pointers are linked, every unlinked node belongs to exactly one remover |
| ListRuns.EnterKeepsOrder | utils/threadsafe_list.h:60-60 | a thread that takes the head's mutex is behind every thread inside the list |
| ListRuns.AdvanceKeepsOrder | utils/threadsafe_list.h:63-63 | taking the next mutex never passes or meets a thread ahead |
| ListRuns.StepKeepsOrder | utils/threadsafe_list.h:56-111 | threads inside the list stand along the chain in the order in which they took the head's mutex |
| ListRuns.StepKeepsSize | utils/threadsafe_list.h:99-104 | `size_` is the number of linked nodes plus the removals not yet counted |
| ListRuns.StepKeepsInv | utils/threadsafe_list.h:43-135 | every step keeps heap, order, visited nodes, rejected nodes and size together |
| Chain.VisitNext | utils/threadsafe_list.h:61-68 | visiting the next node of a changing chain keeps start order and visits nothing twice |
| Chain.VisitInsert | utils/threadsafe_list.h:43-54 | a push at the front leaves every traversal's account intact |
| Chain.VisitCut | utils/threadsafe_list.h:97-101 | so does the removal of any node, ahead of the traversal or behind it |
| ListTheorems.MemorySafety | utils/threadsafe_list.h:56-111 | no step of any run of any number of threads touches freed memory |
| ListTheorems.SafeReclamation | utils/threadsafe_list.h:96-105 | in every reachable state the chain is acyclic and exactly what next pointers spell; whatever a thread holds, waits for or points at is linked or its own victim; a victim is out of every other thread's reach; every mutex is owned by exactly the thread whose program counter says so, and a removal owns predecessor and victim |
| ListTheorems.TraversalIsComplete | utils/threadsafe_list.h:56-69 | a traversal at the end has visited, exactly once and in list order, every node linked at its start and still linked, and none linked later; a search or removal that has come to the end has left no match among them |
| ListTheorems.SearchFindsFirst | utils/threadsafe_list.h:71-88 | what a concurrent search returns is, when it has decided, the first match among the nodes that were linked when it began |
| ListTheorems.RemovalTakesFirst | utils/threadsafe_list.h:90-111 | what a concurrent removal unlinks is, at that moment, the first match among the nodes that were linked when it began |
| ListTheorems.StartIsChain | utils/threadsafe_list.h:60-60 | for the whole of a call, the chain it is measured against is the chain at the step in which it took the head's mutex |
| ListTheorems.WholeTraversal | utils/threadsafe_list.h:56-69 | a call that has come from the head's mutex to the end of the list has visited every node linked at both moments, once and in the order of the start |
| ListTheorems.LinkedThroughout | utils/threadsafe_list.h:43-54 | a node linked at two moments was linked at every moment between them |
| ListTheorems.NoOvertaking | utils/threadsafe_list.h:56-111 | of two threads inside the list, the one strictly ahead stays strictly ahead for the rest of both calls |
| ListTheorems.BlockerIsAhead | utils/threadsafe_list.h:63-63 | a thread that waits for a mutex waits for a thread farther along the chain |
| ListTheorems.NeverDeadlocked | utils/threadsafe_list.h:56-111 | while any call is unfinished, some thread can take its next step |
| ListTheorems.RunIsAtomic | utils/threadsafe_list.h:43-111 | in every run the list is a sequence of values that changes atomically: a push prepends its value, a removal takes out one value that matches, no other step changes it; `size_` is its length plus the removals under way |
| ListAnswers.RemovalAnswer | utils/threadsafe_list.h:90-111 | remove_first_if, whatever the other threads do: it answers true if and only if a step of its own has taken a node out of the list, at most one such step exists, and when it answers false it has seen the end of the list with no match among the nodes linked then and when it began |
| ListAnswers.SearchAnswer | utils/threadsafe_list.h:71-88 | find_first_if answers with the first match among the nodes linked when it began, or has seen the end of the list with no match among those still linked |
| ListAnswers.EmptyHandedSawAll | utils/threadsafe_list.h:56-135 | every call but push_front that returns without having found anything, for_each and remove_if always, has seen the end of the list and visited every node linked then and when it began, once and in order |
| ListLiveness.StepUsesWork | utils/threadsafe_list.h:56-111 | every step of a call in progress lowers a measure over all threads, whatever is pushed and removed meanwhile |
| ListLiveness.EveryCallEnds | utils/threadsafe_list.h:43-111 | from any moment of any run, if no further call begins, the number of steps of all threads that can follow is bounded, whatever the schedule |
| ListLiveness.CallIsBoundedByItsStart | utils/threadsafe_list.h:43-111 | whatever other calls begin: from the step that takes the head's mutex on, the steps a call takes itself are at most six times the length of the chain it found, plus eleven |
| ThreadSafeLists.KeepIsRepeatedRemoveFirst | utils/threadsafe_list.h:113-135 | removing all matches is removing the first match until none is left |
| ThreadSafeLists.KeepCounts | utils/threadsafe_list.h:113-135 | no match survives, and every other value keeps its number of copies |
| RemoveIfAsWritten.ReadsFreedNode | utils/threadsafe_list.h:127-133 | in every state the heap invariant allows, once a remove_if has freed its node, its next step can be scheduled and touches the freed node |
| RemoveIfAsWritten.SafeExactlyUnlessFreed | utils/threadsafe_list.h:118-134 | any number of threads: a run is safe throughout if and only if no remove_if gets as far as freeing a node |
| RemoveIfAsWritten.SafeExactlyWithoutMatch | utils/threadsafe_list.h:121-133 | a run in which every matching remove_if has come to free its node is safe throughout if and only if no remove_if has come to a value that matches |
| RemoveIfAsWritten.RemoveIfAlone | utils/threadsafe_list.h:113-135 | a remove_if alone in the list, when it has returned or is about to touch freed memory: the latter if and only if some value in the list it began with matches |
| RemoveIfAsWritten.CleanupAsWritten | src/mem_store.cpp:121-137 | in every reachable state of the store, a cleanup as written and alone at the index, when it has returned or is about to touch freed memory: the latter if and only if an entry has expired or a pair of the index names an absent slot |
| ThreadSafeLists.ThreadSafeList.PushFront | utils/threadsafe_list.h:43-54 | the value is prepended, all mutexes free before and after |
| ThreadSafeLists.ThreadSafeList.ForEach | utils/threadsafe_list.h:56-69 | the callback receives the contents in order, each once; mutexes are coupled hand over hand and all free at the end |
| ThreadSafeLists.ThreadSafeList.FindFirstIf | utils/threadsafe_list.h:71-88 | the first matching value, or nothing exactly when none matches |
| ThreadSafeLists.ThreadSafeList.Bypass | utils/threadsafe_list.h:97-103 | the relinking takes exactly one node out and keeps the rest linked in order |
| ThreadSafeLists.ThreadSafeList.RemoveFirstIf | utils/threadsafe_list.h:90-111 | exactly the first match leaves the list; the result says whether there was one |
| ThreadSafeLists.ThreadSafeList.RemoveIf | utils/threadsafe_list.h:113-135 | the intended loop leaves exactly the values that do not match, in order |
| PubSub.AddKeepsIdsExactly | src/pubsub.cpp:3-7 | an add keeps live ids distinct and below the counter if and only if the 64-bit counter does not wrap |
| PubSub.RemoveFirstIsKeep | src/pubsub.cpp:9-13 | with distinct ids, removing the first subscription with an id removes all there is of it |
| PubSub.RunKeepsOk | src/pubsub.cpp:27-47 | in every run no list in the map is empty, live ids are distinct and below the counter |
| PubSub.RunRefines | src/pubsub.cpp:27-47 | the map of lists is, for every actor, the newest-first sequence of subscriptions that the calls and their answers describe |
| PubSub.AnswersAreRight | src/pubsub.cpp:27-67 | subscribe returns an id above all live ones, unsubscribe reports whether the id was live, notify calls the live callbacks, the count is the number of live subscriptions |
| PubSub.NotifiedOnce | src/pubsub.cpp:15-21 | the non-empty callbacks of the live subscriptions and the calls correspond one to one, in order |
| SubscriptionHandles.SubscriptionLasts | src/pubsub.cpp:36-47 | a subscription stays in its actor's list until an unsubscribe with its own id |
| SubscriptionHandles.CancelledIsGone | src/pubsub.cpp:36-47 | an unsubscribe takes out of the actor's list everything that has its id, and nothing else |
| SubscriptionHandles.IdsAreCounted | src/pubsub.cpp:3-7 | the id handed out is one more than the number of subscriptions the actor has been given since its list was last empty |
| SubscriptionHandles.IdsAreNew | src/pubsub.cpp:3-7 | while an actor has subscribers its ids strictly grow |
| SubscriptionHandles.IdsRestartExactly | src/pubsub.cpp:27-34 | id 1 is handed out if and only if the actor had no subscriber |
| SubscriptionHandles.SecondCancelHitsExactly | src/pubsub.cpp:36-47 | of two unsubscribes with the same id and none between, the second cancels a subscription if and only if, between them, a subscriber came while the count of those since the actor's list was last empty stood one below the id |
| SubscriptionHandles.SecondCancelMisses | src/pubsub.cpp:36-47 | while the actor is never without subscribers, a handle once used to cancel cancels nothing when used again |
| SubscriptionHandles.StaleHandleHitsNewcomer | src/pubsub.cpp:36-47 | a concrete run in which a cancelled handle cancels another subscription |
| NotifyRace.RunAllRefines | src/pubsub.cpp:27-61 | with lists that have identities and a notify in two halves, the map of lists is still what the whole calls make of it |
| NotifyRace.ListIsFreedExactly | src/pubsub.cpp:49-61 | the list a notify has looked up is freed before it is used if and only if its actor has been without subscribers at some moment in between; otherwise what it goes through are the live subscriptions |
| NotifyRace.CancelFreesUnderNotify | src/pubsub.cpp:42-43 | after any run that leaves an actor one subscription, its cancellation frees the list a notify has just looked up |
| NotifyRace.FindsNothing | src/pubsub.cpp:53-54 | a notify looks up a list if and only if the actor has subscribers |
| PubSub.SubscriptionList.Add | src/pubsub.cpp:3-7 | the object over the real list takes the next id and prepends the subscription |
| PubSub.SubscriptionList.Remove | src/pubsub.cpp:9-13 | removes the first subscription with the id and says whether there was one |
| PubSub.SubscriptionList.InvokeAll | src/pubsub.cpp:15-21 | the handler is called with the non-empty callbacks, in list order |
| PubSub.SubscriptionSystem.Subscribe | src/pubsub.cpp:27-34 | over a map of real lists that share nothing: makes the missing list, calls its add, and the lists together move as the specification, whose answers AnswersAreRight gives in terms of live subscriptions |
| PubSub.SubscriptionSystem.Unsubscribe | src/pubsub.cpp:36-47 | calls remove and then size of the actor's real list and erases the list when it has become empty; the lists together move as the specification and no other list changes |
| PubSub.SubscriptionSystem.Notify | src/pubsub.cpp:49-61 | traverses the actor's real list; the calls are those of the specification, none when there is no list, and no list changes |
| PubSub.SubscriptionSystem.SubscriberCount | src/pubsub.cpp:63-67 | the size counter of the actor's real list is the number of subscriptions of the specification, 0 without a list |
| TimerLoop.NeverEarly | src/scheduler.cpp:69-76 | in every run, with calls of other threads between any two steps, no task is submitted before its time |
| TimerLoop.SubmissionsAreConserved | src/scheduler.cpp:63-91 | in every state of every run, submissions of a function made plus those still to come are exactly those asked for: one for a ScheduleAt, two for a ScheduleEvery with a positive interval, otherwise one |
| TimerLoop.EveryMeansTwice | src/scheduler.cpp:78-83 | a function is never submitted more often than that, and exactly that often once nothing of it is pending |
| TimerLoop.RearmedExactly | src/scheduler.cpp:78-83 | how often a task is put back by the loop is the number of turns that submitted a task with a positive interval and the same function whose clock reading plus interval is its time |
| TimerOrigins.TasksAreConserved | src/scheduler.cpp:46-91 | in every state of every run, each task with its time, function and interval is queued, in hand and submitted as often as it was asked for and put back by submissions |
| TimerOrigins.TasksHaveOrigins | src/scheduler.cpp:46-91 | in every run, each task queued or submitted was asked for with that time, or has no interval and is due exactly one interval after the clock reading of an earlier submission of the same function with a positive interval |
| TimerLoop.DrainTerminates | src/scheduler.cpp:65-90 | with the clock standing still and nobody scheduling, the timer thread takes at most three steps for each due task and two for the one in hand |
| TimerLoop.DrainGoesOn | src/scheduler.cpp:72-86 | it can go on if and only if a task is in hand or due |
| TimerLoop.Scheduler.ScheduleAt | src/scheduler.cpp:46-52 | adds a task with interval 0 |
| TimerLoop.Scheduler.ScheduleEvery | src/scheduler.cpp:54-61 | adds a task due one interval from now that carries its interval |
| TimerLoop.Scheduler.Top | src/scheduler.cpp:70-70 | the top of the heap is one of its earliest tasks |
| TimerLoop.Scheduler.ScheduleTimers | src/scheduler.cpp:63-91 | with a clock read anew in every turn, the loop comes to a wait; it has submitted tasks when they were due, earliest first, and nothing left is due at the last reading; of every task, what was queued plus the turns that put it back is what was submitted plus what is left, and turn i puts back exactly Task(clock(i) + interval, same function, 0) if its interval is positive |
| TimerLoop.SplitIsDrained | src/scheduler.cpp:63-91 | if the clock stood still, exactly the due tasks were submitted, each as often as it was queued, and exactly the others and the re-armed ones are left |

## Left out

- ThreadSafeLists.ThreadSafeList.RemoveIf: is the intended loop, which advances only past values it keeps; the loop as written is in `RemoveIfAsWritten.dfy`. The same holds for `remove_if` in the concurrent machine and in `CleanupExpired`.
- ThreadSafeLists.ThreadSafeList.ForEach: returns the values handed to the callback; callbacks are assumed to return and not to re-enter the list.
- BoundedQueue.NoLostWakeup: speaks of runs before `Stop`, because `Stop` notifies without holding the mutex and a thread between its test and its wait can miss that.
- Recovery.PrefixConsistentRecovery: speaks of runs without `del` and cleanup, because removals are not logged; `StoreSpec.FoldStaysExactIff` says what each removal does to the agreement.
- CrashRecovery.TornLogRecovery: speaks of records without delimiters, and its condition is for the memory after the last complete record; when an earlier one comes out instead is not characterised.
- PubSub.RunRefines: speaks of runs of fewer than 2^64 calls, after which the id counter wraps; `PubSub.AddKeepsIdsExactly` is the exact condition for one call.
- PubSub.SubscriptionSystem.Notify: is atomic; in the code the list is used after the map's mutex has been released, which is in `NotifyRace`. There a use of the list is one step; what other threads do to the list during a traversal is in `ListTheorems`.
- BoundedQueue.BoundedThreadsafeQueue.DoStop: is one step; the code sets the flag and notifies without holding the mutex.
- QueueAnswers.NobodySleepsAfterStop: is about that one step; in the code a thread that has tested the flag and not yet begun to wait can miss the notification and sleep on.
- Drain.EverythingCanBeLogged: says that it can happen, not that every schedule brings it about, and is about the worker that releases `batch_mutex_` before the flush; `DrainAsWritten.LogsAllExactly` is about the one as written.
- TimerLoop.Scheduler.ScheduleTimers: has no call of another thread between its turns, although the code gives up the lock to submit; the machine of `TimerLoop` has them.
- StoreSpec.CleanupIsExact: is about the intended loop, as is `CleanupIsInvisible`; `RemoveIfAsWritten.CleanupAsWritten` says when the loop as written does not get through.
- RemoveIfAsWritten.CleanupAsWritten: reads the clock once.
- Engine.MemStore.CleanupExpired: reads the clock once, and does not overlap the critical section of another call, although the code takes no lock there.
- Recovery.NeverDeadlocked: is about the worker that releases `batch_mutex_` before the flush, as are the other theorems of `Recovery.dfy` about progress; `BatchMutex` has the worker as written, with the second lock blocking, although the C++ standard leaves it undefined.
- Engine.WriteBehindWorker.TakeIntoBatch: likewise.
- A run that comes to `pop_front` on an empty deque says nothing about the code from there on; the machine goes on with an empty queue.
- The first node's `prev` field and its updates, `ThreadSafeList::add` and `remove_by_id`, which name a field that nodes do not have.
- A node identity is never used twice in the concurrent list, so address reuse after freeing is not modelled; by memory safety no thread could see it.
- An actor whose map of keys has become empty is not told apart from an absent one; no operation can tell.
- `last_accessed`, data races on unlocked reads, overflow of the 64-bit entry versions, overflow of clock arithmetic, wall-clock jumps.
- Real file input and output, exceptions from an append, `set_path`, and the sequence counter across restarts of the process. A file is a byte sequence and `std::getline` is taken from the C++ standard.
- Delivery of write notifications through the thread pool (`notify_subscribers`), the thread pool itself, actors, actor lifecycle, the scheduler's actor loop and its shutdown: thin loops and glue over what is modelled.
- The gRPC server and its own log, whose order is not the store's order, and generated protocol code.
- The object of the list runs one thread without interruption; interleaving is in the machine of `LockedList.dfy`, and no formal link joins the two.
