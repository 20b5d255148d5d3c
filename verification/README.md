# Verified models of the concurrency programs

The repository is a set of small POSIX programs. Several of them are real protocols between threads or
processes: a bounded store on one condition variable, counters with and without a lock, a lock-free ring, a
message queue and two pipes, a read-write lock, and semaphores that hand values over or outlive their
programs. This project models them and proves what they achieve, over every schedule.

## How a program is modelled

`Runs.dfy` says what a run is. A program is a step function `Next`: the state after the schedule picks a
thread (or a timeout, a spurious wake-up, an input), or None when that pick cannot happen. `Exec` runs a
schedule, `Reaches` says that some schedule leads from one state to another, `Always` that every state so reached has a
property, `Ties` that the end of every run stands in some relation to its schedule, `Stuck` that no pick can happen.
A statement about "every run" quantifies over all schedules; a statement that "every run ends" bounds the
length of all schedules and shows that a run that cannot go on is complete.

A step is one access to something shared: a lock, wait, signal or post, the load and the store of an increment
separately, the test, the print and the clear of a ring cell. Constants of the programs (numbers of threads and rounds,
sizes of buffers) are parameters, except the 10 messages and 100 bytes of the producer and consumer pair and the 100
bytes of the named-pipe pair, which are constants here too. Memory is sequentially consistent and integers are
unbounded. Fields named as history in the comments never decide whether a step happens or what it does to the
program's own fields.

For most programs the last section of the module says what a schedule determines: the result of a run is given as a
function of the sequence of picks alone (counts, a fold, the chain of windows), and so is which picks can come next.
These laws do not mention the state, so they fix what each step does and when it may happen.

Beside each step function stands a class with the program's own variables - arrays, indices, counters, semaphore
values - whose methods are the steps of each thread, changing those variables in place. Each method's contract equates the
whole new state with `Next` of the old one, so everything proved about runs of `Next` is about these methods.

| file | programs |
|---|---|
| `CondVar.dfy` | condition_var.c: LIFO store, one mutex, one condition variable |
| `RaceCounter.dfy` | race_condition_test.c, unnamed_sem_bin_thread_condition.c: unlocked increments |
| `GuardedCounter.dfy` | mutex_test.c, unnamed_sem_bin_thread.c, unnamed_sem_bin_process.c, unnamed_sem_bin_process_isolate.c |
| `GuardedSchedules.dfy` | the same: which schedules there are and what they leave in the counter |
| `Ring.dfy` | create_test.c: zero-byte ring buffer |
| `Mailbox.dfy` | producer.c, consumer.c: message queue with an in-band end marker |
| `FatherSonQueue.dfy` | father_son_mq_test.c: message queue shared by fork |
| `PipeRelay.dfy` | unnamed_pipe_test.c: pipe, end of file by descriptor counting |
| `Fifo.dfy` | fifo_write.c, fifo_read.c: named pipe |
| `RwLock.dfy` | rwlock_test.c, rwlock_write_hungry.c, rwlock_hungry_solved.c |
| `RwLockPassing.dfy` | rwlock_hungry_solved.c against rwlock_write_hungry.c: who can pass a waiting writer |
| `RwLockOrders.dfy` | rwlock_test.c: the orders of admission and the values the readers see |
| `RwLockSharing.dfy` | rwlock_test.c, rwlock_hungry_solved.c: who can be inside together, who has to wait |
| `Handoff.dfy` | unnamed_sem_count_thread.c: two semaphores, one variable |
| `NamedSem.dfy` | named_sem_no_unlink.c, named_sem_count.c, named_sem_bin.c |
| `Runs.dfy`, `Sums.dfy`, `Seqs.dfy` | runs, sums over threads, sequences as sets |

## Where the code and its comments differ

- consumer.c takes a first byte 0xFF to mean that the producer has stopped. A chunk of ordinary input that begins with
  that byte has the same effect (`Mailbox.InputCanEndTheConsumer`), and
  `Mailbox.AllPrintedIffNoInBandMarker` says exactly when nothing is lost.
- producer.c sends its end marker once. If the queue stays full until that send times out, the consumer receives for
  ever (`Mailbox.EndMarkerCanBeLost`). `Mailbox.LeavesIffRoomAtTheEnd` says exactly when the consumer can still leave
  at that send, `Mailbox.CanLeaveIffMarkerAccepted` at any later time, and `Mailbox.EveryRunLeaves` that it then does.
- create_test.c calls its index wrap a protection against overflow and notes that fast writing overwrites old data.
  An overrun happens for every size (`Ring.OverrunHappens`), `Ring.IntactIffNeverOverran` says exactly when characters
  are lost, `Ring.OrderKeptIffNeverLate` exactly when the order is, and `Ring.Conservation` what still holds then.
- named_sem_bin.c says the outcome is always 2. After named_sem_no_unlink.c it does not get past its first `sem_wait`
  (`NamedSem.Sessions`).

## Model

| member | source | states |
|---|---|---|
| CondVar.DeliverableOrders | thread_test/condition_var.c:28-90 | a sequence can be taken by the consumer in some run if and only if each next item is new, nothing between it and a larger item taken earlier is still untaken, and fewer than BUFFER_SIZE smaller items are untaken; both directions, with a schedule built for every such order |
| CondVar.DeliverablePermutations | thread_test/condition_var.c:47-82 | the complete deliveries of items 1..n are exactly the permutations without a pattern a, later b, later c with b < c < a, in which every item taken leaves at most BUFFER_SIZE - 1 smaller ones |
| CondVar.TopIsTakeable | thread_test/condition_var.c:80-82 | whatever buffer[--count] yields in a reachable store is a legal next item of the order |
| CondVar.OneCellIsFifo | thread_test/condition_var.c:47-82 | with one cell the consumer takes 1, 2, 3, ... |
| CondVar.Reachable | thread_test/condition_var.c:38-60 | in every reachable state the lock has the owner the program counters say, the stock is strictly increasing and within the buffer, stock and taken items are together the items produced, and a sleeper's condition holds or its signal is due |
| CondVar.NeverStuck | thread_test/condition_var.c:31-88 | in every reachable state some thread can step without a spurious wake-up; a thread asleep still has its full or empty condition, or the other one holds the mutex between its update and its signal; they never both sleep |
| CondVar.WhoCanGoOn | thread_test/condition_var.c:28-88 | a thread can step unless it is asleep or comes for the mutex while the other one has it; exactly a sleeper may wake by itself; the two are never inside together |
| CondVar.StepsAreStoreSteps | thread_test/condition_var.c:31-88 | in terms of the items produced and not taken: the producer's move adds the next item, the consumer's takes the newest, no other step changes them, a thread goes to wait exactly when they are BUFFER_SIZE or none, and after a signal nobody is asleep |
| CondVar.TransferWithinEight | thread_test/condition_var.c:31-88 | eight consecutive steps without a spurious wake-up, from any reachable state, move an item |
| CondVar.SevenStepsCanBeQuiet | thread_test/condition_var.c:31-88 | the bound of eight is exact for every buffer size |
| CondVar.Warehouse.constructor | thread_test/condition_var.c:8-20 | the store starts empty, unlocked, with item 1 next |
| CondVar.Warehouse.ProducerStep | thread_test/condition_var.c:26-61 | each step of the producer changes buffer, count, lock and positions as specified and stays inside the array |
| CondVar.Warehouse.ConsumerStep | thread_test/condition_var.c:67-90 | the same for the consumer |
| CondVar.Warehouse.SpuriousWakeup | thread_test/condition_var.c:33-44 | pthread_cond_wait may return without a signal; the invariant survives it |
| RaceCounter.ExactIffNoOverlap | thread_test/race_condition_test.c:15-32 | a complete run of N threads ends with N if and only if no access of one thread falls between another thread's load and store |
| RaceCounter.CellIsChain | thread_test/unnamed_sem_bin_thread_condition.c:15-35 | the cell after any schedule, complete or not, is the length of the chain of windows back from the last store: that store, the last store before its load, and so on |
| RaceCounter.StoreAddsToItsLoad | thread_test/race_condition_test.c:20-29 | in every run a store leaves one more than the cell held before the load of the same thread, whatever came between, and a load leaves the cell alone |
| RaceCounter.Schedules | thread_test/race_condition_test.c:15-32 | the possible schedules are exactly those that pick each of the N threads at most twice: nobody ever waits |
| RaceCounter.Outcomes | thread_test/race_condition_test.c:20-29 | for N >= 1 the values a complete run can end with are exactly 1..N |
| RaceCounter.ScheduleFor | thread_test/unnamed_sem_bin_thread_condition.c:15-35 | for each k from 1 to N a schedule that ends with exactly k |
| RaceCounter.Reachable | thread_test/race_condition_test.c:15-32 | the cell never exceeds the number of stores made, is positive after the first, and a register as large as that number is up to date |
| RaceCounter.Tally.Access | thread_test/unnamed_sem_bin_thread_condition.c:15-35 | one load or one store of one thread, on the shared cell in place |
| GuardedCounter.LockedRunsCountAll | thread_test/mutex_test.c:21-44 | under one lock every run has at most 4N steps, cannot go on only when every thread has returned, and then the counter is N |
| GuardedCounter.SharedReachable | thread_test/unnamed_sem_bin_thread.c:16-39 | at every step the permit is free or exactly one thread is inside, the cell is the number of stores made, and a register inside the section is up to date |
| GuardedCounter.MutualExclusion | thread_test/unnamed_sem_bin_thread.c:16-39 | no two threads are between their wait and their post |
| GuardedSchedules.AccessesAreARun | thread_test/unnamed_sem_bin_process.c:51-88 | with any kind of lock the loads and stores of a run, alone, are a run of the unlocked counter with the same cell, the chain of windows back from the last store |
| GuardedSchedules.WhoCanGoOn | thread_test/unnamed_sem_bin_thread.c:16-39 | a thread that has not made its four steps can make the next one, except that with one lock for all it enters exactly when every thread has either not entered or left |
| GuardedCounter.StepRefines | thread_test/unnamed_sem_bin_thread.c:28-29 | under the lock the store is an atomic increment, every other step is invisible |
| GuardedCounter.RunRefinesAtomic | thread_test/mutex_test.c:29-41 | every reachable state is that of a run of atomic increments, each thread's once |
| GuardedCounter.CopiesNeverBlock | thread_test/unnamed_sem_bin_process_isolate.c:31-78 | with a semaphore copied by fork no process ever waits |
| GuardedCounter.PrivateReachable | thread_test/unnamed_sem_bin_process_isolate.c:43-81 | every run with private semaphores is, without them, a run of the unlocked counter |
| GuardedCounter.EveryRaceHappens | thread_test/unnamed_sem_bin_process_isolate.c:43-81 | every run of the unlocked counter happens with private semaphores |
| GuardedCounter.SharedAgainstPrivate | thread_test/unnamed_sem_bin_process.c:43-88 | one shared semaphore leaves N as the only outcome; private copies leave exactly the outcomes of the unlocked counter, 1..N |
| GuardedCounter.Guarded.Step | thread_test/unnamed_sem_bin_process.c:51-88 | one wait, load, store or post of one process, on the cell and the semaphore values in place |
| Ring.Conservation | thread_test/create_test.c:29-72 | at every step, overrun or not: no stored character is printed twice, only stored ones are printed, and stored = printed + lost + still unprinted in cells, each in exactly one of the three |
| Ring.IntactIffNeverOverran | thread_test/create_test.c:29-38 | no character is lost or about to be if and only if every store was made with fewer than BUF_LEN stored characters uncleared |
| Ring.OverrunHappens | thread_test/create_test.c:29-38 | for every size some run overruns the reader, and a character is lost or about to be |
| Ring.OverrunBreaksTheOrder | thread_test/create_test.c:29-38 | for every size some run makes a late print and its output is not a prefix of the input without NULs and newlines |
| Ring.PrintShowsTheLatest | thread_test/create_test.c:54-70 | every print, overrun or not, shows the last stored character whose number is congruent to the number of clears modulo BUF_LEN; that is the next one in order if and only if at most BUF_LEN stored characters are uncleared |
| Ring.OrderKeptIffNeverLate | thread_test/create_test.c:29-72 | the i-th character printed is the i-th stored, for all i, if and only if no print was made with more than BUF_LEN stored characters uncleared; then the output is a prefix of the filtered input, and when all stored characters differ only then; no print is late without an overrun |
| Ring.PacedRingIsFifo | thread_test/create_test.c:22-78 | then the non-zero cells are exactly the cyclic window from read to write index, in order, and the output is a prefix of the input without NULs and newlines |
| Ring.PacedStepsAreQueueSteps | thread_test/create_test.c:54-78 | then a store appends to the queue, a print shows its head, a clear removes it, and the reader goes to sleep exactly when its test finds the queue empty |
| Ring.EveryCharacterIsPrinted | thread_test/create_test.c:54-78 | from every state without an overrun three reader steps for each waiting character and one more print everything stored and leave the ring empty |
| Ring.FullCellIsServed | thread_test/create_test.c:54-78 | overrun or not, a full cell at the reader is printed within three steps of the reader, also out of its sleep, or cleared in one if it was just printed |
| Ring.ScheduleStores | thread_test/create_test.c:20-78 | for every schedule the stored characters are those typed, without NULs and newlines, up to the number of stores, and the indices follow the counts; a store can follow exactly a kept fetch, a fetch anything else, and the reader is never blocked |
| Ring.SharedRing.constructor | thread_test/create_test.c:87-98 | after main's loop every byte is zero |
| Ring.SharedRing.InputFetch | thread_test/create_test.c:22-29 | the fetch and the filter of NUL and newline |
| Ring.SharedRing.InputStore | thread_test/create_test.c:30-37 | the store and the wrap of the writer's index |
| Ring.SharedRing.OutputStep | thread_test/create_test.c:52-77 | a reader step is the test, the print of the cell read again, the clear or the end of the sleep, and prints a character only in the second |
| Ring.SharedRing.Test | thread_test/create_test.c:54 | the test sends the reader to the print exactly when the cell is not zero |
| Ring.SharedRing.PrintCell | thread_test/create_test.c:55-62 | the character printed is the cell as it is now, not as it was tested |
| Ring.SharedRing.ClearCell | thread_test/create_test.c:55-70 | the cell is zeroed and the reader's index wraps |
| Mailbox.Delivery | process_test/consumer.c:36-76 | the queue never holds more than 10; the output is a prefix of the accepted chunks, each cut at its first NUL, up to the first beginning with 0xFF, and all of it once the queue is drained or the consumer has left; only such a message makes it leave |
| Mailbox.AcceptedAreTheChunksSent | process_test/producer.c:43-98 | for every schedule the accepted chunks are those whose send went through, and a chunk whose send timed out is gone; the producer reads and sends in turn |
| Mailbox.PrintedAreTheChunksExamined | process_test/consumer.c:36-89 | for every schedule the output is the accepted chunks, cut at their first NUL, as many as were examined, up to the first beginning with 0xFF; exactly that one makes the consumer close, unlink and leave |
| Mailbox.WhatCanFollow | process_test/producer.c:43-98 | from the schedule alone: a read when no chunk is pending, a send in time exactly when fewer than 10 messages are queued, else a timeout; a receive in time exactly when one is queued, else a timeout; an examination exactly of a message held |
| Mailbox.AllPrintedIffNoInBandMarker | process_test/consumer.c:63-69 | a consumer that has left printed all accepted input if and only if no accepted input chunk begins with 0xFF |
| Mailbox.InputCanEndTheConsumer | process_test/consumer.c:63-69 | every chunk that can be sent and begins with 0xFF ends the consumer, unprinted, while the producer still reads |
| Mailbox.CanLeaveIffMarkerAccepted | process_test/consumer.c:57-69 | once the producer is over, the consumer can still leave its loop if and only if some accepted chunk begins with 0xFF |
| Mailbox.EndMarkerCanBeLost | process_test/producer.c:78-84 | ten chunks sent and none received when the input ends: the send of the marker times out, the producer ends and the consumer can never leave |
| Mailbox.LeavesIffRoomAtTheEnd | process_test/producer.c:70-84 | the end marker is lost if and only if its one send finds the queue full; after that send the consumer can leave if and only if there was room, or a chunk accepted before begins with 0xFF |
| Mailbox.LostBehindAFullQueue | process_test/producer.c:80-84 | a producer that ended without its marker accepted had at least MAXMSG messages accepted |
| Mailbox.EveryRunLeaves | process_test/consumer.c:36-69 | once the producer is over and a chunk beginning with 0xFF was accepted, every run has at most two steps a message and one more, and cannot go on only when the consumer has left |
| Mailbox.CStringIsCut | process_test/producer.c:86-93 | the string strlen measures is the chunk up to its first NUL, and sending it again would cut nothing |
| Mailbox.FillThenCString | process_test/producer.c:43-50 | clearing the buffer first makes the string end where the chunk ends |
| Mailbox.ReceivedFits | process_test/consumer.c:39-75 | every received message is shorter than the buffer and the printf shows it unchanged |
| Mailbox.StrLen | process_test/producer.c:93 | strlen finds the first NUL of a buffer that has one, and leaves a buffer that has none |
| Mailbox.Exchange.ProducerRead | process_test/producer.c:43-71 | the buffer is cleared and refilled with up to 100 bytes, and an empty read leads to the end marker |
| Mailbox.Exchange.ProducerSend | process_test/producer.c:72-95 | a send goes through exactly when there is room and times out only on a full queue; it appends the buffer's string or the marker, a timeout changes nothing but the position; from a full buffer without a NUL the producer leaves its buffer |
| Mailbox.Exchange.SendString | process_test/producer.c:86-95 | the strlen and the send of a chunk |
| Mailbox.Exchange.SendMarker | process_test/producer.c:71-84 | the send of the end marker, after which the producer ends whatever it answers |
| Mailbox.Exchange.ConsumerReceive | process_test/consumer.c:36-61 | the oldest message comes into the cleared buffer; a receive times out only on an empty queue |
| Mailbox.Exchange.ConsumerExamine | process_test/consumer.c:63-89 | the marker leads to close and unlink, anything else is printed |
| FatherSonQueue.InOrderAndAlive | process_test/father_son_mq_test.c:46-116 | with N at most mq_maxmsg no send finds the queue full; the child receives 1, 2, 3, ... in order whatever times out; messages are there only while the name or a descriptor is, so the queue object lives as long as the child can receive, also after the father has closed and unlinked, and dies with the last close |
| FatherSonQueue.NeverFullIffRoundsFit | process_test/father_son_mq_test.c:75-92 | no run has a send that times out on a full queue if and only if the number of rounds is at most mq_maxmsg |
| FatherSonQueue.ReceivedAreTheKept | process_test/father_son_mq_test.c:46-116 | for every schedule and queue size the child receives, in order, the messages that found fewer than mq_maxmsg waiting; the others are lost, one for each timeout of the father |
| FatherSonQueue.WhatCanFollow | process_test/father_son_mq_test.c:46-116 | the father makes rounds + 2 steps and is never blocked for good; the child receives exactly when a kept message is waiting, times out exactly when none is, and closes after its rounds |
| FatherSonQueue.EveryRunDrains | process_test/father_son_mq_test.c:46-116 | every run ends; without timeouts only with all messages received and the object destroyed |
| FatherSonQueue.FamilyQueue.FatherStep | process_test/father_son_mq_test.c:71-116 | a send, the close, the unlink |
| FatherSonQueue.FamilyQueue.ChildStep | process_test/father_son_mq_test.c:46-68 | a receive, a timeout of a receive, the close |
| PipeRelay.EveryRunRelaysAndEnds | process_test/unnamed_pipe_test.c:25-51 | for every argument, capacity >= 1 and schedule no write raises SIGPIPE, the child prints greeting, argument and newline, a prefix of it at any time, and a run that cannot go on has exactly 3 steps a byte and 9 more, with waitpid returned |
| PipeRelay.EndOfFile | process_test/unnamed_pipe_test.c:32-35 | the child's read finds end of file if and only if the unused ends are closed, the parent has shut its write end and the whole argument is printed; the pipe is then empty |
| PipeRelay.OutputFollowsTheChild | process_test/unnamed_pipe_test.c:25-39 | for every schedule the output is the greeting, half as many bytes of the argument as the child has made loop steps, and the newline at the end |
| PipeRelay.WhatCanFollow | process_test/unnamed_pipe_test.c:25-51 | from the numbers of steps alone: the parent writes a byte exactly when the pipe has room and passes waitpid exactly when the child is gone; the child reads exactly when a byte is there, or the end of file when both write ends are closed; nobody is blocked elsewhere |
| PipeRelay.WithoutTheCloseEveryRunHangs | process_test/unnamed_pipe_test.c:26-27 | without the child's close every run that cannot go on has the child in read and the parent in waitpid, after the whole argument |
| PipeRelay.Pipeline.ParentStep | process_test/unnamed_pipe_test.c:40-50 | the closes, each byte of the write, waitpid |
| PipeRelay.Pipeline.ChildStep | process_test/unnamed_pipe_test.c:25-39 | the closes, the greeting, the byte loop |
| Fifo.OutputIsPrefixOfInput | process_test/fifo_read.c:21-32 | for every chunking on both sides, capacity and schedule the output is a prefix of what the writer has read and equals it at end of file |
| Fifo.OutputIsWhatWasGiven | process_test/fifo_write.c:31-32 | for every schedule what the writer has read is the concatenation of the chunks the standard input gave, the output is its first bytes, as many as were pulled by the last write, and all of it at end of file |
| Fifo.WhatCanFollow | process_test/fifo_read.c:21-22 | from the byte counts of the schedule alone: when the input is read again or ends, a byte is pushed, any number present is pulled, what was pulled is written out, the end of file is seen |
| Fifo.NothingRestsOnTheWay | process_test/fifo_write.c:31-43 | while some of the input is not written out one of the processes can move on |
| Fifo.InnerStepsAreBounded | process_test/fifo_write.c:31-43 | between two reads of the input the two processes make at most as many steps as the bytes on the way account for |
| Fifo.EveryRunAfterTheEndDelivers | process_test/fifo_read.c:21-32 | after the end of the input every run is bounded, cannot go on only when the reader is done, and then the output is the whole input |
| Fifo.Relay.WriterRead | process_test/fifo_write.c:31-43 | the read of a chunk, or the close at the end of the input |
| Fifo.Relay.WriterWrite | process_test/fifo_write.c:32 | a byte of the chunk goes into the pipe when there is room |
| Fifo.Relay.ReaderRead | process_test/fifo_read.c:21 | a read of any number of bytes present, or the end of file |
| Fifo.Relay.ReaderWrite | process_test/fifo_read.c:22 | what was read is written out |
| RwLock.WriterExcludesAll | thread_test/rwlock_test.c:38-60 | while a writer is in its section nobody else is |
| RwLockSharing.WhoCanBeInside | thread_test/rwlock_hungry_solved.c:13-82 | under either policy the sets of threads that can be in their sections together are exactly the sets of readers and the single writers |
| RwLockSharing.WhoCanGoOn | thread_test/rwlock_hungry_solved.c:13-44 | a thread that asks enters at once, or a waiting one at its next turn, exactly when nobody is in its way: for a writer anyone inside, for a reader a writer inside or, under writer preference, waiting; inside nobody is blocked |
| RwLockSharing.ReadersAloneNeverWait | thread_test/rwlock_test.c:18-30 | in a run in which no writer has asked no reader is ever waiting and each can always go on |
| RwLock.ReadersSeeCompletedWriters | thread_test/rwlock_test.c:18-30 | each reader sees the number of writers that had released the lock when it was admitted, and the values never decrease in the order of admission |
| RwLock.EveryReaderWasAdmitted | thread_test/rwlock_test.c:18-30 | every reader that has left is in the order of admission exactly once, with the value it saw |
| RwLock.RunsEndWithAllWritersCounted | thread_test/rwlock_test.c:18-60 | under either policy every run is bounded, cannot go on only when every thread has returned, and then shared_data is the number of writers |
| RwLock.NoReaderPassesAWaitingWriter | thread_test/rwlock_hungry_solved.c:13-65 | under writer preference, from any state in which a writer waits to any later one in which it still does, no reader is admitted |
| RwLockPassing.WhoCanPass | thread_test/rwlock_hungry_solved.c:13-65 | r readers and k writers can be admitted while a writer waits, in some run, if and only if r is at most R, k at most W - 1, r + k at most R + W - 2 (one thread was in the way when it began to wait), and under writer preference r is 0; for both policies, with a run for every such crowd |
| RwLockPassing.ReadersCanPassAWaitingWriter | thread_test/rwlock_write_hungry.c:18-59 | under the reader-admitting policy exactly the numbers of readers up to R can pass a waiting writer when there is a second writer, up to R - 1 when there is none |
| RwLockPassing.WritersCanPassAWaitingWriter | thread_test/rwlock_hungry_solved.c:13-65 | under writer preference exactly the numbers of writers up to W - 1 can pass when there is a reader, up to W - 2 when there is none, and no reader ever |
| RwLockOrders.AdmissionOrders | thread_test/rwlock_test.c:18-60 | under either policy the complete runs admit the readers in exactly these orders, with exactly these values: every order of all the readers, with any values from 0 to W that never decrease along it; both directions, with a run for every such order |
| RwLock.SharedData.Step | thread_test/rwlock_hungry_solved.c:13-44 | one step of one thread, with the lock deciding from its own counters |
| RwLock.SharedData.Move | thread_test/rwlock_test.c:18-60 | the lock's counters stay equal to the numbers of readers and writers inside and of writers waiting |
| Handoff.OneToken | thread_test/unnamed_sem_count_thread.c:30-77 | empty + full + producer in section + consumer in section is 1; the values read are a prefix of the values written, at most one behind |
| Handoff.StepsAreChannelSteps | thread_test/unnamed_sem_count_thread.c:30-77 | the pair is a one-slot channel: a write fills the empty slot, a read empties the full one and gets its value |
| Handoff.ReadsAreTheWrites | thread_test/unnamed_sem_count_thread.c:30-77 | for every schedule the values written are those of the producer's middle picks and the values read are the first of them, one for each read made |
| Handoff.WhatCanFollow | thread_test/unnamed_sem_count_thread.c:30-77 | from the two numbers of picks alone: the producer starts a round exactly when the consumer has finished as many, the consumer exactly when it has finished fewer than the producer, and inside a round nobody is blocked |
| Handoff.EveryRunHandsOverAll | thread_test/unnamed_sem_count_thread.c:91-102 | every run has at most 6 steps a round, cannot go on only when both loops are over, and then all values were read, empty is 1 and full is 0 |
| Handoff.Handover.ProducerStep | thread_test/unnamed_sem_count_thread.c:30-52 | wait, write, post |
| Handoff.Handover.ConsumerStep | thread_test/unnamed_sem_count_thread.c:58-77 | wait, read, post |
| NamedSem.Sessions | thread_test/named_sem_no_unlink.c:22-79 | over any sequence of completed runs from an absent name, the name is absent, or bound to 0 exactly after named_sem_no_unlink; the next run cannot complete, and cannot even start, exactly when it is named_sem_bin after named_sem_no_unlink |
| NamedSem.OneRun | thread_test/named_sem_bin.c:23-92 | from such a table every other run ends, the ordering programs with the son's line before the father's, the locked one with value 2 |
| NamedSem.CanComplete | thread_test/named_sem_count.c:23-75 | any run so far, however scheduled, on a semaphore the locked program does not find at 0, can be continued to a complete one, which leaves the name absent or, after named_sem_no_unlink, at 0 |
| NamedSem.SonFirstIffZero | thread_test/named_sem_count.c:23-75 | the son's line comes first in every run if and only if the semaphore found under the name is at 0 |
| NamedSem.ScheduleDecides | thread_test/named_sem_bin.c:23-92 | for every value found under the name and every schedule: the lines printed, the locked program's value (the chain of windows back from its last store) and what is left under the name, as functions of the schedule |
| NamedSem.WhatCanFollow | thread_test/named_sem_count.c:23-75 | from the two numbers of steps alone: a process is blocked only at a wait, exactly while the semaphore is at 0, and the father at waitpid exactly while the son is there |
| NamedSem.System.Launch | thread_test/named_sem_no_unlink.c:22-31 | O_CREAT takes the initial value only when the name is absent; a launch waits for the last run to be over |
| NamedSem.System.FatherStep | thread_test/named_sem_count.c:31-56 | the father's wait, line or increment, waitpid, unlink |
| NamedSem.System.SonStep | thread_test/named_sem_bin.c:50-75 | the son's line and post, or its locked increment |

## Left out

- RaceCounter.Tally.Access: does not model main's create and join loops; a thread not yet created is one not yet scheduled, and what main prints is the cell once every thread has returned.
- Mailbox.Exchange.ProducerRead: a read that fails is a read that is tried again. After a full buffer without a NUL, where strlen reads past the array, the model says nothing more of the producer.
- Mailbox.Exchange.ProducerSend: how long a send on a full queue waits is not modelled, clocks are left out: it may time out at once or never; and the first byte is compared as a signed char would be.
- PipeRelay.Pipeline.ParentStep: the write moves byte by byte when there is room; the atomicity of short writes only removes schedules. The parent's own printf and the contents of the greeting are not modelled.
- RwLock.SharedData.Step: which waiting thread gets the lock is left to the schedule, so the C library's own order among equals is not modelled.
- CondVar.Warehouse.ConsumerStep: the item taken is modelled, not the stock printed beside it, because the order in which the two printf arguments are evaluated is unspecified.
- NamedSem.System.Launch: refuses a launch while a run is going; programs running at once on the same name are not modelled.
- Handoff.Handover.ProducerStep: what rand_num returns is an input of the write step.
- Multi-producer and multi-consumer versions of condition_var.c: the program starts one of each.
- file_io and the fork, execve, waitpid, system, errno, perror, orphan and signal demonstrations: system calls in a straight line.
- shared_memory.c, shared_memory_block.c, erlou.c, erlou_block.c: they rely on sleep or loop for ever.
- thread_pool_test.c: the scheduling is the library's.
- terminate_test.c, the pthread_cancel and pthread_detach programs: a thread or two with a few states, ending on input or timing.
- rwlock_rw_alternate.c, rwlock_test_writer_unlock.c, unnamed_sem_bin_process_condition.c, unnamed_sem_count_process.c: instances of the protocols above; unnamed_sem_bin_process_illegal.c depends on undefined behaviour.
- Sleep, printing other than the data relayed, permissions, sizes of mappings, and failing opens and forks.
