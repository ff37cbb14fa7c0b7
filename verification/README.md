# Shoot: a verified model

Shoot is a small web server in C++: an asynchronous logger under `src/log`, an epoll
reactor under `src/net`, and the timer of its first version under `version1.0`. This
project models their concurrent and in-place core in Dafny and proves what it is there
for. `dafny verify dfyconfig.toml` checks all of it.

Two kinds of files work together. A *specification* (`AsyncLogSpec`, `EventLoopSpec`,
`RegistrationSpec`, `OwnershipSpec`, `DeadlineSpec`) is a state machine on values with a
total step function. Its events are the atomic steps of the threads: what a thread does
under the mutex, one system call, or a stretch on data that only it can see. A schedule
is any sequence of events; an event that cannot happen changes nothing, so a lemma about
every sequence is a lemma about every interleaving. The laws are of two kinds: what every
schedule keeps, and how far a thread gets on turns of its own, each of which is shown to be
possible when it comes. A *class* has the source's fields and
methods, on the heap, and the contract of a method of the logger, the loop, the timer or
the accept handler says which step of its specification it takes. `AsyncLog.Play`,
`Serving.Play` and `Timers.Play` take the objects through whole schedules. Ownership is
proved on the value model; `OwnershipLink` shows that the worker loop of `Serving.Play`
takes its steps, and `HandleNewConn` that the accept handler does. `ServerRuns` puts the
accepting thread and all workers together: there each worker's turns are a run as
`Serving.Play` asks for, because accept returns numbers that are not open.

* **Logger** (`AsyncLogSpec.dfy`, `AsyncLogging.dfy`, `FixedBuffer.dfy`). Buffer objects
  move between `curr_buffer_`, `next_buffer_`, `buffers_`, `buffers_to_write` and the two
  spares. Moving out of a null pointer and `back()` on an empty vector set a fault flag,
  whose absence is a theorem. The wait of line 81 may end for any reason.
* **Reactor** (`EventLoopSpec.dfy`, `RegistrationSpec.dfy`, `OwnershipSpec.dfy`,
  `ServiceSpec.dfy`, `OwnershipLink.dfy`, `ServerRuns.dfy`, `Reactor.dfy`, `Serving.dfy`,
  `TcpServer.dfy`, `RoundRobin.dfy`). The kernel is a map from
  descriptor to mask and armed bit, plus the eventfd counter, with the rules of
  epoll_ctl(2), epoll_wait(2) and eventfd(2). Producers have a program counter between
  their push and their write.
* **Timer** (`TimerHeap.dfy`, `Timers.dfy`). The array heap, its sift loops, and the expiry
  loop with lazy deletion, against a plain map of deadlines.
* **Text** (`Decimal.dfy`, `LogStream.dfy`). Integer formatting with C++ division, which
  truncates, and the stream over a bounded buffer. `Logger.Finish` connects the stream to
  the logger and discharges the length condition of the latter.
* **Short writes** (`ShortWrites.dfy`).

## Where the code departs from its intent

The code is modelled as it is. What fails is stated exactly:

* `stop()` does not force a last collection. `StopSavesResidueIff` says when what was
  appended before it is saved: exactly if the consumer was past its test of `running` and
  before its collection, or nothing was waiting. `StopLosesAMessage` is the shortest run
  that loses one.
* A task that the loop's own thread queues before `loop()` starts is not woken for
  (`EarlyPushIsLost`). `NoLostWakeup` says, for every schedule, that a sleeping loop is
  deaf to its queue exactly if it has never swapped it out and no other thread ever pushed.
* A descriptor of 100000 or more is closed, fcntl then fails on it, and the early return
  leaves the accept channel disarmed; the same happens, with a leaked descriptor, when fcntl
  fails otherwise. `AcceptsUntilRefusal` and `RefusalIsFinal` say that the server accepts
  up to the first such descriptor and never again; `RefusedAndSilent` is an instance.
* accept may return 0, which the code takes for a failure: the descriptor leaks (`ZeroIsLeaked`).
* A hang-up or an error without EPOLLIN is consumed and the connection stays disarmed.
  `ConnectionServedIff` says so for one report, and `DisarmedIffIgnored` and `Serving.Play`
  for whole runs: a published connection of a sleeping loop is disarmed exactly if some
  report of it lacked EPOLLIN. `HungUpAndDeaf` is such a run.
* `EPOLLONESHOT` is part of both event masks, so disabling one direction makes the other
  level-triggered: `OneShotIff`. No caller in the repository disables a single direction.
* `time_n_add` does not cancel the timer a request already has. `Time.Add` says that one
  live node per request survives exactly if the request was not armed. `Timers.Play` says for
  every history which armings an expiry fires: those that are due, not fired before and not
  cancelled before the request was armed again. `FiresTwiceIff` says when a request fires
  twice; in `ArmedTwiceFiresTwice` it does.
* `time_n_add` adds two size_t, so a sum beyond the maximum wraps around and the timer is due
  early: `Time.Add` gives the key in both cases.
* After an error the string `writen` keeps what it has already sent. `SessionBalances` says
  exactly when a series of calls ends that way and how much a caller that goes on sends
  twice; `SentTwice` is an instance.
* A retry of fwrite that takes nothing loses the rest of that buffer. `WriteFile.Append` says
  that something is lost exactly if a retry that is made takes nothing, and how much then
  reached the file; `AsyncLog.Play` says so for whole runs. `StalledRetryLoses` has a disk
  that loses two characters, and one on which a later refusal loses none.
* `pq_insert` has no capacity check; the room is a precondition, and where a history runs
  out of room `Timers.Play` stops.

## Model

| member | source | states |
|---|---|---|
| AsyncLogSpec.Conservation | src/log/async_logging.cpp:41-126 | after any schedule, collected plus waiting messages are in lock order all that fit a buffer, and file plus still-to-be-written is that minus positions 2 onward of collections longer than 25 |
| AsyncLogSpec.NothingTornOrReordered | src/log/async_logging.cpp:41-126 | file, pending writes and waiting messages together are a subsequence of the messages appended, even when some are dropped |
| AsyncLogSpec.OverloadIsTheOnlyLoss | src/log/async_logging.cpp:98-100 | the overload rule accounts for every collected message that is not written; nothing is missing iff it dropped nothing |
| AsyncLogSpec.SurvivingIsSubsequence | src/log/async_logging.cpp:98-105 | dropping by the overload rule keeps the order of the rest |
| AsyncLogSpec.RetainedIsSubsequence | src/log/async_logging.cpp:43-54 | losing oversized messages keeps the order of the rest |
| AsyncLogSpec.RecyclingIsSafe | src/log/async_logging.cpp:45-56 | no null buffer is moved from and no empty vector popped in any schedule; the spare is missing iff buffers are queued; both consumer spares are empty buffers at the loop head; a message that fits a buffer is always taken |
| AsyncLogSpec.RotationFindsRoom | src/log/async_logging.cpp:46-54 | the append that follows a rotation succeeds |
| AsyncLogSpec.AppendOwnership | src/log/async_logging.cpp:41-57 | appending keeps buffers distinct, spares empty and every fill level below the capacity |
| AsyncLogSpec.AppendResidue | src/log/async_logging.cpp:41-57 | appending adds the message, at the end, to what waits, or nothing if it fits no buffer |
| AsyncLogSpec.CollectOwnership | src/log/async_logging.cpp:83-91 | a collection leaves the producers with an empty current buffer and a spare, and the consumer with a batch |
| AsyncLogSpec.CollectLedger | src/log/async_logging.cpp:83-91 | a collection takes over everything that waited, in order |
| AsyncLogSpec.TrimKeeps | src/log/async_logging.cpp:98-100 | the overload rule keeps the whole invariant |
| AsyncLogSpec.WriteKeeps | src/log/async_logging.cpp:102-105 | so does writing one buffer |
| AsyncLogSpec.RecycleOwnership | src/log/async_logging.cpp:107-122 | recycling restores both spares and frees exactly what the batch had beyond two buffers |
| AsyncLogSpec.RecycleKeeps | src/log/async_logging.cpp:107-122 | recycling keeps the whole invariant |
| AsyncLogSpec.StepKeeps | src/log/async_logging.cpp:41-126 | every step of every thread keeps ownership, conservation and the count of buffers |
| AsyncLogSpec.ExecKeeps | src/log/async_logging.cpp:41-126 | so does every schedule |
| AsyncLogSpec.BufferAccounting | src/log/async_logging.cpp:46-53 | created buffers are the freed plus the live ones; at the loop head 4 are live and one more for each queued buffer after the first; nothing is ever allocated iff no two rotations fall between collections |
| AsyncLogSpec.LiveIsAccounted | src/log/async_logging.cpp:65-66 | the count of live buffers follows from the invariant |
| AsyncLogSpec.NoExcess | src/log/async_logging.cpp:46-53 | nothing was over-allocated iff every collection had at most two buffers |
| AsyncLogSpec.CollectedIsWritten | src/log/async_logging.cpp:73-124 | bounded staleness: once the iteration that collected is over, all that was appended before is in the file but for what the overload rule dropped |
| AsyncLogSpec.StopSavesResidueIff | src/log/async_logging.cpp:24-28 | messages from before stop are taken over iff stop found the consumer on its way into a collection or nothing waiting |
| AsyncLogSpec.StopLosesAMessage | src/log/async_logging.cpp:24-28 | the run of three events in which a message is appended and never written |
| AsyncLogSpec.RunAfterStop | src/log/async_logging.cpp:73-81 | after stop the consumer makes one more collection or none, depending on where it was |
| AsyncLogSpec.ExitState | src/log/async_logging.cpp:73-126 | an exited consumer has written what survives of everything appended before its last collection; the residue is the rest |
| AsyncLogSpec.IterationWrites | src/log/async_logging.cpp:73-124 | progress: after any schedule, a running consumer at its loop head can go through an iteration on its own turns, and then nothing waits and the file has gained everything that did, or the first two buffers if more than 25 had filled up |
| AsyncLogSpec.IterationEnds | src/log/async_logging.cpp:78-122 | so can a consumer at any other line: it gets back to the loop head, with what it had to write in the file |
| AsyncLogSpec.StoppedConsumerExits | src/log/async_logging.cpp:24-28 | once told to stop, the consumer can finish its iteration and exits, with that in the file |
| AsyncLogSpec.RotatesIff | src/log/async_logging.cpp:43-54 | the current buffer is queued iff the message does not fit what is left of it |
| AsyncLog.AsyncLogging.constructor | src/log/async_logging.cpp:3-17 | four distinct empty buffers, two with the producers and two with the consumer |
| AsyncLog.AsyncLogging.Append | src/log/async_logging.cpp:41-57 | a producer's critical section is the append step, on buffer objects |
| AsyncLog.AsyncLogging.MakeRoom | src/log/async_logging.cpp:46-53 | the full buffer is queued and the spare, or a new buffer, becomes current |
| AsyncLog.AsyncLogging.Stop | src/log/async_logging.cpp:24-28 | only the flag changes |
| AsyncLog.AsyncLogging.Head | src/log/async_logging.cpp:73 | the test of the flag: on to the mutex, or out |
| AsyncLog.AsyncLogging.Lock | src/log/async_logging.cpp:78-91 | waits if nothing is queued, else collects |
| AsyncLog.AsyncLogging.Wake | src/log/async_logging.cpp:81-91 | collects after the wait whatever ended it, also with nothing queued |
| AsyncLog.AsyncLogging.Take | src/log/async_logging.cpp:83-87 | queue and current buffer change hands, new_buffer1 becomes current |
| AsyncLog.AsyncLogging.Refill | src/log/async_logging.cpp:89-91 | new_buffer2 replaces a used spare |
| AsyncLog.AsyncLogging.Trim | src/log/async_logging.cpp:98-100 | the overload rule on the vector of pointers |
| AsyncLog.AsyncLogging.Write | src/log/async_logging.cpp:102-105 | one buffer is passed to the file, in order, and what the file gets of it is what `WriteFile.Append` accepts: all, or what was granted before the retry that took nothing |
| AsyncLog.AsyncLogging.Shrink | src/log/async_logging.cpp:107-109 | at most two buffers are kept |
| AsyncLog.AsyncLogging.Reuse1 | src/log/async_logging.cpp:111-115 | the last written buffer, emptied, becomes new_buffer1 |
| AsyncLog.AsyncLogging.Reuse2 | src/log/async_logging.cpp:117-121 | the same for new_buffer2 |
| AsyncLog.AsyncLogging.Clear | src/log/async_logging.cpp:122 | the rest is let go |
| AsyncLog.AsyncLogging.Recycle | src/log/async_logging.cpp:107-122 | the four together are the recycling step |
| AsyncLog.AsyncLogging.Turn | src/log/async_logging.cpp:41-126 | one turn of any thread takes one step of the specification, and reaches the file exactly if it writes a buffer |
| AsyncLog.Play | src/log/async_logging.cpp:41-126 | any interleaving, on heap objects and on any disk: the logger follows the specification, what is passed to the file is the surviving messages in order, the file holds what the disk accepts of each buffer, and nothing is missing iff in no turn that writes a buffer the disk stalls on it |
| AsyncLog.CompleteIff | src/log/file2disk.cpp:14-28 | over any run the accepted texts are the written ones iff no retry that is made takes nothing |
| FixedBuffers.FixedBuffer.Append | src/log/fixed_buffer.h:14-19 | all of the piece is added or none, and at least one character stays free |
| FixedBuffers.FixedBuffer.Add | src/log/fixed_buffer.h:26 | characters written at the cursor become the last piece |
| FixedBuffers.FixedBuffer.Reset | src/log/fixed_buffer.h:28 | nothing is left, whatever was there |
| FixedBuffers.FixedBuffer.Bzero | src/log/fixed_buffer.h:29 | the cursor stays, so a used buffer then reads as zeros |
| ShortWrites.WriteFile.Append | src/log/file2disk.cpp:14-28 | less than the line reaches the file iff a retry that is made takes nothing, and then exactly what the calls before it were granted; the file is the concatenation of what was accepted |
| ShortWrites.StalledRetryLoses | src/log/file2disk.cpp:20-24 | a retry that takes nothing loses the rest, and a refusal after the last retry loses nothing |
| ShortWrites.Output.WritenString | src/net/tools.cc:109-138 | what is sent and what stays in the string make up the original, and the result is what was sent, unless the call fails |
| ShortWrites.Output.WritenBytes | src/net/tools.cc:140-164 | a prefix is sent; everything is sent iff the length comes back |
| ShortWrites.StopsIff | src/net/tools.cc:114-161 | a call of either version ends in an error, or the first of them gives up at EAGAIN, iff its replies reach one before all is sent, and it has then sent what came before |
| ShortWrites.BrokenIff | src/net/tools.cc:114-130 | a call fails iff its replies reach an error before all is sent or an EAGAIN; it has then sent what the replies before the error took |
| ShortWrites.SendsWhatIsTaken | src/net/tools.cc:109-164 | a call that meets no error sends exactly what the kernel takes, and ends once that is everything |
| ShortWrites.SessionBalances | src/net/tools.cc:109-138 | over any series of calls and partial counts nothing is lost or reordered; the series ends in an error iff some call reaches one, and what goes on to be sent twice is exactly what that call had sent |
| ShortWrites.SentTwice | src/net/tools.cc:123 | one character sent twice |
| Decimal.RoundTrip | src/log/log_stream.cpp:13-30 | the text of every integer is canonical (no leading zeros, a minus iff negative) and parses back to it |
| Decimal.RenderIsTheOnlyText | src/log/log_stream.cpp:13-30 | every canonical text is the rendering of its value |
| Decimal.DigitsLength | src/log/log_stream.cpp:18-22 | a number has at most k digits iff it is below ten to the k |
| Decimal.SixtyFourBitLength | src/log/log_stream.cpp:142-149 | every 64-bit value, signed or unsigned, takes at most 20 characters |
| Decimal.DivideByTen | src/log/log_stream.cpp:19-20 | truncating division keeps the remainder in -9..9, and its absolute values are those of the absolute value |
| Decimal.DigitCharIsSymmetric | src/log/log_stream.cpp:10-11 | the digit table gives the same digit for d and -d |
| Decimal.NextDigit | src/log/log_stream.cpp:18-22 | one turn of the loop moves one digit and indexes the table within bounds |
| Decimal.ReverseRange | src/log/log_stream.cpp:28 | the in-place reversal |
| Decimal.Convert | src/log/log_stream.cpp:13-30 | the loop writes the decimal text of the value and a terminator, and touches nothing else, for every value including the most negative |
| LogStreams.ItemsAreAllOrNothing | src/log/log_stream.cpp:32-149 | for every sequence of `<<` the kept items are a subsequence of those asked for, and a character stays free |
| LogStreams.AllKept | src/log/log_stream.cpp:32-149 | items that together leave 32 characters free are all kept |
| LogStreams.LogStream.PutText | src/log/log_stream.cpp:99-131 | a text is appended whole iff it leaves a character free of 4000, and otherwise nothing changes |
| LogStreams.LogStream.PutCString | src/log/log_stream.cpp:104-111 | a null pointer counts as "(null)" |
| LogStreams.LogStream.PutBool | src/log/log_stream.cpp:32-35 | "1" or "0" |
| LogStreams.LogStream.PutInteger | src/log/log_stream.cpp:142-149 | the decimal text is formatted in place and appended iff 32 characters are free, within the array |
| LogStreams.LogStream.PutFloat | src/log/log_stream.cpp:82-97 | the same for text that snprintf provides |
| LogStreams.LogStream.Read | src/log/log_stream.cpp:133-135 | the content is the concatenation of the kept items, shorter than the buffer; and of all items if they leave 32 characters free |
| LogStreams.LogStream.ResetBuffer | src/log/log_stream.cpp:137-139 | an empty stream |
| LogStreams.Logger.constructor | src/log/logger.cpp:6-28 | a statement starts with its time |
| LogStreams.Logger.Complete | src/log/logger.cpp:31-34 | a statement ends with its source position; a statement that leaves 32 characters free is complete |
| LogStreams.Logger.Finish | src/log/logger.cpp:31-37 | the whole statement is one append to the logger, always short enough to be retained |
| LogStreams.ShortIsRetained | src/log/fixed_buffer.h:42-43 | whatever fits a small buffer fits a large one |
| TimerHeap.RootIsLeast | version1.0/heap.cpp:65-67 | in an ordered heap nothing is due before the root |
| TimerHeap.UpStep | version1.0/heap.cpp:28-37 | a turn of up keeps the heap ordered except above the hole |
| TimerHeap.DownStep | version1.0/heap.cpp:43-56 | a turn of down keeps the heap ordered except below the hole |
| TimerHeap.DownDone | version1.0/heap.cpp:49-54 | where down stops the heap is ordered |
| TimerHeap.PoppedOrder | version1.0/heap.cpp:60 | moving the last node to the root leaves a hole at the root only |
| TimerHeap.PoppedBag | version1.0/heap.cpp:60 | and removes exactly the old root |
| TimerHeap.PriorityQueue.Up | version1.0/heap.cpp:28-37 | makes an ordered heap of the same nodes |
| TimerHeap.PriorityQueue.Down | version1.0/heap.cpp:43-56 | the same from above |
| TimerHeap.PriorityQueue.Insert | version1.0/heap.cpp:21-26 | a valid heap with exactly this node more |
| TimerHeap.PriorityQueue.Front | version1.0/heap.cpp:65-67 | a node of least key |
| TimerHeap.PriorityQueue.Pop | version1.0/heap.cpp:58-63 | a valid heap with exactly that node less |
| TimerHeap.PriorityQueue.IsEmpty | version1.0/heap.cpp:39-41 | true iff the queue holds no node |
| DeadlineSpec.ArmedIff | version1.0/time.cpp:37-56 | a request is armed iff some arming has not been replaced, cancelled or fired since, and then with that deadline |
| DeadlineSpec.FiresIff | version1.0/time.cpp:16-35 | an expiry fires a request iff such an arming is due |
| DeadlineSpec.OneArming | version1.0/time.cpp:37-56 | at most one arming of a request is in force |
| DeadlineSpec.LiveIff | version1.0/time.cpp:16-56 | the armings that adding, lazy cancelling and expiring leave live are those for which no expiry was due and whose request was not cancelled before it was armed again |
| Timers.Time.constructor | version1.0/time.cpp:3-14 | no timers, an empty heap, the time of the clock |
| Timers.Time.Turn | version1.0/time.cpp:18-33 | one turn drops a deleted node, fires a due one, or finds the earliest node not due |
| Timers.Time.Drain | version1.0/time.cpp:17-34 | the loop ends; nodes fire once each in order of key |
| Timers.Time.HandleExpired | version1.0/time.cpp:16-35 | what leaves the queue was deleted or fired, what fired was live, due and fires once in key order, live nodes that stay are not due at the last reading; the requests fired are exactly the due ones of the deadline map, none twice |
| Timers.Time.Add | version1.0/time.cpp:37-48 | one node more, tied to its request and due at the sum of time and timeout, less two to the 64 if that does not fit a size_t; one live node per request is kept iff the request was not armed |
| Timers.Time.Cancel | version1.0/time.cpp:50-56 | the node stays in the heap, marked, and the request is no longer armed |
| Timers.ExpiryKeepsTied | version1.0/time.cpp:16-35 | after an expiry the armed requests still have one live node each, and the fired requests are the due ones |
| Timers.FiredOnce | version1.0/time.cpp:26-33 | with one live node per request no request fires twice in an expiry |
| Timers.Perform | version1.0/time.cpp:16-65 | one call of any kind is the operation of the same kind on the deadlines, at the time it shows; it adds one live node, takes the live node of the request out, or fires exactly the live nodes that are due |
| Timers.Play | version1.0/time.cpp:16-65 | any history of calls on a timer object: the deadlines are those of the history; if no clock goes back, each expiry fires, once each and in order, the nodes of exactly those armings that are in force and due, however often a request is armed, and none before its timeout is over; if also no armed request is armed again, each request has one live node and exactly the due requests fire |
| Timers.FiresExactlyIff | version1.0/time.cpp:16-56 | a fired request is one that was armed, not re-armed, cancelled or fired since, and is due |
| Timers.FiredInTime | version1.0/time.cpp:26-42 | no expiry fires an arming before the time of arming plus the timeout |
| Timers.LiveNext | version1.0/time.cpp:16-56 | each call takes the nodes of the armings in force before it to those of the armings in force after it, and an expiry fires those that are due |
| Timers.FiresTwiceIff | version1.0/time.cpp:37-48 | an expiry fires a request twice iff two due armings of it are in force |
| Timers.ArmedTwiceFiresTwice | version1.0/time.cpp:37-48 | a request armed twice fires twice |
| EventLoopSpec.TasksRunOnceInOrder | src/net/EventLoop.cc:94-116 | executed, unrun and pending tasks are the queued ones in lock order; each runs in the round after the one it was pushed in |
| EventLoopSpec.OrderedStep | src/net/EventLoop.cc:94-116 | every step keeps that order |
| EventLoopSpec.WakeableStepIff | src/net/EventLoop.cc:94-131 | a step keeps the loop wakeable iff it is not an unsignalled own-thread push before the loop runs |
| EventLoopSpec.NoLostWakeup | src/net/EventLoop.cc:41-131 | in every schedule a loop that may sleep has its wake channel armed, and disarmed means that its report is in hand; with tasks queued, no signal is on its way iff the queue was never swapped out and no other thread ever pushed |
| EventLoopSpec.EarlyPushIsLost | src/net/EventLoop.cc:94-102 | the schedule in which a task queued before the loop is never woken for |
| EventLoopSpec.RoundDrains | src/net/EventLoop.cc:41-55 | one wakeup, left alone, runs everything that was queued and re-arms |
| EventLoopSpec.WakingDrainsTheQueue | src/net/EventLoop.cc:41-131 | whatever the schedule so far, once the writers are through the sleeping loop can be woken and then empties its queue |
| EventLoopSpec.AwakeLoopSleeps | src/net/EventLoop.cc:41-116 | no deadlock: after any schedule a loop that is awake can go on with its own turns until it sleeps, having run its round and, if it had not swapped it out, all of the queue |
| EventLoopSpec.WakeupCompletes | src/net/EventLoop.cc:94-123 | a thread that has queued a task can write the eventfd, which is readable then |
| EventLoopSpec.RunningTaskQueues | src/net/EventLoop.cc:94-102 | a running task can queue another, and the loop then wakes itself |
| RegistrationSpec.ApplyAgrees | src/net/EventLoop.cc:58-79 | each call keeps channel and kernel in agreement, leaves other descriptors alone, and is refused only when it removes an unregistered channel |
| RegistrationSpec.ApplyIsLocal | src/net/EventLoop.cc:58-79 | no call touches another descriptor, and enabling a channel that is not registered leaves its descriptor registered, armed and with its mask if it was not there |
| RegistrationSpec.StepAgrees | src/net/Channel.cc:83-107 | the same for a table of channels |
| RegistrationSpec.ChannelsAndKernelAgree | src/net/Channel.cc:42-107 | over every sequence of calls and reports status and mask agree with the kernel, and the refused calls are exactly the premature removals |
| RegistrationSpec.OneShotIff | src/net/Channel.cc:83-107 | the report that follows a call disarms the channel iff the call enabled a direction; disabling one leaves the other armed for good |
| RegistrationSpec.AsksFor | src/net/Channel.cc:83-107 | enabling a direction asks the kernel for its events, disabling does not, and the other direction stays as it was |
| RegistrationSpec.InputIsDelivered | src/net/Channel.cc:8 | a channel that asks to read can be told of input and never of output, and a report of it without input is of urgent data, an error or a hang-up |
| RegistrationSpec.CallbacksInOrder | src/net/Channel.cc:53-81 | exactly which callbacks are made for any events and any callbacks installed: errors, input, output, in this order, or the close callback alone |
| RegistrationSpec.OutcomeIs | src/net/TcpConnection.cc:38-70 | the read loop ends on the first answer that is not an error |
| RegistrationSpec.ReadIff | src/net/Channel.cc:53-74 | which events lead a connection to its read and its error callback |
| RegistrationSpec.ConnectionServedIff | src/net/Channel.cc:53-81 | a reported connection ends up armed again or gone iff EPOLLIN is among the events and the read loop ends; otherwise it stays registered and disarmed |
| OwnershipSpec.EachDescriptorHasOneHolder | src/net/EventLoop.cc:145-153 | after any schedule every open descriptor is queued with one loop, published by one loop, awaiting its last reference, or leaked, and nothing else is held; put never meets a key |
| OwnershipSpec.NoDescriptorWithTwoLoops | src/net/EventLoop.cc:145-153 | no descriptor is published or watched by two loops, or queued beside either |
| OwnershipSpec.NothingDangles | src/net/TcpConnection.cc:160-193 | every channel pointer in an epoll set or an active list belongs to a connection its loop still holds, for any reuse of the number |
| OwnershipSpec.StepKeeps | src/net/TcpConnection.cc:160-193 | every step of every thread keeps ownership |
| OwnershipSpec.PutOwns | src/net/TcpConnection.cc:185-193 | the connection at the head of the queue has no entry yet, and gets one |
| OwnershipSpec.AdmitKeeps | src/net/TcpServer.cc:55-79 | handing a new connection over, or serving it in line, keeps ownership |
| OwnershipSpec.AcceptKeeps | src/net/TcpServer.cc:48-83 | so does every other way through the accept handler |
| OwnershipSpec.PutKeeps | src/net/EventLoop.cc:145-147 | so does publishing |
| OwnershipSpec.UnwatchWatches | src/net/TcpConnection.cc:160-181 | removing the channel of the connection being handled leaves the rest of the batch valid |
| OwnershipSpec.EraseKeeps | src/net/EventLoop.cc:149-153 | so does dropping it |
| OwnershipSpec.ReleaseKeeps | src/net/TcpConnection.cc:31-35 | the last reference closes a descriptor that nobody else holds |
| OwnershipSpec.ClosingEnds | src/net/TcpConnection.cc:160-183 | after any schedule, a loop that handles a connection can close it, and the last reference then closes its descriptor |
| OwnershipSpec.AcceptsUntilRefusal | src/net/TcpServer.cc:55-81 | the accept channel is armed iff no refused descriptor has been accepted |
| OwnershipSpec.RefusalIsFinal | src/net/TcpServer.cc:63-66 | after a refusal no connection is ever made |
| OwnershipSpec.RefusedAndSilent | src/net/TcpServer.cc:58-66 | two first descriptors after which no connection is ever made |
| OwnershipSpec.ZeroIsLeaked | src/net/TcpServer.cc:55 | the number 0 counts as a failure: it stays open, held by nobody |
| OwnershipSpec.HandedOverEvenly | src/net/EventLoopPool.cc:32-41 | over every run the numbers of connections given to any two loops differ by at most one, and the index stays in range |
| OwnershipLink.FollowsOwnership | src/net/EventLoop.cc:41-153 | each turn of a worker loop is a series of steps of OwnershipSpec on that loop, in the order of the code, and meets no key |
| OwnershipLink.RunFollows | src/net/TcpConnection.cc:185-193 | a task that publishes a connection is put, then enable |
| OwnershipLink.HandleFollows | src/net/TcpConnection.cc:160-183 | a handler that closes is unwatch, then erase; any other is serve |
| OwnershipLink.WaitFollows | src/net/Epoll.cc:63-80 | a report is one that OwnershipSpec allows |
| OwnershipLink.HandOverFollows | src/net/TcpServer.cc:67-78 | handing over is what the accept step does to the chosen loop |
| OwnershipLink.AcceptIsNew | src/net/TcpServer.cc:54-78 | a number that accept returns is neither queued with the chosen loop nor in its map, by ownership |
| ServerRuns.EachWorkerRuns | src/net/TcpServer.cc:48-83 | in every run of accepting thread and workers, each worker takes a possible run of its own, and has queued, published and in hand what the schedule of OwnershipSpec gives the loop of its number |
| ServerRuns.PublishedOnce | src/net/EventLoop.cc:145-153 | no two workers publish one descriptor, and a published one is open and not leaked |
| ServerRuns.AcceptedIsQueued | src/net/TcpServer.cc:54-78 | while the server accepts, any number that is not open can be accepted, and the connection is then queued with the worker whose turn it is, which can be woken |
| ServerRuns.NextKeeps | src/net/TcpServer.cc:48-83 | every event of every thread keeps all workers in possible runs and the ownership of descriptors |
| ServerRuns.HandOverKeeps | src/net/TcpServer.cc:67-78 | the chosen worker can take the connection that is handed to it |
| ServiceSpec.NextSane | src/net/EventLoop.cc:41-153 | each turn of a worker loop keeps queued connections new, published ones registered under their own number, and batches without stale or repeated channels |
| ServiceSpec.RunIsSane | src/net/EventLoop.cc:41-153 | so does every run |
| ServiceSpec.FollowsProtocol | src/net/EventLoop.cc:41-131 | its tasks and wakeups are those of EventLoopSpec |
| ServiceSpec.DeafIff | src/net/Channel.cc:57-61 | the descriptors of which some report was consumed without EPOLLIN |
| ServiceSpec.DisarmedIffIgnored | src/net/Channel.cc:53-81 | in every run, a published connection of a loop about to sleep is disarmed iff some report of it was consumed without EPOLLIN |
| ServiceSpec.IgnoredForAReason | src/net/Channel.cc:8 | a report without EPOLLIN told of urgent data, an error or a hang-up |
| ServiceSpec.AnsweredOnce | src/net/TcpConnection.cc:38-70 | a report is answered once for an error and once for data, however long its read loop spins |
| ServiceSpec.RequestIsAnswered | src/net/Channel.cc:68-73 | in any run, a sleeping loop can be told of input on any connection it has armed; it reads, offers one answer and arms the connection again |
| ServiceSpec.HungUpAndDeaf | src/net/Channel.cc:57-61 | the run in which a connection is handed over and published, its peer hangs up, and the loop sleeps with the connection published and disarmed |
| RoundRobin.ExactShare | src/net/EventLoopPool.cc:32-41 | the exact number of the first k choices that fall on an index |
| RoundRobin.Balanced | src/net/EventLoopPool.cc:32-41 | any two indices are chosen equally often, give or take one |
| Reactor.Epoll.EpollAdd | src/net/Epoll.cc:24-35 | refused iff the descriptor is watched, and then nothing changes; otherwise it is armed with the mask of the channel; no other descriptor changes |
| Reactor.Epoll.EpollMod | src/net/Epoll.cc:50-60 | refused iff the descriptor is not watched; otherwise it is armed afresh with the mask of the channel; no other descriptor changes |
| Reactor.Epoll.EpollDel | src/net/Epoll.cc:38-47 | refused iff the descriptor is not watched; afterwards it is not, and no other descriptor changes |
| Reactor.Epoll.Poll | src/net/Epoll.cc:63-80 | the channels reported, in order, each with its events; one-shot channels are disarmed; there is room for more next time |
| Reactor.Channel.constructor | src/net/Channel.cc:11-16 | not registered, no events |
| Reactor.Channel.Update | src/net/Channel.cc:47-51 | adds or modifies, by status |
| Reactor.Channel.Remove | src/net/Channel.cc:42-45 | removes |
| Reactor.Channel.EnableRead | src/net/Channel.cc:83-87 | channel and kernel change together as specified; input is asked for, once, and output as before |
| Reactor.Channel.EnableWrite | src/net/Channel.cc:89-92 | likewise for output |
| Reactor.Channel.DisableRead | src/net/Channel.cc:94-97 | channel and kernel change together as specified; input is not asked for, and output as before |
| Reactor.Channel.DisableWrite | src/net/Channel.cc:99-102 | likewise for output |
| Reactor.Channel.DisableAll | src/net/Channel.cc:104-107 | nothing is asked for |
| Reactor.Channel.HandleEvents | src/net/Channel.cc:53-81 | which callbacks are made, in which order |
| Reactor.ReportDisarms | src/net/Epoll.cc:66-75 | a report disarms the wake channel iff the channel is part of it |
| Reactor.EventLoop.constructor | src/net/EventLoop.cc:17-31 | the loop starts with its wake channel registered and armed |
| Reactor.EventLoop.UpdateChannel | src/net/EventLoop.cc:58-71 | adds a channel that is new or deleted, modifies one that is added |
| Reactor.EventLoop.RemoveChannel | src/net/EventLoop.cc:74-79 | removes it and forgets the status |
| Reactor.EventLoop.Put | src/net/EventLoop.cc:145-147 | insert does not replace an entry |
| Reactor.EventLoop.Erase | src/net/EventLoop.cc:149-153 | the entry is gone, others stay |
| Reactor.EventLoop.Queue | src/net/EventLoop.cc:94-98 | the push under the mutex is the push step |
| Reactor.EventLoop.WakeUp | src/net/EventLoop.cc:118-123 | the eventfd write is the write step |
| Reactor.EventLoop.Start | src/net/EventLoop.cc:41-45 | the loop begins |
| Reactor.EventLoop.PollReturns | src/net/EventLoop.cc:46-47 | the answer of epoll_wait is the poll step, kernel included |
| Reactor.EventLoop.HandleWake | src/net/EventLoop.cc:125-127 | the wake channel is handled: the eventfd is read |
| Reactor.EventLoop.HandleConnection | src/net/EventLoop.cc:48-50 | a connection of the batch is handled: its callbacks are made, with the answers they offer, the error callback once however long the read spins; unless it still reads the batch moves on; the wake channel is left alone |
| Reactor.EventLoop.Respond | src/net/Channel.cc:53-81 | the peer is offered one answer for an error and one when a read finds data; the connection is re-armed or closed, and then disconnected, iff EPOLLIN is among the events; no other descriptor is touched |
| Reactor.EventLoop.Rearm | src/net/EventLoop.cc:125-129 | re-arming the wake channel in the kernel is the re-arm step |
| Reactor.EventLoop.Finish | src/net/EventLoop.cc:105-107 | the flag is set before the swap |
| Reactor.EventLoop.Swap | src/net/EventLoop.cc:108-111 | the swap under the mutex is the swap step |
| Reactor.EventLoop.RunNext | src/net/EventLoop.cc:112-114 | the next task runs, publishes its connection and leaves the wake channel alone |
| Reactor.EventLoop.End | src/net/EventLoop.cc:115 | the flag is cleared after the last task |
| Reactor.TCPConnection.constructor | src/net/TcpConnection.cc:12-28 | connected, its channel not registered, with read and error callbacks only |
| Reactor.TCPConnection.NewEvent | src/net/TcpConnection.cc:185-193 | published, and its channel enabled |
| Reactor.TCPConnection.HandleClose | src/net/TcpConnection.cc:160-171 | disabled, removed and erased |
| Reactor.TCPConnection.DestroyConn | src/net/TcpConnection.cc:173-183 | the same, disabling only a connection still connected |
| Reactor.TCPConnection.HandleRead | src/net/TcpConnection.cc:38-70 | answered and re-armed on data, closed at the end of the stream, and spinning on any error |
| Reactor.AnswerIsComplete | src/net/TcpConnection.cc:135-158 | the fixed answer is a complete message: it starts with the status line, the length it declares parses to that of what follows the blank line, no header line is blank, and the whole fits the buffer it is sent from |
| Reactor.Lifetime | src/net/TcpConnection.cc:160-193 | a connection's whole life leaves kernel and map as they were, without a refused call |
| Serving.TakeQueue | src/net/EventLoop.cc:94-98 | queueing a task changes the objects as the turn of the service does |
| Serving.TakeQuiet | src/net/EventLoop.cc:94-123 | so do the turns that touch neither kernel nor connections |
| Serving.TakeWait | src/net/EventLoop.cc:46-47 | so does the answer of epoll_wait, which disarms what it reports |
| Serving.TakeWake | src/net/EventLoop.cc:125-127 | so does reading the eventfd |
| Serving.TakeRead | src/net/TcpConnection.cc:38-70 | so does a connection's handler, whose channel leads back to the published connection, which offers its peer the answers that the turn of the service counts |
| Serving.TakeRearm | src/net/EventLoop.cc:128 | so does re-arming the wake channel |
| Serving.TakeRun | src/net/EventLoop.cc:112-114 | so does a task, which publishes its connection and arms it |
| Serving.Take | src/net/EventLoop.cc:41-131 | every turn of a thread changes objects and kernel as the turn of the service does, and offers what it says |
| Serving.Play | src/net/EventLoop.cc:41-153 | any possible run of a worker loop on its objects, connections handed over, published, reported, read, closed and numbers reused: the kernel watches exactly the published ones and the wake channel and refuses nothing; a sleeping loop is armed, loses a wakeup only as NoLostWakeup says, and has a connection disarmed iff a report of it lacked EPOLLIN; each peer has been offered the answer once for every error callback and every read that found data, and a connection is disconnected iff a read found its end |
| TcpServers.EventLoopPool.GetNextLoop | src/net/EventLoopPool.cc:32-41 | the k-th call gives loop k modulo their number, or the base loop if there is none |
| TcpServers.TCPServer.constructor | src/net/TcpServer.cc:10-24 | an accept channel of its own on the base loop, not yet registered |
| TcpServers.TCPServer.Rearm | src/net/TcpServer.cc:81 | the accept channel is armed, nothing else changes |
| TcpServers.TCPServer.Serve | src/net/TcpServer.cc:67-78 | without workers the base loop publishes and watches the connection |
| TcpServers.TCPServer.HandOver | src/net/TcpServer.cc:67-78 | a worker gets the task and is woken, and the other loops are untouched |
| TcpServers.TCPServer.Welcome | src/net/TcpServer.cc:67-78 | the connection is published by the base loop or queued with the worker, which is woken |
| TcpServers.TCPServer.Admit | src/net/TcpServer.cc:55-78 | a descriptor uses up a turn of the pool; it is refused iff it is too high or fcntl fails, and then no loop changes |
| TcpServers.TCPServer.HandleNewConn | src/net/TcpServer.cc:48-83 | the handler is the accept step of OwnershipSpec: the descriptors it opens and closes, the turn of the pool, the connection it makes and the loop it makes it for; the accept channel is armed again iff that step leaves it armed |

## Left out

- AsyncLog.AsyncLogging.Append: requires a length that fits an int, because the code casts it to one.
- TimerHeap.PriorityQueue.Insert: requires a free index, because the code has no check; it also returns nothing from a function with a result, which the model ignores.
- LogStreams.LogStream.PutFloat: `snprintf` is an oracle for the text, assumed to be shorter than 32 characters.
- Reactor.Channel.HandleEvents: gives the callbacks in order, and `EventLoop.Respond` makes them; the two are one function in the code.
- Reactor.TCPConnection.HandleRead: what write(2) makes of the answer is not modelled, since the code ignores its result; `settled` is false where the code would spin on.
- Serving.Play: is about one worker loop on its objects; several at once, and the accepting thread, are in `ServerRuns` on values. The base loop, whose interest set also holds the listening socket, has `HandleNewConn`, and serving without workers has `TCPServer.Serve`.
- Timers.Play: stops at a call that the code does not allow: arming with a full heap, or cancelling for a request that never had a timer.
- OwnershipSpec.AcceptKeeps: closing a descriptor and calling fcntl on it is one step, so no other thread opens a file with that number in between.
- Memory: C++ lifetimes inside a callback that destroys its own connection, and races on `running`, which is treated as atomic. Atomic steps are what a mutex or a system call makes atomic.
- Clocks, sockets, fcntl, accept, epoll_wait and read are parameters; `gettimeofday` answers or fails at each call, and what fires is proved for clocks that do not go back.
- Handlers of expired timers do not touch the heap.
- The constructor of the logger leaves `running` false and `start` sets it; the model begins after `start`.
- Shutdown: `EventLoop::quit` is empty, and the destructors of loop, pool, server and timer heap are not modelled. `TCPServer::remove_conn` and the server's own connection map are never used.
- HTTP parsing, building of other responses and serving of files: index logic without a clean contract, or plumbing.
- `src/timer`, `src/log/blocking_queue.h` and the task queue and thread pool of version 1.0: unused, or easy members only.
- `set_events` and write callbacks, which no caller uses.
