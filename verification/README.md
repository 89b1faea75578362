# A verified model of the muduo core of the IM server

The chat server runs on a vendored copy of the muduo network library. This project models the parts of
that library that hold state and proves what they are for. `dafny verify dfyconfig.toml` checks everything.

| file | models |
|---|---|
| `TcpServer.dfy`, `ConnectionState.dfy` | the life of a connection across the accept loop and any number of I/O loops: the connection map, the functor queues, the event dispatch, the three-hop teardown |
| `TcpServerQueues.dfy` | what those functor queues hold, and that they can always be emptied |
| `TcpServerEvents.dfy` | which events and functors do what to a connection, and that a forced close happens |
| `TcpConnection.dfy`, `TcpOutput.dfy` | the output side of one connection: sending, partial writes, write interest, graceful shutdown, high-water callback |
| `EventLoop.dfy`, `LoopRuns.dfy` | one loop and any number of foreign threads: functor queue, eventfd, `quit` |
| `TimerQueue.dfy`, `TimerList.dfy`, `TimerArming.dfy` | the two timer indexes, cancellation inside running callbacks, address reuse, the armed timerfd |
| `AsyncLogging.dfy`, `LogRuns.dfy`, `LogStream.dfy` | the double-buffered logger between its front end and its thread; the fixed buffer; integer printing |
| `BlockingQueues.dfy`, `QueueRuns.dfy` | `ThreadPool`, `BoundedBlockingQueue` and `BlockingQueue` as one condition-variable protocol |
| `Date.dfy`, `TimeZone.dfy` | Julian-day formulas against a calendar described without them; UTC fields; zone transitions and local time |
| `Buffer.dfy`, `BigEndian.dfy`, `ByteSearch.dfy` | the compacting byte buffer as a byte string, network integers, searching |
| `ProtobufCodec.dfy`, `ProtobufFrames.dfy` | the checksummed framing |
| `Http.dfy`, `HttpMessages.dfy` | the incremental HTTP request parser |
| `Pollers.dfy` | `PollPoller` and `EPollPoller` as two refinements of one registry |

How the files are built. Code that changes fields is a class whose methods are tied, by
`ensures View() == Step(old(View()))`, to a function on a value of the same fields; loops that change
variables are loops with invariants. Protocols between threads are state machines: a step is one
critical section or one callback, a run is any sequence of enabled steps, and the kernel, the clock,
the scheduler and spurious wakeups are step parameters. Fields marked as history record what happened
and are read by no step. The files `TcpServerEvents`, `TcpOutput`, `LoopRuns`, `TimerArming`, `LogRuns`,
`QueueRuns`, `ProtobufFrames` and `HttpMessages` state what the steps do apart from the definitions of the step
functions: in literal values, in terms of what is seen from outside, or over whole runs.

## What the proofs found

* `handleClose` runs twice, and its assertion fails, exactly when an event carries HUP together with PRI or
  RDHUP but without IN and the following read finds the end of the stream (`TcpServer.DoubleCloseExactly`). All
  other lifecycle theorems exclude exactly these events.
* A functor queued from the loop's own thread before `loop()` gets no wakeup, and `loop()` entered in that state
  can block on it; from every other entry state no wakeup is lost (`EventLoop.NoLostWakeupExactly`).
* A `cancel` of a live timer takes effect exactly if the timer has already been inserted
  (`TimerQueue.CancelTakesEffect`); cancelled before, it is inserted all the same (`TimerQueue.CancelTooEarly`).
* In a zone whose transitions are at least an hour apart in both clocks, local time converts back from the first
  transition on exactly if every drop of the offset from the second transition on is 3600 s out of summer time into
  standard time (`TimeZone.LocalTimeRoundTripExactly`); a zone with a half-hour drop fails
  (`TimeZone.HalfHourDropFails`).
* `getYearMonthDay` yields a calendar date exactly from day -32044 on (`Date.CalendarDateExactly`), and its
  intermediate values fit in 32 bits exactly up to day 536838867 (`Date.Int32Range`).
* A sender frames messages of any length up to the largest 32-bit integer, but a receiver rejects those above 64 MB;
  a stream comes through exactly if it has none (`ProtobufCodec.StreamRoundTripExactly`).
* Of the request lines of section 3.1.1 of RFC 7230 the code accepts exactly those with method GET, POST, HEAD, PUT
  or DELETE and version HTTP/1.0 or HTTP/1.1 (`Http.StandardLineExactly`). It does not look at the target, so it
  also takes lines outside that grammar: an accepted line has a target of visible characters, which every form of
  request-target requires, exactly if the text between its first two spaces is non-empty and visible
  (`Http.AcceptedIsStandardExactly`); an empty target and a TAB are accepted (`Http.EmptyTargetAccepted`).
* Any header line without a colon ends the headers, where the comment in the code speaks of an empty line; the model
  follows the code.
* `shutdownWrite` with accepted bytes unsent happens exactly when `shutdownInLoop` runs on a connection that has
  meanwhile gone down with output left (`TcpConnection.ShutdownUnsentExactly`), and a run gets there
  (`TcpConnection.UnsentShutdownReached`).
* Stopping the logger loses what the back end has not swapped out. Without dropped buffers the file of an ended
  logger holds every line exactly if no text is left in its buffers (`LogRuns.AllWrittenExactly`), and a run of one
  `append` and one `stop` ends with an empty file (`LogRuns.LastLineLost`).
* `PollPoller::removeChannel` asserts that the slot is marked as ignored. For a channel without events this holds
  exactly if it was updated more than once (`Pollers.PollRemoveAssertionExactly`); a lone registration without events
  fails it (`Pollers.LoneNoneRegistrationFails`).

## Model

| member | source | states |
|---|---|---|
| TcpServer.ReachableWorlds | IMServer/src/muduo/net/TcpServer.cc:71-117 | in every world reachable by any interleaving no assertion has failed; each connection came up at most once, went down at most once and after that, was erased at most once, then destroyed at most once; it is in the map exactly until erased; every functor waits on the loop it belongs to |
| TcpServer.DrainedWorld | IMServer/src/muduo/net/TcpServer.cc:100-117 | when all functor queues are empty, every connection is either up, registered and in the map, or was reported down, erased and destroyed exactly once |
| TcpServerQueues.DestroyIsLast | IMServer/src/muduo/net/TcpConnection.cc:194-203 | in every reachable world connectDestroyed is the last functor about its connection in its queue, and once it has run no queue holds one about that connection: the shutdownInLoop bound to a bare this runs before |
| TcpServerQueues.AlwaysSettles | IMServer/src/muduo/net/TcpServer.cc:100-117 | from every reachable world some legal run empties all functor queues, and then every connection is up and in the map or completely gone |
| TcpServerQueues.Drain | IMServer/src/muduo/net/EventLoop.cc:254-269 | such a run exists from every world that keeps the invariant |
| TcpServerQueues.RunFunctorWeight | IMServer/src/muduo/net/EventLoop.cc:254-269 | each functor run leaves less work queued than before, counting the functors it can lead to |
| TcpServerQueues.StepLast | IMServer/src/muduo/net/TcpServer.cc:71-117 | no step posts anything about a connection behind its connectDestroyed |
| TcpServer.RightLoop | IMServer/src/muduo/net/TcpConnection.cc:334-345 | a connection is destroyed only by the connectDestroyed functor on its own loop and only once the map no longer holds it; it is erased only by a step of the base loop; it never changes loops |
| TcpServer.StepKeeps | IMServer/src/muduo/net/TcpServer.cc:71-117 | every accept, poll, event, functor and user call keeps the token invariant: each due hop of the handshake sits in exactly one queue, counters match the state, channels waiting for dispatch are enabled |
| TcpServer.DoubleCloseExactly | IMServer/src/muduo/net/Channel.cc:83-114 | one dispatch makes the assertion of handleClose fail if and only if HUP comes with PRI or RDHUP, without IN, and the read hits the end of the stream |
| TcpServer.CloseKeeps | IMServer/src/muduo/net/TcpConnection.cc:408-421 | handleClose on an enabled channel meets its assertion and leaves exactly one removal under way |
| TcpServer.RemoveKeeps | IMServer/src/muduo/net/TcpServer.cc:106-117 | removeConnectionInLoop finds its connection in the map (n == 1) and leaves exactly one connectDestroyed on the connection's own loop |
| TcpServer.DestroyKeeps | IMServer/src/muduo/net/TcpConnection.cc:334-345 | connectDestroyed finds the channel disabled and still registered |
| TcpServer.ActiveIsPolled | IMServer/src/muduo/net/EventLoop.cc:103-134 | a channel poll returned is still enabled, on its own loop and queued for one dispatch only when its turn comes |
| TcpServer.HeadIsAtHome | IMServer/src/muduo/net/EventLoop.cc:254-269 | the functor about to run is about a known connection, on that functor's loop, and the connection waits for no dispatch |
| TcpServer.UserKeeps | IMServer/src/muduo/net/TcpConnection.cc:239-247 | shutdown and forceClose from any thread, repeated or not, keep the invariant |
| TcpServer.Server.NewConnection | IMServer/src/muduo/net/TcpServer.cc:71-98 | the new state: a fresh number in the map, and connectEstablished run on the base loop or posted to the I/O loop; the invariant holds after it |
| TcpServer.Server.RemoveConnection | IMServer/src/muduo/net/TcpServer.cc:100-104 | runs the erase at once on the base loop and posts it there otherwise |
| TcpServer.Server.RemoveConnectionInLoop | IMServer/src/muduo/net/TcpServer.cc:106-117 | erases and posts connectDestroyed to the connection's loop, failing if nothing was erased |
| TcpServer.Server.ConnectEstablished | IMServer/src/muduo/net/TcpConnection.cc:323-332 | the new state, failing unless the connection was connecting |
| TcpServer.Server.ConnectDestroyed | IMServer/src/muduo/net/TcpConnection.cc:334-345 | the new state, failing if the channel is enabled or unknown |
| TcpServer.Server.HandleClose | IMServer/src/muduo/net/TcpConnection.cc:408-421 | the new state including what the close callback does on either kind of loop |
| TcpServer.Server.ForceClose | IMServer/src/muduo/net/TcpConnection.cc:239-247 | always posts, never closes at once, and only while the connection is up |
| TcpServer.Server.Shutdown | IMServer/src/muduo/net/TcpConnection.cc:194-203 | leaves the connected state once; the functor is run in place on the own loop and posted otherwise |
| TcpServer.Server.ForceCloseInLoop | IMServer/src/muduo/net/TcpConnection.cc:261-269 | closes unless the connection is already down |
| TcpServer.Server.HandleNext | IMServer/src/muduo/net/Channel.cc:83-114 | dispatches the next active channel, first the close and then the read callback (which events close: TcpServerEvents.HandleEventExactly) |
| TcpServer.Server.RunBatch | IMServer/src/muduo/net/EventLoop.cc:254-269 | runs exactly the functors queued when the batch began, whatever they are, without a failed assertion, and returns to polling |
| TcpServer.Ran | IMServer/src/muduo/net/EventLoop.cc:254-269 | after k functors of a batch the queue is what was behind them at its start, followed by what has been posted since |
| TcpServer.BatchInOrder | IMServer/src/muduo/net/EventLoop.cc:264-269 | the k-th functor run is the k-th one queued when the batch began |
| TcpServerEvents.HandleEventExactly | IMServer/src/muduo/net/Channel.cc:83-114 | for any event but the double-closing one: if HUP comes without IN, or IN, PRI or RDHUP comes and the read finds the end of the stream, the connection goes down and the next hop of its removal is on the base loop; otherwise nothing but the program counter changes |
| TcpServerEvents.DispatchExactly | IMServer/src/muduo/net/Channel.cc:99-113 | the same of one dispatch: disconnected, with one more close and one more report down, if and only if the event closes |
| TcpServerEvents.RunFunctorExactly | IMServer/src/muduo/net/EventLoop.cc:254-269 | the head of the batch is taken off, and running it changes connection, map and queues exactly as the literal table of the five functors says |
| TcpServerEvents.DestroyTakesDown | IMServer/src/muduo/net/TcpServer.cc:39-51 | connectDestroyed on a connection still up, as posted by the destructor of the server, reports it down first |
| TcpServerEvents.PollExactly | IMServer/src/muduo/net/EventLoop.cc:103-134 | all the channels poll returned wait for dispatch in that order |
| TcpServerEvents.AcceptExactly | IMServer/src/muduo/net/TcpServer.cc:71-98 | a connection given to the base loop is up at once, another one waits for its connectEstablished on its own loop |
| TcpServerEvents.ShutdownExactly | IMServer/src/muduo/net/TcpConnection.cc:194-203 | only a connected connection starts disconnecting, and the functor is posted only from another thread |
| TcpServerEvents.ForceCloseExactly | IMServer/src/muduo/net/TcpConnection.cc:239-247 | a connection that is up starts disconnecting and one forceCloseInLoop is posted to its loop; otherwise nothing happens |
| TcpServerEvents.ForceCloseHappens | IMServer/src/muduo/net/TcpConnection.cc:239-269 | over any run after forceClose on a connection that is up, the connection is down as soon as its loop no longer holds the functor |
| TcpConnection.StreamIntegrity | IMServer/src/muduo/net/TcpConnection.cc:139-192 | over any run, bytes taken by the kernel followed by the output buffer are, in order, the messages sent, but those sent when disconnected and those for which nothing was queued and write(2) gave EPIPE or ECONNRESET; while not disconnected the channel waits for writability exactly if something is queued; the write side is shut only with nothing unsent unless the connection is down; a requested shutdown is done or waits for queued bytes |
| TcpConnection.StepKeeps | IMServer/src/muduo/net/TcpConnection.cc:368-406 | each of these four invariants survives every send, write, shutdown and close |
| TcpConnection.AcceptedIsMessages | IMServer/src/muduo/net/TcpConnection.cc:139-192 | what counts as accepted is the concatenation of all messages but those dropped when disconnected or refused by EPIPE or ECONNRESET |
| TcpConnection.ShutdownWhenDrained | IMServer/src/muduo/net/TcpConnection.cc:376-391 | a shutdown waiting for queued data is issued by the step that drains the buffer and by no other write step, with every accepted byte in the kernel |
| TcpConnection.ShutdownUnsentExactly | IMServer/src/muduo/net/TcpConnection.cc:205-213 | bytes are cut off exactly if the connection is already down with output left |
| TcpConnection.UnsentShutdownReached | IMServer/src/muduo/net/TcpConnection.cc:205-213 | a run from a new connection to a shutdown with one byte unsent |
| TcpConnection.HighWaterExactly | IMServer/src/muduo/net/TcpConnection.cc:181-191 | over any run the high-water callback is queued once for each step whose queue length crosses the mark upwards, and never else |
| TcpConnection.WriteCompleteWhenAllSent | IMServer/src/muduo/net/TcpConnection.cc:376-391 | the write-complete callback is queued only with every accepted byte in the kernel, and whenever a non-empty buffer drains |
| TcpConnection.Connection.Send | IMServer/src/muduo/net/TcpConnection.cc:139-192 | the whole new state of sendInLoop for every result of write(2) (told byte by byte: TcpOutput.SendExactly) |
| TcpConnection.Connection.Writable | IMServer/src/muduo/net/TcpConnection.cc:368-406 | the whole new state of handleWrite |
| TcpConnection.Connection.Readable | IMServer/src/muduo/net/TcpConnection.cc:347-366 | bytes read are appended to the input buffer, end of stream closes, an error changes nothing |
| TcpOutput.SendExactly | IMServer/src/muduo/net/TcpConnection.cc:139-192 | in every state and for every result of write(2): which bytes the kernel took, which are queued, which callbacks are posted; only a send when disconnected, or with nothing queued and EPIPE or ECONNRESET, changes nothing |
| TcpOutput.SendAddsMessage | IMServer/src/muduo/net/TcpConnection.cc:139-192 | in all other cases kernel and queue together grow by exactly the message |
| TcpOutput.WriteExactly | IMServer/src/muduo/net/TcpConnection.cc:368-406 | a writable event moves what the kernel took from the front of the queue, and draining it posts the callback and shuts a disconnecting connection |
| TcpOutput.StateExactly | IMServer/src/muduo/net/TcpConnection.cc:194-269 | what the other calls do to state, interest and write side; the bytes are left alone |
| TcpOutput.ShutdownHappens | IMServer/src/muduo/net/TcpConnection.cc:194-213 | over any run after shutdownInLoop, the write side has been shut as soon as nothing is queued, unless the connection has gone down |
| EventLoop.NoLostWakeup | IMServer/src/muduo/net/EventLoop.cc:160-171 | whenever the loop is about to poll with functors pending or quit requested, the eventfd is readable or some thread is between its push and its wakeup; executed, rest of batch and pending together are what was pushed, in order |
| EventLoop.NoLostWakeupExactly | IMServer/src/muduo/net/EventLoop.cc:103-134 | this holds for all runs if and only if loop() is entered with an empty queue or a wakeup under way |
| EventLoop.StepKeeps | IMServer/src/muduo/net/EventLoop.cc:254-269 | the wakeup and order invariants survive every step of the loop and of any foreign thread |
| EventLoop.PollDoesNotBlock | IMServer/src/muduo/net/EventLoop.cc:234-252 | once no foreign thread is mid-call, a poll with work pending has a readable eventfd |
| EventLoop.IterationRunsPending | IMServer/src/muduo/net/EventLoop.cc:254-269 | an iteration runs all that was pending when it polled, once each, in push order |
| EventLoop.PromiseKept | IMServer/src/muduo/net/EventLoop.cc:254-269 | a functor once due in this iteration stays due or has run, whatever else happens |
| EventLoop.Loop.Push | IMServer/src/muduo/net/EventLoop.cc:160-171 | what is queued, and exactly when the caller must wake the loop |
| EventLoop.Loop.QueueInLoopThread | IMServer/src/muduo/net/EventLoop.cc:160-171 | from the loop's own thread a wakeup is written only while functors are being called |
| EventLoop.Loop.TakePendingFunctors | IMServer/src/muduo/net/EventLoop.cc:254-263 | the flag is raised before the swap that empties the queue |
| EventLoop.Loop.RunFunctors | IMServer/src/muduo/net/EventLoop.cc:264-269 | the batch is executed once and in order, also when its functors queue further ones; those wait in order behind what was pending, with one write to the eventfd for each |
| LoopRuns.EveryFunctor | IMServer/src/muduo/net/EventLoop.cc:160-171 | over any run, what has run, the rest of the batch and what is pending is exactly what was given to queueInLoop, in that order |
| LoopRuns.CounterExactly | IMServer/src/muduo/net/EventLoop.cc:234-252 | the eventfd gains one for each wakeup and for each push of the loop thread while functors run, and reading takes all |
| LoopRuns.WakingExactly | IMServer/src/muduo/net/EventLoop.cc:136-171 | a foreign push or quit leaves its thread due to wake the loop |
| LoopRuns.FunctorsExactly | IMServer/src/muduo/net/EventLoop.cc:254-269 | the next of the batch runs; the swap takes all that is pending |
| LoopRuns.QuitExactly | IMServer/src/muduo/net/EventLoop.cc:136-147 | quit sets the flag from any thread, nothing clears it, and the loop exits exactly at a check that finds it set |
| LoopRuns.QuitEnds | IMServer/src/muduo/net/EventLoop.cc:103-134 | once the flag is set the next check ends the loop, over any run, and it starts no further poll |
| LoopRuns.QuitIsHeeded | IMServer/src/muduo/net/EventLoop.cc:103-147 | a run that calls quit from either side and checks the flag afterwards is over |
| TimerQueue.ReachableStates | IMServer/src/muduo/net/TimerQueue.cc:132-259 | in every reachable state an entry is in timers_ exactly if its timer's current expiration and sequence number are in the other index; the sizes agree; between handleRead calls, if any timer is indexed, the timerfd was armed in the past, to fire by the first expiration or within 100 microseconds of its arming, and so by the first expiration or within 100 microseconds of now |
| TimerQueue.StepKeeps | IMServer/src/muduo/net/TimerQueue.cc:132-259 | both indexes, the running batch, ownership and arming survive every create, add, cancel (also from callbacks), expiry and reset |
| TimerQueue.BeginSplits | IMServer/src/muduo/net/TimerQueue.cc:183-202 | getExpired takes out exactly the timers due by now, in expiration order, and leaves the others |
| TimerQueue.ExactlyOnePlace | IMServer/src/muduo/net/TimerQueue.cc:204-259 | every timer ever created is in exactly one of: not yet inserted, the indexes, the running batch, deleted |
| TimerQueue.SizesAgree | IMServer/src/muduo/net/TimerQueue.cc:143-161 | the assertion timers_.size() == activeTimers_.size() |
| TimerQueue.CancelTakesEffect | IMServer/src/muduo/net/TimerQueue.cc:143-161 | cancelling a live timer works if and only if it has been inserted |
| TimerQueue.CancelTooEarly | IMServer/src/muduo/net/TimerQueue.cc:116-161 | a run in which a timer cancelled before its insertion is inserted all the same |
| TimerQueue.StaleIdRemovesNothing | IMServer/src/muduo/net/TimerQueue.cc:143-161 | an id whose timer is gone, its address reused or not, changes neither index nor which timers are re-inserted |
| TimerQueue.CancelledNeverRunsAgain | IMServer/src/muduo/net/TimerQueue.cc:143-181 | after the cancel of an inserted timer no later batch contains it, even if it was cancelled by itself or by a callback of its own batch, and it is deleted by the end of that batch |
| TimerQueue.CancelledInRun | IMServer/src/muduo/net/TimerQueue.cc:204-222 | a cancelled timer stays cancelled over any run, and is deleted before the next batch starts |
| TimerQueue.CancelledStays | IMServer/src/muduo/net/TimerQueue.cc:204-222 | no single step undoes a cancellation |
| TimerQueue.BatchSettled | IMServer/src/muduo/net/TimerQueue.cc:204-222 | after the whole reset loop each timer of the batch is, if repeating and not cancelled, back in both indexes under its sequence number and one interval after the batch time, and otherwise deleted |
| TimerQueue.ResetAllFrame | IMServer/src/muduo/net/TimerQueue.cc:204-222 | timers outside the batch are left alone by that loop |
| TimerQueue.TimerQueue.BeginRead | IMServer/src/muduo/net/TimerQueue.cc:163-181 | the state in which the callbacks run: timerfd read, batch taken out of both indexes, no cancellations remembered |
| TimerQueue.DeletedNotRunning | IMServer/src/muduo/net/TimerQueue.cc:204-222 | a deleted timer is in no index and no batch |
| TimerQueue.TimerQueue.AddTimerInLoop | IMServer/src/muduo/net/TimerQueue.cc:132-141 | inserts, and re-arms exactly if the new timer is the first (for which time: TimerArming.AddArms) |
| TimerQueue.TimerQueue.CancelTimerInLoop | IMServer/src/muduo/net/TimerQueue.cc:143-161 | erases from both indexes and deletes, or remembers the id while callbacks run |
| TimerQueue.TimerQueue.GetExpired | IMServer/src/muduo/net/TimerQueue.cc:183-202 | the loop removes from the second index exactly the ids of the expired entries |
| TimerQueue.TimerQueue.Reset | IMServer/src/muduo/net/TimerQueue.cc:204-222 | the loop restarts and re-inserts repeating timers that were not cancelled and deletes the others |
| TimerQueue.TimerQueue.EndRead | IMServer/src/muduo/net/TimerQueue.cc:223-233 | after the loop the timerfd is armed for the first timer (for which time: TimerArming.EndArms) |
| TimerQueue.TimerQueue.Insert | IMServer/src/muduo/net/TimerQueue.cc:235-259 | both indexes, and whether the earliest expiration changed |
| TimerQueue.TimerQueue.Restart | IMServer/src/muduo/net/Timer.cc:16-26 | the expiration of a repeating timer becomes the batch time plus its interval |
| TimerArming.AddArms | IMServer/src/muduo/net/TimerQueue.cc:132-141 | addTimerInLoop sets the timerfd if and only if the timer is the new first one, at the present time, to its expiration or 100 microseconds ahead, whichever is later |
| TimerArming.EndArms | IMServer/src/muduo/net/TimerQueue.cc:223-233 | so does the end of handleRead for the first timer, if its expiration is positive |
| TimerArming.OtherStepsArm | IMServer/src/muduo/net/TimerQueue.cc:163-181 | no other step touches the setting, but reading a timerfd that has fired clears it |
| TimerArming.EveryArm | IMServer/src/muduo/net/TimerQueue.cc:41-55 | over any run every setting was made at some point of it for the then first timer, to fire at its expiration, or 100 microseconds after the setting if that is later |
| TimerArming.CreateExactly | IMServer/src/muduo/net/TimerQueue.cc:116-123 | a new timer has what was asked for and a sequence number no timer ever had |
| TimerArming.BeginExactly | IMServer/src/muduo/net/TimerQueue.cc:163-202 | a timer is in the batch if and only if it is due at the time the clock shows, which becomes the batch time |
| TimerArming.BatchStays | IMServer/src/muduo/net/TimerQueue.cc:143-161 | over any run of callbacks the batch is left alone and exactly the ids they cancel are remembered |
| TimerArming.RepeatsAfterInterval | IMServer/src/muduo/net/TimerQueue.cc:163-222 | from one handleRead to its end: a repeating timer that no callback cancels is back under its id, due one interval after the batch time; any other is deleted |
| TimerList.InsertedSorted | IMServer/src/muduo/net/TimerQueue.cc:235-259 | the ordered set stays strictly sorted by expiration and address |
| TimerList.ErasedElements | IMServer/src/muduo/net/TimerQueue.cc:143-161 | erasing removes exactly the given entry |
| TimerList.SplitAt | IMServer/src/muduo/net/TimerQueue.cc:183-202 | the lower bound splits a sorted list into smaller and not smaller entries |
| AsyncLogging.AssertionsNeverFail | IMServer/src/muduo/base/AsyncLogging.cc:69-133 | over any interleaving of front and back end no assertion of the back end fails, and it always has a step to take until it is done |
| AsyncLogging.LinesConserved | IMServer/src/muduo/base/AsyncLogging.cc:34-135 | over any run, written or dropped text, the unwritten batch, the full buffers and the current one are all lines shorter than a buffer, in lock order; the file is what was written |
| AsyncLogging.FileIsPrefix | IMServer/src/muduo/base/AsyncLogging.cc:69-133 | if no batch exceeded 25 buffers, the file followed by what is in memory is exactly those lines |
| AsyncLogging.NoDropsNothingLost | IMServer/src/muduo/base/AsyncLogging.cc:90-103 | text is lost only by a drop that left its note in the file |
| AsyncLogging.StepKeeps | IMServer/src/muduo/base/AsyncLogging.cc:34-133 | the shared invariant (no spare buffer means a full one is waiting; spares are empty; the batch can refill what was moved away) survives every step of either thread |
| AsyncLogging.AsyncLogger.Append | IMServer/src/muduo/base/AsyncLogging.cc:34-56 | the new state in all three cases |
| AsyncLogging.AsyncLogger.SwapBuffers | IMServer/src/muduo/base/AsyncLogging.cc:69-88 | the new state after the critical section, with a non-empty batch |
| AsyncLogging.AsyncLogger.WriteAndRecycle | IMServer/src/muduo/base/AsyncLogging.cc:90-133 | from any reachable state the batch is written and both spare buffers are back, empty |
| LogRuns.EveryLine | IMServer/src/muduo/base/AsyncLogging.cc:34-135 | over any run the lines given to append, but those of four million characters or more, are in lock order written, dropped with their buffer, in the batch, in full buffers or in the current one |
| LogRuns.AppendExactly | IMServer/src/muduo/base/AsyncLogging.cc:34-56 | a line joins the current buffer if a byte stays free and otherwise opens the next one |
| LogRuns.RunFits | IMServer/src/muduo/base/AsyncLogging.cc:34-56 | no buffer is ever full to the last byte |
| LogRuns.DropExactly | IMServer/src/muduo/base/AsyncLogging.cc:90-103 | buffers are dropped if and only if there are more than 25: all but the first two, with a note of how many |
| LogRuns.WriteExactly | IMServer/src/muduo/base/AsyncLogging.cc:105-109 | each turn of the loop brings one more buffer of the batch to the file |
| LogRuns.StopIsFinal | IMServer/src/muduo/base/AsyncLogging.h:47-52 | stop is final over any run, and a back end at the top of its loop then leaves without writing anything more |
| LogRuns.AllWrittenExactly | IMServer/src/muduo/base/AsyncLogging.cc:69-135 | once the logger has ended, without drops, the file holds every line if and only if no text is left in the buffers |
| LogRuns.LastLineLost | IMServer/src/muduo/base/AsyncLogging.cc:69-135 | a run that loses the line logged before stop |
| LogStream.FixedBuffer.Append | IMServer/src/muduo/base/LogStream.h:39-47 | appends the bytes if strictly fewer than the space left, and otherwise changes nothing |
| LogStream.FixedBuffer.Reset | IMServer/src/muduo/base/LogStream.h:57 | the buffer is empty |
| LogStream.Convert | IMServer/src/muduo/base/LogStream.cc:47-67 | for every signed or unsigned 64-bit value, the most negative one included, the array holds its decimal numeral and a NUL, and nothing before it changed |
| LogStream.ConvertHex | IMServer/src/muduo/base/LogStream.cc:69-85 | the same for the upper-case hexadecimal numeral |
| LogStream.MirroredDigit | IMServer/src/muduo/base/LogStream.cc:38-60 | the truncated remainder indexes the mirrored table at the digit of the magnitude, so that no negation is needed |
| LogStream.DecimalReadsBack | IMServer/src/muduo/base/LogStream.cc:47-67 | reading the numeral back gives the value; it is canonical |
| LogStream.DecimalIsUnique | IMServer/src/muduo/base/LogStream.cc:47-67 | every canonical decimal string is the numeral of its value |
| LogStream.NumeralReadsBack | IMServer/src/muduo/base/LogStream.cc:69-85 | in base 10 or 16 the numeral has no leading zero and reads back as the number |
| LogStream.NumeralIsUnique | IMServer/src/muduo/base/LogStream.cc:69-85 | a digit string without leading zero is the numeral of its value |
| LogStream.DecimalFits | IMServer/src/muduo/base/LogStream.cc:236-244 | with sign a 64-bit value takes at most 21 characters, so that it fits the 48 checked for |
| LogStream.LogStream.FormatInteger | IMServer/src/muduo/base/LogStream.cc:236-244 | the numeral is appended if 48 bytes are free and nothing is otherwise |
| LogStream.LogStream.FormatPointer | IMServer/src/muduo/base/LogStream.cc:294-306 | the same for 0x and the hexadecimal numeral |
| LogStream.Reverse | IMServer/src/muduo/base/LogStream.cc:47-67 | std::reverse turns part of the array round and changes nothing else |
| LogStream.ProgressStep | IMServer/src/muduo/base/LogStream.cc:51-60 | each turn of the digit loop writes the next digit of the numeral, counted from its end |
| BlockingQueues.Protocol | IMServer/src/muduo/base/BoundedBlockingQueue.h:30-66 | over any run with spurious wakeups and for any bound: first in, first out; never above the bound; while a consumer sleeps unsignalled each queued item has a signalled consumer, while a producer does each free slot has a signalled producer; after stop nobody sleeps unsignalled |
| BlockingQueues.StepKeeps | IMServer/src/muduo/base/ThreadPool.cc:52-112 | every put, take, drain, spurious wakeup and stop keeps this |
| BlockingQueues.AfterStop | IMServer/src/muduo/base/ThreadPool.cc:72-112 | once stopped, nothing more is enqueued and the rest leaves in order |
| BlockingQueues.ThreadPool.Run | IMServer/src/muduo/base/ThreadPool.cc:72-91 | the new state of one pass through the critical section, or the task run in place without threads |
| BlockingQueues.ThreadPool.Take | IMServer/src/muduo/base/ThreadPool.cc:93-112 | waits exactly if empty and running, and notifies a producer exactly if the pool is bounded |
| BlockingQueues.ThreadPool.Stop | IMServer/src/muduo/base/ThreadPool.cc:52-64 | stops the pool, leaves the queue, and wakes every waiting consumer and producer |
| BlockingQueues.BlockingQueue.Put | IMServer/src/muduo/base/BoundedBlockingQueue.h:30-40 | waits exactly if full |
| BlockingQueues.BlockingQueue.Take | IMServer/src/muduo/base/BoundedBlockingQueue.h:54-66 | waits exactly if empty, otherwise removes the front and signals a producer |
| BlockingQueues.BlockingQueue.Drain | IMServer/src/muduo/base/BlockingQueue.h:60-69 | takes the whole content in order |
| QueueRuns.InOrder | IMServer/src/muduo/base/BoundedBlockingQueue.h:30-66 | over any run, what was in the queue and then came in is what came out and is left, in order, where what comes in and out is told by the state before each step |
| QueueRuns.PutExactly | IMServer/src/muduo/base/ThreadPool.cc:72-91 | a put waits exactly if full and running, enqueues and wakes one consumer exactly if running with a free slot, and otherwise gives up |
| QueueRuns.TakeExactly | IMServer/src/muduo/base/ThreadPool.cc:93-112 | a take waits exactly if empty and running, and wakes one producer exactly if it took from a bounded queue |
| QueueRuns.StopExactly | IMServer/src/muduo/base/ThreadPool.cc:52-64 | stop lowers the flag and wakes all |
| QueueRuns.StopStops | IMServer/src/muduo/base/ThreadPool.cc:52-64 | after a stop anywhere in a run from the initial state the pool stays stopped, nobody sleeps, nothing has been enqueued since, and the queue only got shorter from the front |
| Date.DayRoundTrip | IMServer/src/muduo/base/Date.cc:21-43 | every Julian day from -32044 on becomes a calendar date from -4800-03-01 on and converts back |
| Date.DateRoundTrip | IMServer/src/muduo/base/Date.cc:21-43 | every calendar date from -4800-03-01 on becomes such a day and converts back |
| Date.SuccessorIsNextDay | IMServer/src/muduo/base/Date.cc:21-28 | the calendar successor, by month lengths and leap years, has the next day number |
| Date.SuccessorInScope | IMServer/src/muduo/base/Date.cc:45 | the successor stays in range, and 1970-01-01 is day 2440588, which fixes the numbering |
| Date.CalendarDateExactly | IMServer/src/muduo/base/Date.cc:30-43 | the result is a calendar date if and only if the day is at least -32044 |
| Date.Int32Range | IMServer/src/muduo/base/Date.cc:30-43 | from there on every intermediate value fits in 32 bits if and only if the day is at most 536838867 |
| Date.WeekDaysCycle | IMServer/src/muduo/base/Date.h:94-99 | the week day is in range exactly from day -1 on or on Sundays, advances by one modulo seven, and 1900-01-01 is a Monday |
| TimeZone.UtcRoundTrip | IMServer/src/muduo/base/TimeZone.cc:322-363 | seconds to UTC fields and back is the identity, also before the epoch, where the truncated division is corrected |
| TimeZone.UtcFieldsRoundTrip | IMServer/src/muduo/base/TimeZone.cc:350-363 | UTC fields to seconds and back is the identity |
| TimeZone.FindLocaltimeIsLastTransition | IMServer/src/muduo/base/TimeZone.cc:223-255 | the lower-bound search, by GMT or by local time, finds the type of the last transition at or before the given second, and the first type before all of them |
| TimeZone.LocalTimeInPeriod | IMServer/src/muduo/base/TimeZone.cc:277-297 | local time is the date and clock of the second moved by the offset of the last transition at or before it, with its flag |
| TimeZone.FromLocalTimeInPeriods | IMServer/src/muduo/base/TimeZone.cc:299-320 | any clock reading, also one no clock showed, is read with the offset of the last transition not later in local time, and an hour earlier exactly if it claims summer time and the first answer shows the same hour and minute without it |
| TimeZone.LocalTimeRoundTrip | IMServer/src/muduo/base/TimeZone.cc:277-320 | fromLocalTime(toLocalTime(t)) == t from the first transition on, in the ambiguous hour too |
| TimeZone.LocalTimeRoundTripExactly | IMServer/src/muduo/base/TimeZone.cc:299-320 | for transitions an hour apart in both clocks this holds for all such t if and only if every drop from the second transition on is 3600 s out of summer time |
| TimeZone.BadDropFails | IMServer/src/muduo/base/TimeZone.cc:299-320 | any other drop, however large, fails at the second before it |
| TimeZone.EarlyRoundTrip | IMServer/src/muduo/base/TimeZone.cc:223-240 | before the first transition the round trip holds if the change from the first type is a good one, and at the last second only then |
| TimeZone.HalfHourDropFails | IMServer/src/muduo/base/TimeZone.cc:299-320 | a concrete zone with a half-hour drop and a second that does not convert back |
| NetBuffer.ContentIsByteString | IMServer/src/muduo/net/Buffer.h:113-409 | over any sequence of operations the readable bytes are what the same operations give on a byte string, however space was made |
| NetBuffer.CheapPrepend | IMServer/src/muduo/net/Buffer.h:354-360 | the space in front shrinks only by what has been prepended, from eight bytes |
| NetBuffer.GrowsExactly | IMServer/src/muduo/net/Buffer.h:390-409 | the vector grows only if moving the content to the front makes no room, and then to an exact fit |
| NetBuffer.SizeStays | IMServer/src/muduo/net/Buffer.h:113-124 | taking out, prepending and unwriting keep its size; an emptied buffer starts afresh behind eight bytes |
| NetBuffer.ShrinksExactly | IMServer/src/muduo/net/Buffer.h:362-369 | shrink leaves the reserve asked for and at least 1024 bytes behind the front |
| NetBuffer.Run | IMServer/src/muduo/net/Buffer.h:113-409 | the buffer object itself follows both, over any sequence of operations |
| NetBuffer.Buffer.MakeSpace | IMServer/src/muduo/net/Buffer.h:390-409 | keeps the readable bytes whether it grows or compacts, makes room, and its assertion about the reader index holds |
| NetBuffer.Buffer.Append | IMServer/src/muduo/net/Buffer.h:182-187 | appends to the readable bytes |
| NetBuffer.Buffer.Retrieve | IMServer/src/muduo/net/Buffer.h:113-124 | drops from the front, and resets both indexes when empty |
| NetBuffer.Buffer.Unwrite | IMServer/src/muduo/net/Buffer.h:215-219 | drops from the end |
| NetBuffer.Buffer.Prepend | IMServer/src/muduo/net/Buffer.h:354-360 | puts bytes in front without touching the rest |
| NetBuffer.Buffer.Shrink | IMServer/src/muduo/net/Buffer.h:362-369 | keeps the readable bytes and the reserve |
| NetBuffer.Buffer.ReadFd | IMServer/src/muduo/net/Buffer.cc:25-57 | appends exactly what was read, whether it fitted or overflowed into the second vector |
| NetBuffer.Buffer.ReadInt | IMServer/src/muduo/net/Buffer.h:254-284 | reads the two's-complement big-endian integer at the front and drops its bytes |
| NetBuffer.PrependThenRead | IMServer/src/muduo/net/Buffer.h:328-352 | reading undoes prepending for 1, 2, 4 and 8 bytes |
| NetBuffer.AppendThenRead | IMServer/src/muduo/net/Buffer.h:224-284 | any sequence of integers of any widths appended to an empty buffer is read back in order and leaves it empty |
| NetBuffer.Buffer.FindCRLF | IMServer/src/muduo/net/Buffer.h:80-85 | the first CR LF of the readable bytes, or none |
| BigEndian.DecodeEncode | IMServer/src/muduo/net/Buffer.h:224-323 | decoding the encoding of any value in the range of a width gives it back |
| BigEndian.EncodeDecode | IMServer/src/muduo/net/Buffer.h:290-323 | encoding the decoding of any bytes gives them back |
| BigEndian.ByteAt | IMServer/src/muduo/net/Buffer.h:224-250 | byte k of an encoding is the k-th digit in base 256 from the most significant one |
| BigEndian.EncodedByte | IMServer/src/muduo/net/Buffer.h:224-250 | and a negative value is encoded as its sum with 256 to the width |
| ByteSearch.CrlfInExtension | IMServer/src/muduo/net/Buffer.h:80-85 | a CR LF once found stays the first one when more bytes arrive |
| ProtobufCodec.StreamRoundTrip | IMServer/src/muduo/net/protobuf/ProtobufCodecLite.cc:42-97 | concatenated frames are delivered as exactly the encoded messages the raw-message filter lets through (all of them without a filter), in order, with nothing left |
| ProtobufCodec.StreamRoundTripExactly | IMServer/src/muduo/net/protobuf/ProtobufCodecLite.cc:58-97 | this holds if and only if no message exceeds the receiver's limit; otherwise an invalid length is reported |
| ProtobufCodec.SplitIndependence | IMServer/src/muduo/net/protobuf/ProtobufCodecLite.cc:58-97 | for any byte stream, messages, leftover and error are the same however the stream is cut |
| ProtobufCodec.DeliverExtended | IMServer/src/muduo/net/protobuf/ProtobufCodecLite.cc:58-97 | later input never changes what was delivered, and delivery goes on from the leftover |
| ProtobufCodec.CorruptionDetected | IMServer/src/muduo/net/protobuf/ProtobufCodecLite.cc:195-242 | any single wrong byte after the length field is reported as a checksum error |
| ProtobufCodec.CorruptionStopsStream | IMServer/src/muduo/net/protobuf/ProtobufCodecLite.cc:58-97 | in a stream the frames before the damaged one are delivered; it and all that follows stay in the buffer, with a checksum error, unless the filter turns it away and delivery goes on behind it |
| ProtobufCodec.FramesThen | IMServer/src/muduo/net/protobuf/ProtobufCodecLite.cc:58-97 | good frames are delivered, as far as the filter lets them through, whatever bytes follow |
| ProtobufCodec.ParseCovered | IMServer/src/muduo/net/protobuf/ProtobufCodecLite.cc:209-242 | what a sender puts after the length field parses to the message |
| ProtobufCodec.FrameShape | IMServer/src/muduo/net/protobuf/ProtobufCodecLite.h:40-48 | the size field counts tag, payload and checksum |
| ProtobufCodec.OneByteChangesSum | IMServer/src/muduo/net/protobuf/ProtobufCodecLite.cc:195-199 | changing one byte always changes the Adler-32 sum (section 2.2 of RFC 1950) |
| ProtobufCodec.FillEmptyBuffer | IMServer/src/muduo/net/protobuf/ProtobufCodecLite.cc:42-56 | an empty buffer with room in front ends up holding exactly the frame |
| ProtobufCodec.OnMessage | IMServer/src/muduo/net/protobuf/ProtobufCodecLite.cc:58-97 | the loop delivers, consumes and reports what the stream function says (which errors when: ProtobufFrames.FrameExactly) |
| ProtobufFrames.FrameExactly | IMServer/src/muduo/net/protobuf/ProtobufCodecLite.cc:58-97 | any text framed with its length and checksum, within the limit: passed over if the filter says so, UnknownMessageType if it does not begin with the tag, ParseError if the body does not parse, delivered otherwise |
| ProtobufFrames.ParseExactly | IMServer/src/muduo/net/protobuf/ProtobufCodecLite.cc:209-242 | parse on text with a correct checksum: the tag is compared first, then the body is parsed |
| ProtobufFrames.ParseWrongSum | IMServer/src/muduo/net/protobuf/ProtobufCodecLite.cc:201-207 | any other four bytes behind it are a checksum error |
| ProtobufFrames.ForeignTagStops | IMServer/src/muduo/net/protobuf/ProtobufCodecLite.cc:58-97 | after good frames an intact frame with a foreign tag ends delivery with UnknownMessageType and stays in the buffer |
| ProtobufFrames.OtherSenderStops | IMServer/src/muduo/net/protobuf/ProtobufCodecLite.cc:42-97 | so does the frame of a sender with another tag of the same length |
| ProtobufFrames.BadLengthStops | IMServer/src/muduo/net/protobuf/ProtobufCodecLite.cc:61-68 | a length above 64 MB, or too small for tag and checksum, is reported and nothing is consumed |
| ProtobufFrames.IncompleteWaits | IMServer/src/muduo/net/protobuf/ProtobufCodecLite.cc:58-97 | an incomplete frame waits for more |
| ProtobufFrames.SumsClosed | IMServer/src/muduo/net/protobuf/ProtobufCodecLite.cc:195-199 | the two Adler-32 sums (section 2.2 of RFC 1950) in closed form: byte total, and bytes weighted by their distance from the end |
| ProtobufFrames.ChecksumClosed | IMServer/src/muduo/net/protobuf/ProtobufCodecLite.cc:42-56 | the checksum field read as an unsigned number is those two sums |
| Http.SplitIndependence | IMServer/src/muduo/net/http/HttpContext.cc:60-118 | calls that stop at the first rejection or completion end, for any cut of the input and from any leftover, in the state, request (receive time aside) and leftover of one call |
| Http.SplitIndependenceFromStart | IMServer/src/muduo/net/http/HttpContext.cc:60-118 | the same from a new context |
| Http.ParseExtended | IMServer/src/muduo/net/http/HttpContext.cc:60-118 | later input never changes a rejection or a completed request, and an unfinished one goes on from its leftover |
| Http.ParseTimeless | IMServer/src/muduo/net/http/HttpContext.cc:60-118 | the receive time influences nothing else |
| Http.RequestLineExactly | IMServer/src/muduo/net/http/HttpContext.cc:16-57 | a line is accepted if and only if it is method SP target SP HTTP/1.0 or HTTP/1.1 for one of the five methods |
| Http.RequestLineAccepts | IMServer/src/muduo/net/http/HttpContext.cc:16-57 | and then method, version, path up to the question mark and query from it on are stored |
| Http.RequestLineOnly | IMServer/src/muduo/net/http/HttpContext.cc:16-57 | the parts of an accepted line |
| Http.StandardLineExactly | IMServer/src/muduo/net/http/HttpContext.cc:16-57 | a line of section 3.1.1 of RFC 7230 is accepted if and only if its method is one of the five and its version 1.0 or 1.1 |
| Http.AcceptedIsStandardExactly | IMServer/src/muduo/net/http/HttpContext.cc:16-57 | an accepted line has the form of that section, with a non-empty visible target, if and only if the text between its first two spaces is non-empty and visible |
| Http.AnyTargetAccepted | IMServer/src/muduo/net/http/HttpContext.cc:16-57 | any target without a space is accepted, whether or not it is non-empty and visible |
| Http.EmptyTargetAccepted | IMServer/src/muduo/net/http/HttpContext.cc:16-57 | an empty target and a TAB are accepted, against that section |
| Http.HeaderValue | IMServer/src/muduo/net/http/HttpRequest.h:135-149 | the stored value is the text after the colon without exactly its surrounding white space; other fields are kept |
| HttpMessages.RequestParses | IMServer/src/muduo/net/http/HttpContext.cc:60-118 | a first line of one of the five methods, a path, maybe a query and version 1.0 or 1.1, any header lines and an empty line give a complete request with exactly these parts and headers, and what follows stays in the buffer |
| HttpMessages.FirstLineAccepted | IMServer/src/muduo/net/http/HttpContext.cc:16-57 | such a first line, in literal bytes, stores method, version, path and query |
| HttpMessages.HeadersParse | IMServer/src/muduo/net/http/HttpContext.cc:85-105 | header lines and an empty line store each trimmed value under its name, the later of two with one name, and leave what follows |
| HttpMessages.OneHeader | IMServer/src/muduo/net/http/HttpContext.cc:85-98 | one header line is stored and consumed |
| HttpMessages.EmptyLine | IMServer/src/muduo/net/http/HttpContext.cc:85-105 | an empty line completes the request and is consumed |
| HttpMessages.BadLineRejected | IMServer/src/muduo/net/http/HttpContext.cc:67-84 | a complete first line that is not a request line is rejected and stays in the buffer |
| HttpMessages.NoLineWaits | IMServer/src/muduo/net/http/HttpContext.cc:60-118 | without a complete line nothing is consumed |
| Http.HttpRequest.AddHeader | IMServer/src/muduo/net/http/HttpRequest.h:135-149 | the two trimming loops |
| Http.HttpRequest.SetMethod | IMServer/src/muduo/net/http/HttpRequest.h:53-82 | the method, and whether it is known |
| Http.HttpContext.ProcessRequestLine | IMServer/src/muduo/net/http/HttpContext.cc:16-57 | result and fields for accepted and for every kind of rejected line |
| Http.HttpContext.ParseRequest | IMServer/src/muduo/net/http/HttpContext.cc:60-118 | the loop terminates and leaves state, request and buffer as the parse function says |
| Pollers.SameInterest | IMServer/src/muduo/net/poller/PollPoller.cc:75-140 | after any legal sequence of updates and removals each index points at its own slot, no epoll_ctl was refused, and both pollers watch the same events on the same descriptors, namely those asked for |
| Pollers.PollRemoveIndexes | IMServer/src/muduo/net/poller/PollPoller.cc:112-140 | swap with last keeps every back-index right and every other slot's content |
| Pollers.PollUpdateRefines | IMServer/src/muduo/net/poller/PollPoller.cc:75-110 | an update is recorded in the channel's own slot; a later one without events marks it as ignored |
| Pollers.PollRemoveRefines | IMServer/src/muduo/net/poller/PollPoller.cc:112-140 | a removal forgets exactly that channel |
| Pollers.PollRemoveAssertionExactly | IMServer/src/muduo/net/poller/PollPoller.cc:116-122 | the assertion on the slot holds if and only if the channel wants nothing and was updated more than once |
| Pollers.LoneNoneRegistrationFails | IMServer/src/muduo/net/poller/PollPoller.cc:75-122 | one registration without events reaches a state in which the assertion fails |
| Pollers.PollsWhatWasAsked | IMServer/src/muduo/net/poller/PollPoller.cc:75-110 | a slot poll(2) looks at with some event exists exactly for what was asked |
| Pollers.EpollUpdateRefines | IMServer/src/muduo/net/poller/EPollPoller.cc:107-149 | kAdded exactly if the kernel holds the descriptor, with the interest asked for, so that every ADD, MOD and DEL is legal |
| Pollers.EpollRemoveRefines | IMServer/src/muduo/net/poller/EPollPoller.cc:151-170 | a removal deletes from the kernel exactly if it is there |
| Pollers.ActiveFdsComplete | IMServer/src/muduo/net/poller/PollPoller.cc:55-73 | with the count poll(2) returns, exactly the descriptors with events become active |
| Pollers.PollPoller.UpdateChannel | IMServer/src/muduo/net/poller/PollPoller.cc:75-110 | the new array and indexes, for a new and for a known channel |
| Pollers.PollPoller.RemoveChannel | IMServer/src/muduo/net/poller/PollPoller.cc:112-140 | the new array and indexes, with the moved channel object's own index rewritten |
| Pollers.PollPoller.FillActiveChannels | IMServer/src/muduo/net/poller/PollPoller.cc:55-73 | the channels of the slots with events, in order; the lookup never fails; each of them gets the revents of its own slot and no other channel does |
| Pollers.EPollPoller.UpdateChannel | IMServer/src/muduo/net/poller/EPollPoller.cc:107-149 | the new map, kernel set and index |
| Pollers.EPollPoller.RemoveChannel | IMServer/src/muduo/net/poller/EPollPoller.cc:151-170 | the new map and kernel set, and the index reset so that the channel can be added again |

## Left out

- TcpServer.ReachableWorlds: does not model the destructor of TcpServer, startRead and stopRead, or state changes of another thread in the middle of a call; each public call is one step, connection names are unique and not truncated, and no event makes both the close and the read callback close the connection (see above).
- TcpServer.Server.RunBatch: does not interleave other loops or calls that user code makes from callbacks; those are separate steps of the state machine.
- EventLoop.Loop.RunFunctors: does not interleave foreign threads; the state machine does, as separate steps.
- EventLoop.NoLostWakeup: does not model overflow of the eventfd counter, or user code run by destructors of functors after the flag was cleared.
- TimerQueue.ReachableStates: takes one clock, never set back and always positive, for expirations and timerfd, and intervals given in whole microseconds (no floating-point multiplication).
- TimeZone.LocalTimeRoundTrip: takes gmtime and timegm as the two UTC conversions and leaves the reading of zone files out; 32-bit truncation of the day count far from the epoch is not modelled.
- AsyncLogging.LinesConserved: does not model file rolling, flushing, the wait timeout as time, or the date in the drop note; lines still in memory when the thread stops stay there, as in the code.
- BlockingQueues.Protocol: does not model exceptions of tasks, thread start and join, or move semantics; a maximum size of zero means unbounded.
- NetBuffer.ContentIsByteString: does not model the capacity of the vector, nor that new bytes of a grown vector are zero.
- Http.HttpContext.ParseRequest: does not cover calls in the states kExpectBody and kGotAll, which make no progress, and takes isspace in the C locale on bytes below 128.
- ProtobufCodec.StreamRoundTrip: takes serialising and parsing of a message body as inverse parameters and the raw-message filter as a function of the frame; sending over a connection is left out.
- Http.AcceptedIsStandardExactly: does not model the four forms of request-target beyond their being non-empty and visible.
- Pollers.SameInterest: takes a removed channel as not used again with PollPoller, which keeps its stale index; the kernel's own removal of closed descriptors is not modelled, nor the error and hang-up events it reports for a descriptor held without interest.
- The connection lifecycle and the queue protocols are modelled on values: connections are entries of a map, so that aliasing and the lifetimes of shared and weak pointers are not captured.
- A connection's channel is a flag in the lifecycle model; which bits are enabled is modelled with the output side, and handleError does nothing but log.
- System calls and their wrappers (Socket, SocketsOps, Acceptor, InetAddress, FileUtil, LogFile, ProcessInfo) appear only as parameters of steps.
- Connector, TcpClient, RpcChannel, RpcServer, Inspector, ZlibStream, GzipFile and the HTTP server and response: thin layers that would only add easy members.
- The application (IMServer.cpp, MysqlBusiness, MysqlTool, main.cpp) and jsoncpp.
- Floating-point output, formatSI, formatIEC, log line layout and the start-up code of the logger.
