# Verified models of the sylar framework

sylar is a C++ fiber framework. This project models the parts of it that keep state under
concurrency and the codecs that sit on top of them, and proves what those parts promise:

- **`AsyncSocketStream`** (`AsyncStream*.dfy`, `RequestWaiters.dfy`, `AsyncDelivery.dfy`, `AsyncSocketStream.dfy`,
  `FiberSemaphore.dfy`).
  Any number of `start()` calls and timers, a reader and a writer fiber per connection, senders,
  closes and reconnects, interleaved at every semaphore operation, critical section, connection
  test, load and compare-and-swap. The theorems are about all runs of these transition systems, of the
  threads, of the request contexts, and of both together; the methods of the class run the same
  sections in the order of the source, with any sections of other threads between two of them, and
  each section is a step.
- **`ConnectionPool`** (`ConnectionPool*.dfy`). The locked sections as class methods, and the
  interleaving of `get`, `put`, `warmup` and `checkConnections` with creation and health checks
  outside the lock.
- **`ByteArray`** (`Blocks.dfy`, `ByteArray.dfy`). The linked list of blocks with its cursor,
  refining a flat byte sequence; scatter/gather views; `Streams.dfy` adds the loops over short
  transfers, `Codecs.dfy` the typed reads and writes, `CodecWire.dfy` how they lie in memory.
- **WebSocket frames** (`WebSocket.dfy`, `WebSocketWire.dfy`), sections 5.2 to 5.5 of RFC 6455.
- **Nested `Transaction`** (`Transaction.dfy`) against a MySQL session with savepoints.
- **`AsyncLogAppender`** (`AsyncLog.dfy`, `AsyncLogFlood.dfy`).
- **`Terrain2D`**, **`buildInsertBatch`** and the **IPv6 writer** (`Terrain.dfy`, `SqlBatch.dfy`,
  `SqlStatement.dfy`, `IPv6.dfy`, with `Numerals.dfy`).

`Counting.dfy`, `Bits.dfy` and `Wrappers.dfy` hold shared helpers. `dafny verify dfyconfig.toml` checks everything.

## What the proofs found

Where a promised property is not true of the code, the model keeps the code as it is, a lemma
gives an input that shows it, and another gives the condition under which it holds.

- Two overlapping `start()` calls can each take one of the two tokens of `m_waitSem` and then wait
  for each other for good (`OverlappingStartsWedge`, `WedgedForever`). In a reachable state some
  schedule leads there exactly when two starts are rivals for the tokens (`CanWedgeIffRisky`), and a
  run never comes into that danger exactly when every `start()` is called while no earlier one has
  still to ask for its second token (`WedgeFreeIffCallsApart`). A parked `start()` can be scheduled to
  both tokens exactly when it is not contended (`ParkedStartIsServedIffUncontended`), which asks
  for more than that nobody is wedged yet (`ContendedBeforeWedged`).
- A request can be left without anybody who is sure to find it in three ways. `addCtx()` keeps the
  entry of a number that is in use (`ReusedSnStrandsWaiter`). A timeout that runs after its context's
  answer erases the entry that a later context has under the same number (`LateTimeOutStrandsWaiter`);
  `doRsp()` cancels the timer, so its callback must have been collected before that. And it is added
  while no close is sure to come (`CloseComes`): no thread is bound for the swap of `m_ctxs`, that is, no
  `start()` with both tokens, no reader, and nobody in `innerClose()` up to its swap, and no `start()` is
  next in line for its second token. Such a request can end up unanswered, and any other is answered
  whatever happens (`AnsweredIffCloseComes`, without timers and `getCtx()`);
  `sylar/rpc/rpc_channel.cc:210-214` adds its contexts without a timer. Once every thread has swapped
  or ended, and until the next `start()`, it is never answered (`LateRequestIsLost`). Over runs without
  `getCtx()`, which nothing in the repository calls, every request has somebody who is sure to find it at
  every point exactly when none of the three happens (`AlwaysCaredIffOrderly`), and then every request has
  been woken exactly once when the stream comes to rest (`EveryRequestAnswered`). Of the contexts alone,
  where being registered counts as having somebody, the first two are exactly what must not happen
  (`AlwaysCoveredIffAllClean`).
- A failing `warmup()` frees a slot without notifying, and a getter can sleep beside it
  (`FailingWarmUpLosesWakeup`). A step loses a wakeup exactly when it is such a failure while a getter
  is parked and the free slots and connections already need every wakeup on its way
  (`WakeupsKeptUnlessLost`, and over runs `NoLostPoolWakeup`). `put()` keeps the accounting exactly
  when the connection was lent.
- Reading back an empty string that ends exactly at the capacity of a `ByteArray` goes through a null
  block; the typed round trip holds exactly when this does not occur and every string's size fits
  its length field (`ReadsBack`, in `TypedRoundTrip`).
- The receiver's length check adds in 64 bits. A frame passes it although it is too long exactly when
  its length is within `curLen` of 2^64 (`CheckWrapsIff`), and then the length is negative as `int64_t`
  and as `int`, so that nothing is read and the stream is closed (`WrappedLengthCloses`; such a frame is
  in `WrappingFrameCloses`). Before that, `data.resize(cur_len + length)` has already shortened the string
  to the wrapped sum, and `&data[cur_len]` is past its end (`sylar/http/ws_session.cc:186-187`).
- Empty fragments close the stream. A client's `WSSendMessage` masks the message object itself, so it
  no longer holds what was passed in unless the key is zero (`MaskedTwice`).
- `Transaction::commit` and `rollback` count the depth down before the answer is known, so after a
  failed outermost end the destructor no longer rolls back: the connection is left clean exactly when
  the statement succeeded (`LeaksExactlyOnFailedEnd`).
- A log round with more than 25 buffers writes exactly its first two (`RoundWritesAllOrTwo`). That takes at
  least twelve and a half buffers of text since the round before (`LittleTextNeverFloods`).
- `removeCircle` with a negative radius is not a no-op (`NegativeRadiusDigs`); with any other radius it
  digs exactly the disc.

Comments that the code contradicts: `sylar/net/async_socket_stream.h:122` says `m_waitSem` starts at
0, the constructor starts it at 2; `sylar/orm/transaction.cc:19` says an unfinished transaction is always
rolled back on destruction, see above. The models follow the code.

## Model

| member | source | states |
|---|---|---|
| FiberSemaphores.FiberSemaphore.Wait | sylar/scheduler/fiber_semaphore.cc:17-28 | takes a stored token or queues the fiber; parked exactly when no token was stored |
| FiberSemaphores.FiberSemaphore.Notify | sylar/scheduler/fiber_semaphore.cc:75-89 | hands the token to the longest waiting fiber, or stores it when nobody waits |
| FiberSemaphores.ReleasesInOrder | sylar/scheduler/fiber_semaphore.cc:17-89 | after any history exactly the first min(waits, initial + notifies) callers of wait have been let through, in call order; tokens are stored only while nobody waits |
| AsyncSocketStreams.AsyncSocketStream.constructor | sylar/net/async_socket_stream.cc:61-68 | the object starts as the initial state: no send token, two exit tokens, empty queue and context table |
| AsyncSocketStreams.OthersKeep | sylar/net/async_socket_stream.cc:70-265 | no steps of other threads move a thread that is not parked, answer for its doRsp call, take a context out of its hands, or set a cleared scheduler; this is all that a method relies on between two sections |
| AsyncSocketStreams.AsyncSocketStream.Start | sylar/net/async_socket_stream.cc:70-119 | waitFiber, connection test, reconnect and connect callback: it succeeds exactly when the callback accepts a connection that the test has found up or reconnect has brought up, and it comes to the callback on a live connection only; true with doRead and then doWrite scheduled by this call, false with its innerClose run, the contexts that took claimed, and both tokens back |
| AsyncSocketStreams.AsyncSocketStream.WaitToken | sylar/net/async_socket_stream.cc:253-257 | one wait of waitFiber takes a token or parks, and goes on once a token has been handed over |
| AsyncSocketStreams.AsyncSocketStream.DoRead | sylar/net/async_socket_stream.cc:121-147 | receives message after message; it ends only after its test has found the connection down, the input has ended, or a message came whose number is not registered; then innerClose swaps the contexts out, all that were registered at that point are claimed, and the token goes back |
| AsyncSocketStreams.AsyncSocketStream.Receive | sylar/net/async_socket_stream.cc:123-134 | goes on exactly when a message comes whose number is registered, and then exactly that context is taken out and claimed by the end; otherwise there was no message or its number was not registered when it was looked up |
| AsyncSocketStreams.AsyncSocketStream.DoWrite | sylar/net/async_socket_stream.cc:149-176 | wait, swap, send in a loop; it ends only after its test has found the connection down or doSend has thrown; every round that goes on has swapped out the whole queue, and when every send succeeds exactly these batches have been sent, in order; what its closes took is claimed and the token goes back |
| AsyncSocketStreams.AsyncSocketStream.SwapQueue | sylar/net/async_socket_stream.cc:153-157 | the swap, one step of this thread, takes the whole queue as the batch and leaves it empty; nothing is sent by it |
| AsyncSocketStreams.AsyncSocketStream.SendBatch | sylar/net/async_socket_stream.cc:158-168 | items are sent in order up to the first that fails: all of them appended to what was sent when none does, a refused one runs innerClose, claims exactly the contexts registered at its swap and goes back to the loop, an exception leaves it |
| AsyncSocketStreams.AsyncSocketStream.InnerClose | sylar/net/async_socket_stream.cc:231-251 | close, notify, swap of the contexts, clear of the queue and doRsp for every context taken, in this order, by whichever thread; exactly the contexts registered at the swap are claimed at the end, and the queue is empty after its clear, which comes later than the swap |
| AsyncSocketStreams.AsyncSocketStream.SwapCtxs | sylar/net/async_socket_stream.cc:237-241 | a close takes every registered context out at once, as one step of its thread and of the contexts |
| AsyncSocketStreams.AsyncSocketStream.AnswerCtxs | sylar/net/async_socket_stream.cc:246-249 | every context in hand is claimed at the end, whoever else answers them meanwhile |
| AsyncSocketStreams.AsyncSocketStream.Enqueue | sylar/net/async_socket_stream.cc:220-229 | the push is the next event, and the caller notifies m_sem before it returns exactly when the queue was empty |
| AsyncSocketStreams.AsyncSocketStream.AddCtx | sylar/net/async_socket_stream.cc:214-218 | insert keeps an existing entry; true is returned either way |
| AsyncSocketStreams.AsyncSocketStream.GetAndDelCtx | sylar/net/async_socket_stream.cc:203-212 | the entry is removed and its context returned, with the doRsp call that is now owed |
| AsyncSocketStreams.AsyncSocketStream.OnTimeOut | sylar/net/async_socket_stream.cc:188-195 | the next event erases whatever is registered under the number; at the end the context itself is claimed |
| AsyncSocketStreams.AsyncSocketStream.LoadScheduler | sylar/net/async_socket_stream.cc:42 | a set scheduler at any later time was set when it was loaded |
| AsyncSocketStreams.AsyncSocketStream.ClaimScheduler | sylar/net/async_socket_stream.cc:43-48 | after the compare-and-swap the scheduler is cleared, and the caller goes on to schedule exactly when it cleared a set one |
| AsyncSocketStreams.AsyncSocketStream.DoRsp | sylar/net/async_socket_stream.cc:40-57 | load, compare-and-swap and schedule as three sections: the context is claimed at the end, by this call or another |
| AsyncSocketStreams.AtEveryPoint | sylar/net/async_socket_stream.cc:61-265 | of the object at any point: stored and held tokens add up to 2, a non-empty queue has its wakeup, sent, in hand and queued are an in-order part of what was accepted, no request has scheduled its fiber twice |
| AsyncSocketStreams.AtRestAllAnswered | sylar/net/async_socket_stream.cc:188-251 | of the object at rest: when requests were added in good order, every one has scheduled its fiber exactly once and none is registered |
| AsyncStreamTokens.StepKeepsTokens | sylar/net/async_socket_stream.cc:70-176 | every step keeps count + held tokens = 2, at most one read right and one write right, and waiter lists that hold exactly the parked threads |
| AsyncStreamRelease.StepKeepsRelease | sylar/net/async_socket_stream.cc:121-176 | every step keeps: without a reader that has still to notify m_sem, the connection is down and the writer is neither parked nor about to park |
| AsyncStreamRelease.StepKeepsWakeup | sylar/net/async_socket_stream.cc:149-229 | every step keeps: a non-empty queue has a token, a writer before its swap, or a sender that owes a notify |
| AsyncStreamFlow.StepKeepsFlow | sylar/net/async_socket_stream.cc:149-251 | every step keeps the order and the count of accepted sends, and grows the flow by exactly what is enqueued unless it counts a loss |
| AsyncStreamTheorems.TokenConservation | sylar/net/async_socket_stream.cc:61-176 | in every reachable state the tokens of m_waitSem add up to 2; never two readers or two writers; reconnect and the connect callback run only while neither is live |
| AsyncStreamTheorems.NoLostWakeup | sylar/net/async_socket_stream.cc:149-229 | in every reachable state a non-empty queue has its wakeup stored, taken or owed |
| AsyncStreamTheorems.SendsStayInOrder | sylar/net/async_socket_stream.cc:149-251 | sent ++ in hand ++ queued is an in-order part of all accepted sends, short of exactly the counted losses |
| AsyncStreamTheorems.LosslessBetweenCloses | sylar/net/async_socket_stream.cc:149-251 | over any run in which nothing is discarded, sent ++ in hand ++ queued grows by exactly what is enqueued, in order |
| AsyncStreamTheorems.ShutdownReleasesWriter | sylar/net/async_socket_stream.cc:121-176 | once no reader has still to notify m_sem, the connection is down, the writer is not parked and each of its steps lowers the number it has left before its token is back, whatever doSend does |
| AsyncStreamTheorems.ReleaseIsStable | sylar/net/async_socket_stream.cc:121-251 | no step of another thread moves or parks that writer, or brings a new reader |
| AsyncStreamTheorems.WriterFinishes | sylar/net/async_socket_stream.cc:121-176 | over whole runs: once no reader has still to notify m_sem, a writer that takes as many steps as it has left, and one more per item enqueued meanwhile, has finished and returned its token, whatever the others do |
| AsyncStreamReasons.ConnectionIsTested | sylar/net/async_socket_stream.cc:81-166 | in every step: who comes to reconnect has found the connection down, who comes to the connect callback is on a live connection, who comes to receive or to wait for sends has found it up |
| AsyncStreamReasons.TestsDecide | sylar/net/async_socket_stream.cc:81-152 | each of the three connection tests goes the way the flag tells: start past reconnect, the reader to doRecv and the writer to its wait exactly when the connection is up |
| AsyncStreamReasons.LossHasReason | sylar/net/async_socket_stream.cc:149-251 | sends are discarded only in a step at which the connection is down or doSend does not succeed, or by a thread that has caught an exception before |
| AsyncStreamReasons.NothingLostWhileUp | sylar/net/async_socket_stream.cc:149-251 | over any run with the connection up at every point and every doSend successful nothing is lost, and sent ++ in hand ++ queued grows by exactly what is enqueued |
| AsyncStreamSends.EverythingCanBeSent | sylar/net/async_socket_stream.cc:149-229 | in a reachable state with the connection up and the writer in its loop, the threads can be scheduled until exactly everything in hand and queued has been sent, in order, with the connection up and nothing lost |
| AsyncStreamSends.SwapsBalanceNotifies | sylar/net/async_socket_stream.cc:149-235 | over any run, swaps of the queue and tokens of m_sem stored or just taken add up to the notifies and what there was before: no swap without a notify |
| AsyncStreamWedges.ParkedStartIsServedUnlessWedged | sylar/net/async_socket_stream.cc:253-257 | for a parked start, some runnable thread still holds a token if and only if the two tokens are not split between two parked starts |
| AsyncStreamWedges.WedgedForever | sylar/net/async_socket_stream.cc:253-257 | once split between two parked starts the tokens stay so in every continuation |
| AsyncStreamWedges.OverlappingStartsWedge | sylar/net/async_socket_stream.cc:70-79 | two overlapping start calls reach that state |
| AsyncStreamWedges.RivalsCanWedge | sylar/net/async_socket_stream.cc:70-176 | from any reachable state with two rivals for the tokens the threads can be scheduled until both are parked with one token each |
| AsyncStreamWedges.CanWedgeIffRisky | sylar/net/async_socket_stream.cc:70-257 | in a reachable state some schedule of the threads splits the tokens for good if and only if it has happened or two starts are rivals for them |
| AsyncStreamWedges.CallIsRiskyIffSomebodyEarly | sylar/net/async_socket_stream.cc:70-79 | a start call brings that danger if and only if an earlier one has still to ask for its second token |
| AsyncStreamWedges.WedgeFreeIffCallsApart | sylar/net/async_socket_stream.cc:70-79 | a run never comes into that danger if and only if every start is called while no earlier one has still to ask for its second token; then it never wedges |
| AsyncStreamServices.ContendedForever | sylar/net/async_socket_stream.cc:70-257 | a start that clashes with another over the tokens never gets both, whatever happens |
| AsyncStreamServices.ParkedStartIsServedIffUncontended | sylar/net/async_socket_stream.cc:70-257 | in a reachable state some schedule of the threads brings a parked start to both tokens if and only if it is not contended |
| AsyncStreamServices.ContendedBeforeWedged | sylar/net/async_socket_stream.cc:70-79 | a parked start can be contended before anybody is wedged |
| RequestWaiters.ScheduledAtMostOnce | sylar/net/async_socket_stream.cc:40-57 | under any race of responses, timeouts and closes, and with reused numbers, a waiting fiber is scheduled at most once |
| RequestWaiters.ReleasedIsFree | sylar/net/async_socket_stream.cc:188-241 | after its response, a timeout of a context under it, or a close, no response finds anybody under the number until another context is added under it |
| RequestWaiters.CoveredIffNobodyStranded | sylar/net/async_socket_stream.cc:188-251 | a step keeps every unwoken context registered, in the hands of a close or in a doRsp if and only if it neither adds one under a number in use nor times out a context whose number is now held by one that nothing else would reach |
| RequestWaiters.AlwaysCoveredIffNobodyStranded | sylar/net/async_socket_stream.cc:188-251 | the same over whole runs |
| RequestWaiters.StrandsIffUnclean | sylar/net/async_socket_stream.cc:188-218 | without getCtx the internal condition is the one of callers: a step strands somebody if and only if it adds a number in use or times out a context whose number another one holds |
| RequestWaiters.AlwaysCoveredIffAllClean | sylar/net/async_socket_stream.cc:188-251 | over whole runs without getCtx every unwoken context stays within reach if and only if no number is added while in use and no timer outlives the entry of its context |
| RequestWaiters.ScheduledExactlyOnce | sylar/net/async_socket_stream.cc:188-251 | when no step has stranded a waiter, once nothing is in flight every context has been scheduled exactly once or is still registered and unscheduled |
| RequestWaiters.CleanRunsScheduleExactlyOnce | sylar/net/async_socket_stream.cc:188-251 | the same when numbers are distinct among the registered contexts and no timer outlives the entry of its context |
| RequestWaiters.CallReturns | sylar/net/async_socket_stream.cc:40-57 | a doRsp that gets the steps it has left returns, whatever the others do |
| RequestWaiters.RacesEnd | sylar/net/async_socket_stream.cc:40-57 | from any state at most the steps counted by the measure bring all calls and closes to an end |
| RequestWaiters.ReusedSnStrandsWaiter | sylar/net/async_socket_stream.cc:214-250 | with a reused number a waiter is left unscheduled after a complete close |
| RequestWaiters.LateTimeOutStrandsWaiter | sylar/net/async_socket_stream.cc:188-195 | with numbers distinct among registered contexts, a timeout whose callback was collected before the answer cancelled it leaves a later waiter of that number unscheduled |
| AsyncStreamCloses.CloseStillComes | sylar/net/async_socket_stream.cc:70-257 | a close that is sure to come, by a thread bound for the swap of m_ctxs or a start next in line for its second token, stays so until it has swapped, whatever happens |
| AsyncStreamCloses.CloseAvoidableIffNoneComes | sylar/net/async_socket_stream.cc:70-257 | in a reachable state the threads and further calls of start can come to a standstill without another swap of m_ctxs if and only if no close is sure to come |
| AsyncDeliveries.CaredIffOrderly | sylar/net/async_socket_stream.cc:188-251 | an event leaves every request somebody who is sure to find it if and only if it adds no request while no close is sure to come or under a number in use, and times out no context whose number another one holds |
| AsyncDeliveries.AlwaysCaredIffOrderly | sylar/net/async_socket_stream.cc:121-251 | the same over whole runs of threads and requests together |
| AsyncDeliveries.EveryRequestAnswered | sylar/net/async_socket_stream.cc:121-251 | once an orderly run is at rest every request has been woken exactly once and m_ctxs is empty |
| AsyncDeliveries.AnsweredIffCloseComes | sylar/net/async_socket_stream.cc:121-251 | a request added under a free number is woken exactly once in every continuation that comes to a standstill, if and only if a close is sure to come when it is added |
| AsyncDeliveries.LateRequestIsLost | sylar/net/async_socket_stream.cc:214-250 | a request added when every thread has swapped or ended is never woken, in any continuation without a start and without a timer of its own or getCtx |
| ConnectionPools.ConnectionPool.TakeSection | sylar/orm/connection_pool.cc:112-126 | the locked pass of get gives up exactly when closing, else pops the oldest idle connection; it reserves a slot only when nothing is idle and one is free below the limit, and blocks only when nothing is idle and m_created has reached m_maxSize |
| ConnectionPools.ConnectionPool.Put | sylar/orm/connection_pool.cc:151-156 | the connection joins the end of the idle list |
| ConnectionPools.ConnectionPool.CheckConnections | sylar/orm/connection_pool.cc:161-175 | exactly the idle connections unused for sec seconds are removed, in order, and no longer counted; the others keep their order |
| ConnectionPoolTheorems.StepKeepsCounts | sylar/orm/connection_pool.cc:75-179 | every step but a failing warmup keeps the accounting and any bound on free capacity beyond the wakeups on their way |
| ConnectionPoolTheorems.StepKeepsAccount | sylar/orm/connection_pool.cc:75-179 | every step keeps m_created = idle + lent + being checked + reserved, within m_maxSize |
| ConnectionPoolTheorems.WakeupsKeptUnlessLost | sylar/orm/connection_pool.cc:75-179 | a step keeps "while a getter sleeps, free capacity is at most the wakeups on their way" if and only if it is not a failing warmup beside a sleeping getter with every wakeup needed |
| ConnectionPoolTheorems.StepKeepsOwners | sylar/orm/connection_pool.cc:75-179 | every step keeps every connection in one place |
| ConnectionPoolTheorems.CreatedIsExact | sylar/orm/connection_pool.cc:75-179 | in every run m_created = idle + lent + being checked + reserved, and it never exceeds m_maxSize |
| ConnectionPoolTheorems.GuardsNeverFail | sylar/orm/connection_pool.cc:145-170 | the m_created > 0 guards never suppress a decrement |
| ConnectionPoolTheorems.ConnectionsHaveOneOwner | sylar/orm/connection_pool.cc:108-159 | no connection is idle twice, lent while idle, or checked by two getters |
| ConnectionPoolTheorems.PutKeepsAccountingIffLent | sylar/orm/connection_pool.cc:151-159 | put keeps the accounting if and only if the connection was lent |
| ConnectionPoolTheorems.NoLostPoolWakeup | sylar/orm/connection_pool.cc:75-179 | over whole runs that bound holds at every point if and only if no step is of that kind |
| ConnectionPoolTheorems.SleepersHaveNothingToTake | sylar/orm/connection_pool.cc:108-179 | when no warmup has failed beside a sleeping getter, a getter that sleeps with no wakeup on its way has no free connection or slot to take |
| ConnectionPoolTheorems.FailingWarmUpLosesWakeup | sylar/orm/connection_pool.cc:92-95 | a failing warmup leaves a getter asleep beside a free slot |
| ConnectionPoolOrder.CreatesOrSleepsOnlyWithoutIdle | sylar/orm/connection_pool.cc:108-179 | in every step of any thread, a getter comes to create a connection only when none is idle and the limit is not reached, and goes to sleep only when none is idle and it is |
| ConnectionPoolOrder.HandedInOrder | sylar/orm/connection_pool.cc:75-159 | over any run without checkConnections, the idle connections followed by those put back are exactly those handed out, in order, followed by those still idle |
| ConnectionPoolOrder.HandedWithin | sylar/orm/connection_pool.cc:75-179 | with checkConnections as well, those handed out and then those still idle are an in-order part of them |
| ByteArrays.ByteArray.constructor | sylar/net/bytearray.cc:40-48 | one empty block under the cursor, whatever its size; a usable ByteArray when the size is not 0 |
| ByteArrays.ByteArray.CursorIsQuotient | sylar/net/bytearray.cc:345-407 | m_cur is block number m_position / m_baseSize, and null exactly at capacity |
| ByteArrays.ByteArray.AddCapacity | sylar/net/bytearray.cc:503-535 | blocks are linked at the tail until size more bytes fit after the cursor and no further; existing blocks stay; the cursor leaves null |
| ByteArrays.ByteArray.Write | sylar/net/bytearray.cc:345-378 | exactly the addressed range of the flat contents is overwritten, the cursor moves over it, m_size becomes the maximum |
| ByteArrays.ByteArray.WriteLoop | sylar/net/bytearray.cc:351-373 | the block-by-block copy loop overwrites the flat contents at the cursor |
| ByteArrays.ByteArray.Read | sylar/net/bytearray.cc:380-407 | the next n flat bytes and the cursor after them, out_of_range beyond m_size, or the null block of a zero-length read at capacity; on an error nothing moves |
| ByteArrays.ByteArray.ReadLoop | sylar/net/bytearray.cc:385-406 | the block-by-block loop gathers the flat contents at the cursor |
| ByteArrays.ByteArray.SetPosition | sylar/net/bytearray.cc:439-457 | the cursor goes to v if and only if v is within capacity; m_size grows to it; the contents stay |
| ByteArrays.ByteArray.Seek | sylar/net/bytearray.cc:448-456 | the walk from the root ends at the block of the position |
| ByteArrays.ByteArray.Clear | sylar/net/bytearray.cc:332-343 | one empty block is left, with its memory as it was |
| ByteArrays.ByteArray.GetReadBuffers | sylar/net/bytearray.cc:565-594 | the pieces gather exactly the flat contents from the cursor, at most len of them, and nothing moves |
| ByteArrays.ByteArray.GetWriteBuffers | sylar/net/bytearray.cc:640-668 | the pieces cover exactly the next len bytes after the cursor, grown as needed, the old contents untouched |
| ByteArrays.ByteArray.ViewGathers | sylar/net/bytearray.cc:578-592 | the pieces from any block and offset on gather the flat contents there |
| ByteArrays.ByteArray.Scatter | sylar/net/socket_stream.cc:31-36 | receiving into the pieces of a view overwrites the flat contents at the cursor |
| Streams.Stream.ReadFixSize | sylar/net/stream.cc:5-17 | the bytes that arrived, in order, and the rest still to come; the full length or a result of at most 0; a length of 2^63 and more reads nothing |
| Streams.Stream.WriteFixSize | sylar/net/stream.cc:31-44 | a prefix is sent; all of it, or a result of at most 0 |
| Streams.Stream.ReadInto | sylar/net/socket_stream.cc:27-38 | one short receive lands at the cursor, which moves by what arrived |
| Streams.Stream.ReadFixSizeInto | sylar/net/stream.cc:19-29 | however the transfers are cut, the first received bytes lie at the cursor in order, the cursor and the input advance by that many, all of length exactly on success |
| Streams.Stream.WriteFrom | sylar/net/socket_stream.cc:47-58 | one short send takes a prefix of the unread contents and the cursor moves by it; nothing unread sends nothing |
| Streams.Stream.WriteFixSizeFrom | sylar/net/stream.cc:46-56 | however the transfers are cut and whatever length is asked for, unread bytes are sent in order, the cursor advances by that many, the contents stay; all of length or a result of at most 0 |
| Codecs.LoadStore | sylar/core/endian.h:13-29 | an n-byte word stored and loaded in either byte order is its value modulo the word size |
| Codecs.EndianOrder | sylar/core/endian.h:13-29 | big endian is network order, and little endian the same bytes from the other end |
| Codecs.SignedUnsigned | sylar/net/bytearray.cc:69-110 | a signed integer comes back from its two's-complement word |
| Codecs.ZigzagRoundTrip | sylar/net/bytearray.cc:112-134 | the code of x is 2x, or -2x-1 below zero, and decoding by shift, mask and exclusive or gives x back, the minimum included |
| Codecs.ZigzagBits | sylar/net/bytearray.cc:128-134 | (v >> 1) ^ -(v & 1) on the bits of the word is half of an even code, and the complement of half of an odd one |
| Codecs.VarintFitsBuffer | sylar/net/bytearray.cc:141-165 | a varint of a 32-bit (64-bit) value has at most 5 (10) bytes, the sizes of the local buffers |
| Codecs.VarintBytes | sylar/net/bytearray.cc:141-165 | the loop stays within its buffer and produces the varint |
| Codecs.VarintRoundTrip | sylar/net/bytearray.cc:254-284 | a varint is read back with its exact length wherever it lies, other bytes following it |
| Codecs.GroupAdds | sylar/net/bytearray.cc:254-284 | or-ing a group shifted above everything read so far adds it, cut to the word |
| Codecs.ReadVarintAt | sylar/net/bytearray.cc:254-284 | the shift-and-or loop computes the specified word on any bytes, truncation and both kinds of failure included |
| Codecs.ReadGroupAt | sylar/net/bytearray.cc:257-264 | one iteration, result |= (b & 0x7f) << i, keeps the number that the whole read comes to |
| Codecs.ItemRoundTrip | sylar/net/bytearray.cc:180-330 | a single typed value comes back with its exact extent; a string too long for its length field does not; an empty one at capacity hits the null block |
| Codecs.TypedRoundTrip | sylar/net/bytearray.cc:63-330 | any sequence of typed writes is read back by the matching reads, values and cursor, if and only if every string fits its length field and no empty string ends at capacity |
| Codecs.WriteItem | sylar/net/bytearray.cc:63-202 | a typed write appends the encoding at the cursor over any block boundaries |
| Codecs.ReadItem | sylar/net/bytearray.cc:204-330 | a typed read is the decoding of the flat contents at the cursor, errors included |
| Codecs.WriteAll | sylar/net/bytearray.cc:63-202 | a sequence of typed writes overwrites the flat contents with the concatenated encodings |
| Codecs.ReadAll | sylar/net/bytearray.cc:204-330 | a sequence of typed reads is the decoding of the flat contents, up to the first failure |
| Codecs.WriteThenRead | sylar/net/bytearray.cc:63-457 | on a ByteArray: writing, setPosition back and reading gives the values back, if and only if ReadsBack holds |
| CodecWire.StoredInOrder | sylar/net/bytearray.cc:63-110 | each byte of a fixed-width number is its digit in base 256, most significant first in big endian and last in little endian |
| CodecWire.VarintDigit | sylar/net/bytearray.cc:141-165 | byte k of a varint holds bits 7k to 7k+6 of the number, with the high bit set on all but the last, which is not 0 unless the number is |
| CodecWire.OverlongStops | sylar/net/bytearray.cc:254-284 | a read takes 5 bytes of a 32-bit and 10 of a 64-bit number and no more, even when every one says that another follows |
| CodecWire.EncodedLayout | sylar/net/bytearray.cc:63-202 | what every typed write puts into memory, byte by byte: fixed-width numbers and lengths in the byte order that is set, the others as varints, signed ones as 2x or -2x-1, characters after their length |
| WebSockets.HeadRoundTrip | sylar/http/ws_session.h:11-31 | the bit fields and the two bytes determine each other |
| WebSockets.MaskedTwice | sylar/http/ws_session.cc:251-254 | unmasking is masking again; masking leaves the data alone exactly when it meets only zero key bytes |
| WebSockets.LengthRoundTrip | sylar/http/ws_session.cc:164-175 | each of the three length forms is read back |
| WebSockets.MaskFrom | sylar/http/ws_session.cc:189-193 | the in-place loop masks from the given offset on and nothing before it |
| WebSockets.SendMessage | sylar/http/ws_session.cc:216-267 | a prefix of the frame is sent, all of it on success; a client masks the message in place; -1 exactly with the stream closed; on a reliable stream it succeeds for every payload of 1 to 2^31-1 bytes |
| WebSockets.SendControl | sylar/http/ws_session.cc:273-295 | ping and pong send an empty control frame, and the stream is closed exactly when the result is not positive |
| WebSockets.FragmentRoundTrip | sylar/http/ws_session.cc:160-194 | a sent data frame is parsed to its payload with the following bytes untouched, exactly when it is accepted |
| WebSockets.ControlRoundTrip | sylar/http/ws_session.cc:117-136 | a control frame, masked or not, is consumed exactly |
| WebSockets.ReceiveFragment | sylar/http/ws_session.cc:160-203 | one iteration on a data frame: delivered, continued with the longer message, or no message at all |
| WebSockets.ReceiveControl | sylar/http/ws_session.cc:113-148 | pings and pongs between fragments leave the message in progress alone |
| WebSockets.CloseFrameEnds | sylar/http/ws_session.cc:149-214 | a CLOSE frame, masked or not and with any payload, or a frame with a reserved opcode ends the receiver without a message, whatever pieces of an incomplete message have come before and whatever follows |
| WebSockets.MessageRoundTrip | sylar/http/ws_session.cc:100-214 | for any fragments, masks and interleaved pings and pongs: first opcode, whole payload, every ping answered, exactly those frames consumed; if and only if no fragment is empty, a server gets masked ones only, and the total is below the maximum |
| WebSockets.ReadDataAt | sylar/http/ws_session.cc:160-194 | parsing a data frame off a stream with short transfers agrees with the parser on bytes |
| WebSockets.CheckWrapsIff | sylar/http/ws_session.cc:177-180 | a sum that is too long passes the check if and only if the length is within cur_len of 2^64 |
| WebSockets.WrappedLengthCloses | sylar/http/ws_session.cc:177-187 | such a length reads nothing and ends the receiver |
| WebSockets.WrappingFrame | sylar/http/ws_session.cc:169-187 | a frame whose length passes the check by wrapping round, and stops |
| WebSockets.WrappingFrameCloses | sylar/http/ws_session.cc:100-214 | the receiver closes on that frame |
| WebSockets.AnswerControl | sylar/http/ws_session.cc:113-153 | a control frame is consumed, and a ping answered, with exactly one pong |
| WebSockets.ReceiveFrame | sylar/http/ws_session.cc:105-209 | one iteration of the receive loop is one step of the parser on bytes |
| WebSockets.ReceiveMessage | sylar/http/ws_session.cc:100-214 | on any input whatever: a returned message is what the parser finds, with everything after it unread and one pong sent per ping; on a reliable stream it is found whenever it is there; otherwise the stream is closed, as it is whenever a CLOSE frame or a reserved opcode comes before the final fragment |
| WebSockets.SendThenReceive | sylar/http/ws_session.cc:100-295 | a message sent piece by piece on one end is returned whole on the other |
| WebSocketWire.HeadLayout | sylar/http/ws_session.h:11-31 | fin is the high bit of the first byte, the reserved bits and the opcode follow; the mask flag is the high bit of the second, before the seven bits of length |
| WebSocketWire.ShortFrame | sylar/http/ws_session.cc:216-267 | up to 125 bytes a frame is two bytes written out as numbers, with the length in the second, the key if any, and the payload |
| WebSocketWire.LongFrame | sylar/http/ws_session.cc:222-243 | from 126 bytes on the second byte holds 126 or 127, and the length follows in two or eight bytes, most significant first |
| WebSocketWire.ControlFrames | sylar/http/ws_session.cc:273-295 | a ping is the bytes 0x89 0x00, a pong 0x8A 0x00 |
| WebSocketWire.SingleFrame | sylar/http/ws_session.cc:100-267 | a message in one frame comes back with its own opcode and payload if and only if it is not empty, masked when a server reads it, and below the maximum |
| WebSocketWire.FirstOpcodeIsFirst | sylar/http/ws_session.cc:194-203 | a message in several fragments has the opcode of the first one that is not a continuation |
| Transactions.Transaction.Begin | sylar/orm/transaction.cc:26-44 | BEGIN or SAVEPOINT by depth; a failure leaves depth and session alone; refused when finished |
| Transactions.Transaction.Commit | sylar/orm/transaction.cc:46-67 | COMMIT or RELEASE by depth; the depth is counted down even when the statement fails |
| Transactions.Transaction.Rollback | sylar/orm/transaction.cc:69-94 | ROLLBACK or ROLLBACK TO by depth; at depth 0 it only finishes the object |
| Transactions.Transaction.Execute | sylar/orm/transaction.cc:96-105 | runs the query unless finished and remembers failures |
| Transactions.Transaction.Destroy | sylar/orm/transaction.cc:18-24 | rolls back an unfinished transaction with open levels; the object is finished even when the ROLLBACK fails, and then the session is as before |
| Transactions.StepRefines | sylar/orm/transaction.cc:26-105 | each call keeps the object in step with a stack of snapshots, and every RELEASE and ROLLBACK TO finds its savepoint in spite of left-over ones |
| Transactions.RunRefines | sylar/orm/transaction.cc:26-105 | any sequence of calls leaves the database of the snapshot stack, when no commit or rollback statement fails |
| Transactions.FreshRunRefines | sylar/orm/transaction.cc:10-105 | the same from a new object on an idle session |
| Transactions.RollbackRestoresBegin | sylar/orm/transaction.cc:26-94 | a rollback restores the state at its matching begin, whatever happened in between |
| Transactions.DestroyRestoresOutermost | sylar/orm/transaction.cc:18-24 | destroying an unfinished object restores the state at the outermost begin and leaves no transaction open |
| Transactions.LeaksExactlyOnFailedEnd | sylar/orm/transaction.cc:46-94 | the outermost commit or rollback and then destruction leave the session clean if and only if the statement succeeded |
| Transactions.StaleSavepoint | sylar/orm/transaction.cc:69-94 | at any depth, a rolled-back inner level leaves its savepoint behind as the newest one, whatever was done in it; after any query the next begin replaces it, and no other savepoint has its name |
| Transactions.StatementsByDepth | sylar/orm/transaction.cc:26-105 | the first level is opened and ended by BEGIN, COMMIT and ROLLBACK, level n within it by the savepoint n; at depth 0 an end sends nothing, and once finished neither begin nor execute does |
| Transactions.ErrorsAreRemembered | sylar/orm/transaction.cc:26-105 | after any calls m_hasError is set if and only if it was before or some statement has failed |
| Transactions.FailuresLeaveSession | sylar/orm/transaction.cc:26-105 | a failing statement leaves the session and m_finished as they were; commit and rollback lower the depth all the same |
| AsyncLogs.FixedBuffer.AppendText | sylar/core/asynclog.h:26-31 | all of the text or nothing, and only when it leaves at least one byte free |
| AsyncLogs.FixedBuffer.Reset | sylar/core/asynclog.h:38 | the buffer is empty again |
| AsyncLogs.AsyncLogAppender.Log | sylar/core/asynclog.cc:67-88 | one call under the lock is the Log step; a message that fits goes to the end of the current buffer and no buffer is pushed, otherwise the buffer is pushed and the spare or a new one goes on |
| AsyncLogs.AsyncLogAppender.CollectBuffers | sylar/core/asynclog.cc:101-117 | the critical section of the thread is the Collect step |
| AsyncLogs.AsyncLogAppender.TrimFlood | sylar/core/asynclog.cc:119-122 | the flood guard is the Trim step |
| AsyncLogs.AsyncLogAppender.WriteBuffers | sylar/core/asynclog.cc:125-128 | the write loop is one Write step per buffer, in order |
| AsyncLogs.AsyncLogAppender.RecycleBuffers | sylar/core/asynclog.cc:135-150 | both spare buffers are restored, empty, without underflow |
| AsyncLogs.RecyclingNeverUnderflows | sylar/core/asynclog.cc:72-151 | in every run log finds a current buffer, back() is never called on an empty vector, and both spare buffers are there and empty at every loop head |
| AsyncLogs.StepConserves | sylar/core/asynclog.cc:67-151 | each step keeps: past ++ round ++ dropped ++ memory is everything logged, and the file is what of the past was kept |
| AsyncLogs.LogConservation | sylar/core/asynclog.cc:67-151 | the same over whole runs, in lock order, for every message shorter than a buffer |
| AsyncLogs.LosslessWithoutFlood | sylar/core/asynclog.cc:67-151 | while no round collects more than 25 buffers, file ++ round ++ memory is every message shorter than a buffer, in lock order |
| AsyncLogs.RoundWritesAllOrTwo | sylar/core/asynclog.cc:119-133 | a round writes exactly its buffers, or exactly its first two when it has more than 25, whatever is logged meanwhile |
| AsyncLogFloods.PushesOnlyWhenFull | sylar/core/asynclog.cc:72-88 | a buffer is pushed if and only if it has no room for the message, as it is, and the next buffer starts with that message; otherwise the message is appended and nothing else changes |
| AsyncLogFloods.LittleTextNeverFloods | sylar/core/asynclog.cc:67-122 | when less text than fills twelve and a half buffers is logged between any two rounds, no round floods |
| AsyncLogFloods.LosslessWithLittleText | sylar/core/asynclog.cc:67-151 | and then file ++ round ++ memory is every message shorter than a buffer, in lock order |
| SqlBatches.MysqlEscape | sylar/orm/util.cc:94-111 | the loop escapes character by character |
| SqlBatches.EscapedRead | sylar/orm/util.cc:94-111 | MySQL reads an escaped string back whole and goes on right after it |
| SqlBatches.LiteralRoundTrip | sylar/orm/value.cc:120-131 | every literal is read back as what the value means, with the text after it untouched |
| SqlBatches.Query.BuildInsertBatch | sylar/orm/query.cc:225-251 | the statement by the first row's field order, NULL for missing keys; nothing is built, and nothing remembered, from no rows |
| SqlBatches.TupleRoundTrip | sylar/orm/query.cc:239-247 | one parenthesised row is read back cell by cell |
| SqlBatches.BatchRoundTrip | sylar/orm/query.cc:225-251 | the VALUES list is read back as exactly the table of rows by first-row columns, whatever characters the strings contain |
| SqlStatements.StatementRoundTrip | sylar/orm/query.cc:225-251 | read back, the whole statement names the table, the columns in the order of the first row and the table of rows, for names without spaces, commas and parentheses |
| Terrains.IndexInRange | src/common/terrain2d.h:46-47 | every cell has its bit within the first w * h bits |
| Terrains.IndexInjective | src/common/terrain2d.h:46-47 | no two cells share a bit |
| Terrains.RowMajor | src/common/terrain2d.h:44-47 | bits lie row by row: one further in x is the next bit, one further in y the next row |
| Terrains.Terrain2D.IsSolid | src/common/terrain2d.cc:33-36 | membership in the set of cells, which is the bit of its row-major index; false outside the grid |
| Terrains.Terrain2D.SetSolid | src/common/terrain2d.cc:38-44 | exactly one cell is added or removed; nothing happens outside the grid |
| Terrains.BoxCoversDisc | src/common/terrain2d.cc:46-51 | the bounding box, truncated towards zero, misses no cell of the disc |
| Terrains.RimIsDug | src/common/terrain2d.cc:46-61 | a cell at exactly the radius from the centre belongs to the disc, the next one does not |
| Terrains.Terrain2D.RemoveCircle | src/common/terrain2d.cc:46-61 | exactly the cells of the disc inside the truncated box go; with a radius that is not negative, exactly the disc |
| Terrains.NegativeRadiusDigs | src/common/terrain2d.cc:46-61 | a negative radius can dig a cell |
| Terrains.DugAllIsDifference | src/common/terrain2d.cc:46-61 | after any sequence of circles the cells left are the initial ones outside every disc |
| Terrains.OrderDoesNotMatter | src/common/terrain2d.cc:46-61 | the order of the circles does not matter |
| Terrains.Terrain2D.ColumnHeight | src/common/terrain2d.cc:63-70 | the downward scan finds the height of the column |
| Terrains.Height | src/common/terrain2d.cc:63-70 | the height is one more than the top solid cell, with nothing solid above it, or 0 |
| Terrains.HeightsNeverRise | src/common/terrain2d.cc:46-70 | digging never raises a column |
| IPv6Addresses.InsertGroups | sylar/net/address.cc:413-446 | the loop writes the groups with the first run of zeros as "::" and later zeros printed |
| IPv6Addresses.Insert | sylar/net/address.cc:413-450 | the same between brackets, followed by the port |
| IPv6Addresses.TextExpands | sylar/net/address.cc:413-446 | at most one "::", and expanding it by section 2.2 of RFC 4291 gives back the same eight groups, for every address |
| IPv6Addresses.FirstRunIsGap | sylar/net/address.cc:413-446 | "::" stands for exactly the first run of zero groups; without a zero group there is none |
| IPv6Addresses.NoLeadingZero | sylar/net/address.cc:439 | a group other than 0 is printed without leading zeros |
| IPv6Addresses.GroupDigits | sylar/net/address.cc:439 | a group has one to four hexadecimal digits |

## Left out

- Real sockets, epoll, SSL, MySQL, files, clocks, threads and the fiber scheduler: they appear as nondeterministic steps, parameters or results.
- Disconnect callbacks, and exceptions thrown by the connect callback or by user code inside innerClose.
- The result code of a request when a timeout and a response race, and the byte-level delivery of RawSendCtx.
- FiberSemaphore::wait with a timeout and notifyAll; setting m_autoConnect and cancelling its timer (a start may be called at any time instead).
- AsyncSocketStreams.AsyncSocketStream.DoRead: the loops of doRead and doWrite are followed for as many messages or rounds as a parameter gives, as methods must end; doRecv is RpcStream's, which looks its context up by getAndDelCtx.
- AsyncSocketStreams.AsyncSocketStream.ClaimScheduler: a context always has its fiber; the test for a missing one is left out.
- AsyncSocketStreams.AsyncSocketStream.Others: other threads are what OthersKeep says of them; the object does not run them.
- AsyncDeliveries.EveryRequestAnswered: that readers end and doRsp calls are scheduled is its hypothesis; a reader that waits for a silent peer keeps the stream from being at rest.
- AsyncStreamTheorems.WriterFinishes: that the scheduler keeps running the writer is its hypothesis.
- RequestWaiters.LateTimeOutStrandsWaiter: cancelling a timer is not modelled; a timeout may come at any time, as one does whose callback has been collected.
- Streams.Stream.WriteFrom: an empty view has no first element, whose address the source takes; the model sends no pieces.
- RequestWaiters.ScheduledExactlyOnce: waiters set their fiber and scheduler before addCtx; one set later can be missed.
- ConnectionPools.ConnectionPool.TakeSection: when m_closing is set is not modelled, nor are the heartbeat that pings a snapshot outside the lock and changes of m_maxSize.
- ConnectionPools.ConnectionPool.CheckConnections: expired connections are returned for deletion; destroying them is not modelled.
- ByteArray: positioned read and getReadBuffers, toString, writeToFile and readFromFile; anything on a base size of 0 but construction; size_t overflow of sizes and positions.
- ByteArrays.ByteArray.Clear: nodes that are cut off are not freed in the model.
- Codecs.ReadItem: a length field too large for std::string is an out_of_range like any other length that is not there; writeStringWithoutLength has no matching read.
- The WebSocket handshake, and checks the receiver does not make (reserved bits, continuation order, control frames of 126 bytes and more).
- WebSockets.ReceiveMessage: the configured maximum is at most 2^31, as the int in which the length is kept requires.
- Transactions.Transaction.Destroy: getLastInsertId and the formatting overload of execute are not modelled; queries are functions on the database.
- Transactions.RunRefines: what happens after a failing commit or rollback statement is only described by LeaksExactlyOnFailedEnd.
- AsyncLogs.AsyncLogAppender.Log: buffers move as values, as unique_ptr ownership allows; level filter and formatting come before it.
- AsyncLogs.AsyncLogAppender.WriteBuffers: fwrite writes everything; rolling to a new file does not change what is written.
- Nothing is claimed about what is still in memory when the log thread is stopped.
- SqlBatches.LiteralRoundTrip: floating-point literals (%g) are not modelled; the SQL mode with backslash escapes and a single-byte view of strings are assumed.
- SqlBatches.Query.BuildInsertBatch: the iteration order of std::map is a parameter that is required to be it; table and field names are copied unquoted.
- Terrains.Terrain2D.RemoveCircle: floats are reals, and conversions to int do not overflow; the cosine surface of generate is left out.
- Other address functions, the remaining query builders, HTTP parsing, configuration, RPC and services: they would add easy members.
