# Skynet and Sunnet, modelled in Dafny

This project models the concurrent and the algorithmic core of the vendored skynet runtime
and of the Sunnet scheduler, and proves what they are for:

- `Timer.dfy`: the hierarchical timing wheel refines a plain list of (tick, event).
- `MessageQueue.dfy`, `ServiceProtocol.dfy`, `ServiceDelivery.dfy`: the growing ring of a
  service queue, the protocol by which workers, senders and dying contexts share queues,
  and what becomes of a message.
- `TcpSocket.dfy`, `TcpSocketThread.dfy`, `TcpProtocol.dfy`: the TCP half of the socket
  server: two write lists and a direct-write side buffer as values, the socket thread's
  operations in place, and all interleavings with sending threads.
- `TcpDelivery.dfy`, `TcpDraining.dfy`, `TcpReading.dfy`: what becomes of packets accepted,
  how far sending gets, and what becomes of bytes read.
- `Sunnet.dfy`, `SunnetCalls.dfy`: the scheduler with its three mutexes, at the grain of
  single accesses, and what its calls do.
- `Serializer.dfy`, `SerializerBuffers.dfy`: packing and unpacking of Lua values.
- `Framing.dfy`, `Netpack.dfy`: length-prefixed packages out of chunks of many streams.
- `Sharedata.dfy`: tables without spare slots, filled in two passes.
- `Sha1Spec.dfy`, `Sha1.dfy`, `Sha1Stream.dfy`: SHA-1 against FIPS 180-4.
- `Des.dfy`, `DesStandard.dfy`, `DesText.dfy`: DES, against FIPS 46-3, and DES texts.
- `DiffieHellman.dfy`: the 64-bit key exchange.
- `HandleTable.dfy`, `HandleNames.dfy`: handles and their names.
- `StmProtocol.dfy`, `StmCalls.dfy`: snapshots under the atomic reader/writer lock, and what
  reading and updating do.
- `ReadBuffer.dfy`: chunked reading of bytes and lines.
- `Prelude.dfy`: shared types, arithmetic and counting lemmas.

Threads are interleaved atomic steps. A state machine is a state, one function per step
with the condition under which it can be taken, a predicate `Next`, and runs as sequences
of states; its main theorems speak of every state of every run and of any number of
threads. Code that works in place is a class whose methods are tied to a function of the
old state. Results of system calls, scheduling choices, hash functions of strings, S-boxes
and key schedules are parameters or arbitrary choices. C unsigned arithmetic is written
out with its wrap-around.

## Where the code differs from what it promises

- Packets can be torn. `force_close` frees both write lists before it takes the direct
  write lock and marks the socket invalid. A sender that passes both checks of
  `can_direct_write` in between writes behind an incomplete packet. `TornIsReachable`
  gives such a run, and `WholeUnlessCutIn` shows that the bytes are whole packets if and only
  if no write came in between.
- `powmodp(P, 1)` returns P instead of 0, as only bases above P are reduced; every other
  base and non-zero exponent is right (`PowModp`).
- `sat_SHA1_Update` compares a 32-bit sum with a 64-bit shift, so a piece of 2^29 bytes or
  more adds a carry too many unless the sum carries anyway (`HighRightIff`); the digest of
  a text of 2^29 bytes or more at once has a length field 2^32 too big (`RecordedIs`).
- A 64-bit integer looked up in a shared table is cut down to 32 bits first, so it can find
  another key's value (`IntegerLookupExact`, `IntegerLookupFails`).

## Assumptions

- Memory is sequentially consistent, and allocation succeeds.
- In `skynet_context_new` registering the handle, storing it and creating the queue form
  one step; a handle is not reissued while an old queue with it is alive.
- TCP senders use a socket id only after it has been opened.
- Chunks given to netpack and to the read buffer are not empty.
- Hosts are little-endian.

## Model

| member | source | states |
|---|---|---|
| `TimerList.FiredExactly` | 02_skynet/lib/skynet/skynet-src/skynet_timer.c:88-99 | An event added with delay t after u updates is due at update u+t and at no other, behind everything added for that tick before it and before everything added later |
| `TimerList.FiredDuring` | 02_skynet/lib/skynet/skynet-src/skynet_timer.c:165-178 | Events that other threads add while an update dispatches count from the tick of that update, in order; an update with nothing to dispatch never releases the lock |
| `TimerList.LaterBehind` | 02_skynet/lib/skynet/skynet-src/skynet_timer.c:60-65 | What a run adds later for a tick comes behind what was added for it before |
| `TimerList.LoggedUpdate` | 02_skynet/lib/skynet/skynet-src/skynet_timer.c:165-178 | The simple list: an update logs the events due at its tick, in order, and keeps what is due later, with what is added while the lock is free during dispatch |
| `TimerWheel.BlockEnd` | 02_skynet/lib/skynet/skynet-src/skynet_timer.c:67-86 | On the 32-bit clock a pending expiry is never in the block whose last value the clock shows |
| `TimerWheel.SharesBlock` | 02_skynet/lib/skynet/skynet-src/skynet_timer.c:71-85 | Whether a pending expiry shares a block with the clock changes over a tick only when the clock enters a new block, and then it did not share the old one, also when the 32-bit clock wraps |
| `TimerWheel.SourceBlocks` | 02_skynet/lib/skynet/skynet-src/skynet_timer.c:111-132 | For a clock value at a block boundary, the digit of a level is zero exactly when the value is a multiple of the next block |
| `TimerWheel.TickMoves` | 02_skynet/lib/skynet/skynet-src/skynet_timer.c:111-132 | At each tick the slot that timer_shift empties is exactly the set of pending nodes whose place changes, and each goes to its new place; no other node moves |
| `TimerWheel.AfterCascade` | 02_skynet/lib/skynet/skynet-src/skynet_timer.c:101-109 | The slot a cascaded node falls into was empty for that block, so nodes with one expiry stay in the order they were added in, whatever level they entered at |
| `TimerWheel.PickDue` | 02_skynet/lib/skynet/skynet-src/skynet_timer.c:152-163 | The near slot of the clock holds exactly the nodes due now, in the order they were added |
| `TimerWheel.ClockHand` | 02_skynet/lib/skynet/skynet-src/skynet_timer.c:152-158 | A node is in the near slot of the clock exactly when it expires at this tick |
| `TimerWheel.Wheel.constructor` | 02_skynet/lib/skynet/skynet-src/skynet_timer.c:180-202 | A new wheel is valid and empty |
| `TimerWheel.Wheel.Link` | 02_skynet/lib/skynet/skynet-src/skynet_timer.c:60-65 | A node goes to the end of its list and no other list changes |
| `TimerWheel.Wheel.LinkClear` | 02_skynet/lib/skynet/skynet-src/skynet_timer.c:51-58 | A list is emptied and handed over |
| `TimerWheel.Wheel.AddNode` | 02_skynet/lib/skynet/skynet-src/skynet_timer.c:67-86 | The node goes to the end of the slot that its expiry and the clock determine, with the same masks, shifts and levels |
| `TimerWheel.Wheel.FarLevel` | 02_skynet/lib/skynet/skynet-src/skynet_timer.c:74-85 | The mask loop of add_node ends at the level that expiry and clock determine: the lowest whose parent block both share |
| `TimerWheel.Wheel.CascadeFor` | 02_skynet/lib/skynet/skynet-src/skynet_timer.c:111-132 | The loop of timer_shift empties exactly the slot that is due to cascade at the clock value, if any, and adds its nodes again |
| `TimerWheel.Wheel.TimerAdd` | 02_skynet/lib/skynet/skynet-src/skynet_timer.c:88-99 | An event with delay below 2^31 becomes pending for the tick that many updates ahead; the wheel stays exact |
| `TimerWheel.Wheel.MoveList` | 02_skynet/lib/skynet/skynet-src/skynet_timer.c:101-109 | The nodes of a slot are added again, in order |
| `TimerWheel.Wheel.TimerShift` | 02_skynet/lib/skynet/skynet-src/skynet_timer.c:111-132 | The clock goes on by one modulo 2^32, and every slot again holds exactly the pending nodes that belong there |
| `TimerWheel.Wheel.TimerExecute` | 02_skynet/lib/skynet/skynet-src/skynet_timer.c:152-163 | The due nodes are dispatched, once each, in order, including none added meanwhile |
| `TimerWheel.Wheel.TimerUpdate` | 02_skynet/lib/skynet/skynet-src/skynet_timer.c:165-178 | One tick of the wheel does to the pending events what one tick of the simple list does |
| `TimerWheel.Wheel.Run` | 02_skynet/lib/skynet/skynet-src/skynet_timer.c:67-178 | Refinement: any run of additions and updates logs, for the update reaching tick d, exactly the events whose delay ends there, each once, in order of addition |
| `RingQueue.MessageQueue.constructor` | 02_skynet/lib/skynet/skynet-src/skynet_mq.c:77-96 | A new queue is empty and flagged as being in the global queue |
| `RingQueue.MessageQueue.Length` | 02_skynet/lib/skynet/skynet-src/skynet_mq.c:111-125 | The number of messages, in both positions of head and tail |
| `RingQueue.MessageQueue.ExpandQueue` | 02_skynet/lib/skynet/skynet-src/skynet_mq.c:174-187 | Doubling keeps all messages in order |
| `RingQueue.MessageQueue.Push` | 02_skynet/lib/skynet/skynet-src/skynet_mq.c:189-209 | The message goes to the end, across wrap and growth; the queue is listed exactly when it was not flagged |
| `RingQueue.MessageQueue.Pop` | 02_skynet/lib/skynet/skynet-src/skynet_mq.c:137-172 | The oldest message leaves; an empty queue clears its flag and resets the overload threshold |
| `RingQueue.MessageQueue.NoteLength` | 02_skynet/lib/skynet/skynet-src/skynet_mq.c:155-162 | The threshold doubles until the length no longer exceeds it, and the overload is recorded |
| `RingQueue.MessageQueue.TakeOverload` | 02_skynet/lib/skynet/skynet-src/skynet_mq.c:127-135 | An overload is reported once |
| `RingQueue.RaisedThreshold` | 02_skynet/lib/skynet/skynet-src/skynet_mq.c:155-162 | The new threshold is no less than the length and, if it changed, less than twice the length |
| `ServiceProtocol.LaunchInv` | 02_skynet/lib/skynet/skynet-src/skynet_server.c:147-156 | Registering, storing the handle and creating the queue keep the invariant |
| `ServiceProtocol.InitDoneInv` | 02_skynet/lib/skynet/skynet-src/skynet_server.c:160-175 | The end of init and its release keep the invariant |
| `ServiceProtocol.ListLaunchedInv` | 02_skynet/lib/skynet/skynet-src/skynet_server.c:163-171 | Listing a launched queue keeps one holder |
| `ServiceProtocol.RetireFailedInv` | 02_skynet/lib/skynet/skynet-src/skynet_server.c:172-179 | A failed launch that retires its handle keeps the invariant |
| `ServiceProtocol.GrabToSendInv` | 02_skynet/lib/skynet/skynet-src/skynet_server.c:229-234 | Grabbing a registered context keeps the reference count exact |
| `ServiceProtocol.PushMessageInv` | 02_skynet/lib/skynet/skynet-src/skynet_mq.c:189-209 | Pushing a message keeps the token and the reference counts exact |
| `ServiceProtocol.ReleaseSentInv` | 02_skynet/lib/skynet/skynet-src/skynet_server.c:220-227 | A release deletes the context exactly when it was the last reference |
| `ServiceProtocol.RetireInv` | 02_skynet/lib/skynet/skynet-src/skynet_handle.c:75-112 | Retirement takes the table's reference to its one releaser |
| `ServiceProtocol.TakeQueueInv` | 02_skynet/lib/skynet/skynet-src/skynet_mq.c:58-75 | Popping the global queue moves the token to the worker |
| `ServiceProtocol.GrabToDispatchInv` | 02_skynet/lib/skynet/skynet-src/skynet_server.c:297-309 | A worker whose context is gone turns to releasing the queue |
| `ServiceProtocol.PopMessageInv` | 02_skynet/lib/skynet/skynet-src/skynet_server.c:311-320 | Dispatching one message, or finding the queue empty, keeps token and messages |
| `ServiceProtocol.PopOtherInv` | 02_skynet/lib/skynet/skynet-src/skynet_server.c:338-345 | Taking another queue before putting this one back keeps both tokens |
| `ServiceProtocol.PutBackInv` | 02_skynet/lib/skynet/skynet-src/skynet_server.c:338-347 | Putting the queue back keeps one holder |
| `ServiceProtocol.CheckReleaseInv` | 02_skynet/lib/skynet/skynet-src/skynet_mq.c:239-250 | mq_release either drops a released queue or puts it back |
| `ServiceProtocol.DropMessageInv` | 02_skynet/lib/skynet/skynet-src/skynet_mq.c:230-237 | Dropping keeps messages in order |
| `ServiceProtocol.FreeQueueInv` | 02_skynet/lib/skynet/skynet-src/skynet_mq.c:98-104 | A queue is freed by its one holder, when it is empty |
| `ServiceProtocol.DeleteInv` | 02_skynet/lib/skynet/skynet-src/skynet_server.c:207-218 | Deleting a context marks its queue for release and lists it unless it is listed or held |
| `ServiceProtocol.NextInv` | 02_skynet/lib/skynet/skynet-src/skynet_server.c:114-239 | Every step of every activity keeps the whole invariant |
| `ServiceProtocol.SingleDispatcher` | 02_skynet/lib/skynet/skynet-src/skynet_mq.c:43-75 | No two activities ever have one queue in hand, nor is it listed then: no two workers dispatch one service |
| `ServiceProtocol.TokenExact` | 02_skynet/lib/skynet/skynet-src/skynet_mq.c:43-250 | A live queue that is flagged or released is in exactly one place, once on the global list or in one hand; any other queue is in no place and is empty |
| `ServiceProtocol.NotStranded` | 02_skynet/lib/skynet/skynet-src/skynet_server.c:297-352 | A queue with messages is on the global list, once, or in exactly one hand, and not both |
| `ServiceProtocol.Conservation` | 02_skynet/lib/skynet/skynet-src/skynet_server.c:114-239 | Messages pushed are those consumed, then those dropped, then those still queued, each once and in order; dropping only happens to dead contexts; nothing is left in a freed queue |
| `ServiceProtocol.MemorySafe` | 02_skynet/lib/skynet/skynet-src/skynet_mq.c:137-250 | A freed queue is in nobody's hand and on no list; a grabbed or registered context is alive, and so is its queue |
| `ServiceProtocol.SourceAssertions` | 02_skynet/lib/skynet/skynet-src/skynet_mq.c:43-56 | The assertions hold: a queue about to be listed is not listed, release is marked once, a freed queue is not listed |
| `ServiceProtocol.FreedForever` | 02_skynet/lib/skynet/skynet-src/skynet_mq.c:98-104 | Once its queue is freed nothing of a service ever changes: it is freed once and never pushed to or listed again |
| `ServiceDelivery.SendAppends` | 02_skynet/lib/skynet/skynet-src/skynet_mq.c:189-209 | A sender that holds a context goes on by one step: its message goes behind all others of the service, the queue is flagged, and is listed once more exactly if it was not flagged; no other service changes |
| `ServiceDelivery.SentIsKept` | 02_skynet/lib/skynet/skynet-src/skynet_server.c:229-239 | Once its sender has gone on, a message has been pushed, and it is dispatched, dropped or still queued |
| `ServiceDelivery.MessagesOnlyMove` | 02_skynet/lib/skynet/skynet-src/skynet_server.c:297-352 | In no step is a message of any service touched, except that a sender appends one, its worker takes the oldest to dispatch it, or the releaser of its queue drops the oldest |
| `ServiceDelivery.WorkerGrabs` | 02_skynet/lib/skynet/skynet-src/skynet_server.c:306-312 | A worker serves the queue it popped, with a reference to its context, exactly if the context is registered; otherwise it turns to releasing the queue |
| `ServiceDelivery.WorkerServes` | 02_skynet/lib/skynet/skynet-src/skynet_server.c:314-337 | A worker takes the oldest message, at least one and as many as its weight says, or finds the queue empty, clears its flag and lets go of it |
| `ServiceDelivery.ShiftIs` | 02_skynet/lib/skynet/skynet-src/skynet_server.c:321-322 | length >> weight is the length divided by that power of two |
| `ServiceDelivery.WorkerRotates` | 02_skynet/lib/skynet/skynet-src/skynet_server.c:300-351 | A worker takes the first queue listed, and puts the one it had at the end of the list exactly if there was another |
| `ServiceDelivery.QueueIsDisposed` | 02_skynet/lib/skynet/skynet-src/skynet_mq.c:230-250 | A queue not marked for release is listed again; of a marked one the messages are dropped in order, and when none is left it is freed |
| `ServiceDelivery.NewIsRegistered` | 02_skynet/lib/skynet/skynet-src/skynet_server.c:147-156 | A service begins registered, with the references of the table and of its launcher, its queue flagged and empty |
| `ServiceDelivery.OnlyRetired` | 02_skynet/lib/skynet/skynet-src/skynet_handle.c:75-112 | A context leaves the table only by one retirement, which takes the table's reference over, and never comes back |
| `ServiceDelivery.LetsGo` | 02_skynet/lib/skynet/skynet-src/skynet_server.c:220-227 | Letting go of a context takes one reference off, and whoever takes the last deletes the context |
| `ServiceDelivery.LastIsDeleted` | 02_skynet/lib/skynet/skynet-src/skynet_server.c:207-218 | Deleting a context marks its queue for release, and lists it exactly if it was not flagged |
| `ServiceDelivery.CanAlwaysGoOn` | 02_skynet/lib/skynet/skynet-src/skynet_server.c:297-352 | Nothing blocks: an unfinished activity has a next step in every state of every run |
| `TcpSocket.PutWhole` | 02_skynet/lib/skynet/skynet-src/socket_server.c:726-756 | Writing bytes keeps the peer's view as whole packets and a prefix of one, unless the write begins a packet inside another or goes on with the wrong one |
| `TcpSocket.SendListOk` | 02_skynet/lib/skynet/skynet-src/socket_server.c:726-756 | send_list_tcp under any sequence of partial, interrupted, blocked and failed writes tears nothing, leaves only its head begun, and counts what it wrote |
| `TcpSocket.HighSent` | 02_skynet/lib/skynet/skynet-src/socket_server.c:873-884 | Sending the high list keeps the socket in order |
| `TcpSocket.LowSent` | 02_skynet/lib/skynet/skynet-src/socket_server.c:885-902 | The low list is only left begun when a write stopped inside its head, and raise_uncomplete then restores order |
| `TcpSocket.SendLowOk` | 02_skynet/lib/skynet/skynet-src/socket_server.c:885-931 | The second half of send_buffer_ keeps the socket in order or force-closes it |
| `TcpSocket.SendListsOk` | 02_skynet/lib/skynet/skynet-src/socket_server.c:872-931 | send_buffer_ keeps an open socket in order, or force-closes it |
| `TcpSocket.SendAssertions` | 02_skynet/lib/skynet/skynet-src/socket_server.c:872-931 | The assertions of send_buffer_ and raise_uncomplete hold: the low list is not begun, the high list is empty when the low head is raised, wb_size is 0 when both lists are |
| `TcpSocket.TakeDirectOk` | 02_skynet/lib/skynet/skynet-src/socket_server.c:933-959 | The direct-write remainder goes to the head of the high list with its bytes counted |
| `TcpSocket.SendBufferOk` | 02_skynet/lib/skynet/skynet-src/socket_server.c:933-959 | send_buffer keeps the socket in order |
| `TcpSocket.SendSocketOk` | 02_skynet/lib/skynet/skynet-src/socket_server.c:1020-1090 | Taking or refusing a package keeps the socket in order, its bytes counted in wb_size |
| `TcpSocketThread.Slot.ForceCloseNow` | 02_skynet/lib/skynet/skynet-src/socket_server.c:490-521 | The slot ends invalid with empty buffers; nothing more is sent or reported |
| `TcpSocketThread.Slot.CloseWriteEnd` | 02_skynet/lib/skynet/skynet-src/socket_server.c:703-724 | The write end ends closed, with an error event or with the whole slot; buffers and reported events stay in order |
| `TcpSocketThread.Slot.SendListTcp` | 02_skynet/lib/skynet/skynet-src/socket_server.c:726-756 | The write loop computes SendList, on list, wire, wb_size and unused system call results |
| `TcpSocketThread.Slot.RaiseUncompleteNow` | 02_skynet/lib/skynet/skynet-src/socket_server.c:842-857 | No buffer is lost or moved behind another, and a slot that stopped inside the low head is in order again |
| `TcpSocketThread.Slot.SendBufferLists` | 02_skynet/lib/skynet/skynet-src/socket_server.c:872-931 | The imperative send_buffer_ computes SendLists |
| `TcpSocketThread.Slot.SendBufferNow` | 02_skynet/lib/skynet/skynet-src/socket_server.c:933-959 | The imperative send_buffer computes SendBuffer |
| `TcpSocketThread.Slot.SendSocketNow` | 02_skynet/lib/skynet/skynet-src/socket_server.c:1020-1090 | A package is refused exactly on a socket that is invalid, half closed for writing, not yet started or closing; else it goes to the end of the high list if it is of high priority or nothing waits, and to the end of the low list otherwise; nothing else moves |
| `TcpSocketThread.Slot.CloseSocketNow` | 02_skynet/lib/skynet/skynet-src/socket_server.c:1162-1189 | SOCKET_CLOSE is reported once at most, and has been unless a force close is to follow; the slot stays in order, or its lists are empty |
| `TcpSocketThread.Slot.ForwardMessageTcp` | 02_skynet/lib/skynet/skynet-src/socket_server.c:1461-1521 | Data read is reported unless the socket is half closed for reading; the end of the stream raises SOCKET_CLOSE once, at once or with a force_close; a failed read raises an error; the slot stays in order, or its lists are empty |
| `TcpProtocol.BeginInv` | 02_skynet/lib/skynet/skynet-src/socket_server.c:1874-1880 | A send that begins takes the next place in its thread's line |
| `TcpProtocol.CheckInv` | 02_skynet/lib/skynet/skynet-src/socket_server.c:1868-1871 | Each unlocked or locked read of can_direct_write, at a moment of its own, keeps the invariant |
| `TcpProtocol.WriteInv` | 02_skynet/lib/skynet/skynet-src/socket_server.c:1895-1928 | A direct write, whole, partial or failed, keeps wire, line and side buffer consistent |
| `TcpProtocol.CountSendingInv` | 02_skynet/lib/skynet/skynet-src/socket_server.c:1365-1385 | inc_sending_ref keeps the in-flight count exact |
| `TcpProtocol.RequestSendInv` | 02_skynet/lib/skynet/skynet-src/socket_server.c:1930-1943 | A request through the pipe keeps the order of its sender |
| `TcpProtocol.UncountPositive` | 02_skynet/lib/skynet/skynet-src/socket_server.c:1387-1395 | dec_sending_ref never finds the count at zero |
| `TcpProtocol.TakeSendInv` | 02_skynet/lib/skynet/skynet-src/socket_server.c:1020-1090 | Taking a send request keeps the invariant |
| `TcpProtocol.TakeInvalidInv` | 02_skynet/lib/skynet/skynet-src/socket_server.c:1023-1031 | Requests for a closed socket are dropped without effect |
| `TcpProtocol.FinishCloseInv` | 02_skynet/lib/skynet/skynet-src/socket_server.c:505-521 | The second half of force_close, under the lock, keeps the invariant |
| `TcpProtocol.SendBufferInv` | 02_skynet/lib/skynet/skynet-src/socket_server.c:933-959 | A writable event keeps the invariant |
| `TcpProtocol.ControlInv` | 02_skynet/lib/skynet/skynet-src/socket_server.c:1973-1990 | Close, shutdown, pause and resume requests keep the invariant |
| `TcpProtocol.NextInv` | 02_skynet/lib/skynet/skynet-src/socket_server.c:1707-1944 | Every step of senders and socket thread keeps the whole invariant |
| `TcpProtocol.CloseOnce` | 02_skynet/lib/skynet/skynet-src/socket_server.c:490-521 | Over any run SOCKET_CLOSE is raised at most once and no SOCKET_DATA follows it, whichever of local close, end of file, hang-up or write error comes first |
| `TcpProtocol.SenderOrder` | 02_skynet/lib/skynet/skynet-src/socket_server.c:1874-1944 | One thread's high-priority packets reach the peer in the order sent, whether written directly or queued |
| `TcpProtocol.WbSizeExact` | 02_skynet/lib/skynet/skynet-src/socket_server.c:872-1090 | wb_size is what both lists still have to send, and the low list is never left begun |
| `TcpProtocol.AssertionsHold` | 02_skynet/lib/skynet/skynet-src/socket_server.c:872-931 | At every writable event of every run the assertions of send_buffer_ and raise_uncomplete hold, whatever the system calls return |
| `TcpProtocol.WholeUnlessCutIn` | 02_skynet/lib/skynet/skynet-src/socket_server.c:490-521 | Bytes received are whole packets and a prefix of at most one, if and only if no direct write of a byte came between the two halves of a force_close that had freed a begun packet |
| `TcpProtocol.TornIsReachable` | 02_skynet/lib/skynet/skynet-src/socket_server.c:505-507 | A concrete run after which the bytes received are not whole packets and a prefix: the exception above does occur |
| `TcpDelivery.SendBufferPlaces` | 02_skynet/lib/skynet/skynet-src/socket_server.c:872-954 | A writable event loses no packet and makes none: packets only pass from the buffers to those finished |
| `TcpDelivery.AcceptedIsKept` | 02_skynet/lib/skynet/skynet-src/socket_server.c:1020-1090 | While the lists are not freed, what the socket has accepted in a run, at either priority and whether queued or written directly, is finished or in a list or in the direct-write buffer, each packet once |
| `TcpDelivery.EachIsKept` | 02_skynet/lib/skynet/skynet-src/socket_server.c:1020-1090 | In particular each accepted packet is finished, or in one of the buffers |
| `TcpDelivery.NeverForgotten` | 02_skynet/lib/skynet/skynet-src/socket_server.c:1875-1975 | A packet that a thread has begun to send stays in its hand or in the pipe until it is written directly or the socket thread takes it |
| `TcpDelivery.SendersGoOn` | 02_skynet/lib/skynet/skynet-src/socket_server.c:1875-1975 | A sender in the middle of a send can go on unless the sending count is full, and a force_close waits for nothing but a sender that can go on |
| `TcpDraining.SendListBytes` | 02_skynet/lib/skynet/skynet-src/socket_server.c:726-757 | Written and waiting bytes together stay the same, in order, and the count is that of the bytes written |
| `TcpDraining.ShortWrite` | 02_skynet/lib/skynet/skynet-src/socket_server.c:726-757 | A short write takes just what the call took, and ends the attempt |
| `TcpDraining.SendListDrains` | 02_skynet/lib/skynet/skynet-src/socket_server.c:726-757 | Calls that take everything finish all packets of the list in order |
| `TcpDraining.SendBufferDrains` | 02_skynet/lib/skynet/skynet-src/socket_server.c:872-954 | When the peer takes everything, one writable event finishes the direct-write packet, the high list and the low list, in this order; a closing socket is then closed |
| `TcpReading.DataIsReported` | 02_skynet/lib/skynet/skynet-src/socket_server.c:1461-1521 | Over any run the SOCKET_DATA events carry, in order, exactly the bytes read while the socket was not half closed for reading |
| `TcpReading.EndIsReported` | 02_skynet/lib/skynet/skynet-src/socket_server.c:1481-1502 | The end of the stream on a socket that is not closing raises SOCKET_CLOSE, at once or when the lock is taken; a failed read raises an error |
| `TcpReading.EveryRunReads` | 02_skynet/lib/skynet/skynet-src/socket_server.c:1461-1521 | Every run is one with a result for each of its read calls |
| `Sunnet.PushOk` | 05_C++_concurrency/src/Service.cpp:11-17 | PushMsg keeps what is known of the service |
| `Sunnet.CheckOk` | 05_C++_concurrency/src/Sunnet.cpp:96-104 | The in_global check of Send keeps the token |
| `Sunnet.EnqueueOk` | 05_C++_concurrency/src/Sunnet.cpp:125-131 | PushGlobalQueue, from either caller, makes one listing |
| `Sunnet.TakeMsgOk` | 05_C++_concurrency/src/Service.cpp:19-30 | PopMsg takes the oldest message |
| `Sunnet.CheckExitOk` | 05_C++_concurrency/src/Worker.cpp:23-26 | A worker that sees is_exit gives the token up |
| `Sunnet.PutBackOk` | 05_C++_concurrency/src/Worker.cpp:27-30 | The emptiness test under the message lock keeps the invariant |
| `Sunnet.ClearOk` | 05_C++_concurrency/src/Service.cpp:75-80 | Clearing in_global gives the token up exactly when no message is there |
| `Sunnet.StepInv` | 05_C++_concurrency/src/Sunnet.cpp:84-131 | Every step of every thread keeps the whole invariant |
| `Sunnet.NewServiceInv` | 05_C++_concurrency/src/Sunnet.cpp:42-53 | A new service starts without token |
| `Sunnet.TokenOnce` | 05_C++_concurrency/src/Sunnet.cpp:112-131 | Counted over the global queue and the workers between pop and put-back, any service occurs at most once |
| `Sunnet.SingleWorker` | 05_C++_concurrency/src/Worker.cpp:9-21 | Two workers never have one service, and a service a worker has is not listed |
| `Sunnet.PendingIsServed` | 05_C++_concurrency/src/Sunnet.cpp:84-110 | A live service with messages is listed, or with a worker, or some sender has yet to finish its in_global check |
| `Sunnet.FlagMeansToken` | 05_C++_concurrency/src/Worker.cpp:23-35 | With its mutex free, in_global of a live service is set if and only if the service is listed or with a worker |
| `Sunnet.MessagesInOrder` | 05_C++_concurrency/src/Service.cpp:11-30 | Messages are popped once each, in the order pushed |
| `Sunnet.LengthExact` | 05_C++_concurrency/src/Sunnet.cpp:112-131 | global_queue_len is the length of the global queue whenever its mutex is free |
| `Sunnet.NoDeadlock` | 05_C++_concurrency/src/Worker.cpp:23-35 | The three nested mutexes never deadlock: while a thread is unfinished some thread can go on |
| `SunnetCalls.SendAppends` | 05_C++_concurrency/src/Sunnet.cpp:84-110 | A Send that has returned has put its message behind the others of its service, unless the service was not in the table |
| `SunnetCalls.WorkerDecides` | 05_C++_concurrency/src/Worker.cpp:9-34 | A worker takes the first service listed and its oldest messages, each_num at most, and puts it back if messages are left, unless it is dying |
| `SunnetCalls.KillMarks` | 05_C++_concurrency/src/Sunnet.cpp:56-69 | KillService makes a service that is in the table exit, and takes it out of the table |
| `Serializer.PackableIff` | 02_skynet/lib/skynet/lualib-src/lua-seri.c:303-350 | Packing succeeds if and only if the value has only supported types and nests tables at most to MAX_DEPTH |
| `Serializer.IntegerTrip` | 02_skynet/lib/skynet/lualib-src/lua-seri.c:142-174 | Every 64-bit integer, in each of its six widths, is read back |
| `Serializer.StringTrip` | 02_skynet/lib/skynet/lualib-src/lua-seri.c:190-213 | Strings with short, 16-bit and 32-bit lengths are read back |
| `Serializer.AtomTrip` | 02_skynet/lib/skynet/lualib-src/lua-seri.c:477-542 | Booleans, integers, reals, pointers and strings are read back, whatever follows them |
| `Serializer.HeadTrip` | 02_skynet/lib/skynet/lualib-src/lua-seri.c:217-227 | The table tag gives back the array size, also past MAX_COOKIE - 1 |
| `Serializer.ArrayTrip` | 02_skynet/lib/skynet/lualib-src/lua-seri.c:444-465 | The array part unpacks to its elements, nils included |
| `Serializer.HashTrip` | 02_skynet/lib/skynet/lualib-src/lua-seri.c:239-257 | The hash part, without the keys the array part has, unpacks to its pairs and stops at its nil |
| `Serializer.Rebuilt` | 02_skynet/lib/skynet/lualib-src/lua-seri.c:466-474 | Setting array elements and then the other pairs builds the same table as a map, whatever its border and the order of lua_next |
| `Serializer.RoundTrip` | 02_skynet/lib/skynet/lualib-src/lua-seri.c:303-350 | Unpacking a packed value, whatever follows it, gives its content and leaves what follows |
| `Serializer.AllRoundTrip` | 02_skynet/lib/skynet/lualib-src/lua-seri.c:352-359 | A list of values packed together unpacks to their contents |
| `Serializer.NumberBytes` | 02_skynet/lib/skynet/lualib-src/lua-seri.c:369-410 | Little-endian bytes of any width give the number back |
| `Serializer.BytesAt` | 02_skynet/lib/skynet/lualib-src/lua-seri.c:151-176 | Byte i of a number is its i-th digit to the base 256 |
| `Serializer.IntegerBytes` | 02_skynet/lib/skynet/lualib-src/lua-seri.c:143-177 | The bytes of every 64-bit integer: its first byte for its width, then the number in as many bytes, in two's complement if negative |
| `Serializer.AtomBytes` | 02_skynet/lib/skynet/lualib-src/lua-seri.c:136-219 | The bytes of booleans, reals, pointers, and strings of each length form |
| `Serializer.HeadBytes` | 02_skynet/lib/skynet/lualib-src/lua-seri.c:223-233 | The first byte of a table holds its array size below 31, else the size follows as an integer |
| `Serializer.TableBytes` | 02_skynet/lib/skynet/lualib-src/lua-seri.c:223-266 | A table has its head in front and the byte of nil at its end |
| `SerializerBuffers.WriteBlock.Push` | 02_skynet/lib/skynet/lualib-src/lua-seri.c:65-85 | Bytes are appended across any number of 128-byte blocks |
| `SerializerBuffers.WriteBlock.Seri` | 02_skynet/lib/skynet/lualib-src/lua-seri.c:544-563 | The blocks are copied into one buffer of exactly the bytes written |
| `SerializerBuffers.WriteBlock.WbInteger` | 02_skynet/lib/skynet/lualib-src/lua-seri.c:142-174 | Writes PackInteger |
| `SerializerBuffers.WriteBlock.WbString` | 02_skynet/lib/skynet/lualib-src/lua-seri.c:190-213 | Writes PackString |
| `SerializerBuffers.WriteBlock.PackOne` | 02_skynet/lib/skynet/lualib-src/lua-seri.c:303-350 | Writes Pack, or fails with its error |
| `SerializerBuffers.WriteBlock.WbTableArray` | 02_skynet/lib/skynet/lualib-src/lua-seri.c:217-237 | Writes the array part |
| `SerializerBuffers.WriteBlock.WbTableHash` | 02_skynet/lib/skynet/lualib-src/lua-seri.c:239-257 | Writes the other pairs and the final nil |
| `SerializerBuffers.ReadBlock.RbRead` | 02_skynet/lib/skynet/lualib-src/lua-seri.c:118-128 | Takes bytes from the front, or fails when there are too few |
| `SerializerBuffers.ReadBlock.ReadInteger` | 02_skynet/lib/skynet/lualib-src/lua-seri.c:369-410 | Computes GetInteger |
| `SerializerBuffers.ReadBlock.ReadSingle` | 02_skynet/lib/skynet/lualib-src/lua-seri.c:477-531 | Computes GetSingle |
| `SerializerBuffers.ReadBlock.ReadTable` | 02_skynet/lib/skynet/lualib-src/lua-seri.c:444-475 | Computes UnpackTable |
| `SerializerBuffers.ReadBlock.UnpackOne` | 02_skynet/lib/skynet/lualib-src/lua-seri.c:533-542 | Computes Unpack |
| `SerializerBuffers.LuaSeriPack` | 02_skynet/lib/skynet/lualib-src/lua-seri.c:609-622 | The whole of packing computes PackAll |
| `SerializerBuffers.LuaSeriUnpack` | 02_skynet/lib/skynet/lualib-src/lua-seri.c:565-607 | The whole of unpacking computes UnpackAll |
| `Framing.ParseSplit` | 02_skynet/lib/skynet/lualib-src/lua-netpack.c:189-216 | Parsing a stream in two parts, the second behind what the first left, is parsing it whole |
| `Framing.ChunksDoNotMatter` | 02_skynet/lib/skynet/lualib-src/lua-netpack.c:228-308 | For any cutting of a stream into chunks, packages and remainder are those of the whole stream |
| `Framing.ParsePacked` | 02_skynet/lib/skynet/lualib-src/lua-netpack.c:434-456 | A stream of packed messages parses to the messages and leaves nothing |
| `Framing.PackedBytes` | 02_skynet/lib/skynet/lualib-src/lua-netpack.c:434-456 | A packed message is its length in two bytes, most significant first, and its data; longer than 65535 it is refused |
| `Framing.PackedTravels` | 02_skynet/lib/skynet/lualib-src/lua-netpack.c:440-456 | Any chunks that packed messages travel in give back the messages |
| `Framing.RestIsPartial` | 02_skynet/lib/skynet/lualib-src/lua-netpack.c:201-208 | What is left never contains a whole package |
| `Netpack.Unlinked` | 02_skynet/lib/skynet/lualib-src/lua-netpack.c:93-115 | Taking a node out of its bucket leaves the other streams of the bucket as they were |
| `Netpack.Linked` | 02_skynet/lib/skynet/lualib-src/lua-netpack.c:170-181 | A node put into its bucket is found there, and no other stream is affected |
| `Netpack.Queue.FindUncomplete` | 02_skynet/lib/skynet/lualib-src/lua-netpack.c:93-115 | Takes what is saved of a stream, and nothing of another with the same hash |
| `Netpack.Queue.ExpandQueue` | 02_skynet/lib/skynet/lualib-src/lua-netpack.c:134-149 | Growing keeps the queued packages in order |
| `Netpack.Queue.PushData` | 02_skynet/lib/skynet/lualib-src/lua-netpack.c:151-168 | The package goes to the end of the ring, also when that fills it |
| `Netpack.Queue.Pop` | 02_skynet/lib/skynet/lualib-src/lua-netpack.c:400-414 | The oldest package leaves |
| `Netpack.Queue.PushMore` | 02_skynet/lib/skynet/lualib-src/lua-netpack.c:189-216 | Queues all whole packages of the rest of a chunk and saves what remains |
| `Netpack.Queue.FilterData` | 02_skynet/lib/skynet/lualib-src/lua-netpack.c:228-308 | With what was saved of the stream, a chunk yields exactly the packages of the parse: one that ends the chunk directly, others through the queue; what is left is saved; other streams keep theirs |
| `Netpack.Queue.CloseUncomplete` | 02_skynet/lib/skynet/lualib-src/lua-netpack.c:218-226 | A closed stream has nothing saved |
| `Netpack.ReaderParses` | 02_skynet/lib/skynet/lualib-src/lua-netpack.c:228-308 | Until it is closed, a stream delivers the parse of all its bytes, whatever chunks and whatever other streams came between |
| `Netpack.ReaderRestarts` | 02_skynet/lib/skynet/lualib-src/lua-netpack.c:363-368 | A closed stream starts anew |
| `Netpack.Drain` | 02_skynet/lib/skynet/lualib-src/lua-netpack.c:400-414 | Popping until nothing is left gives all queued packages in order |
| `Netpack.Run` | 02_skynet/lib/skynet/lualib-src/lua-netpack.c:310-317 | Any run of chunks and closes delivers, for each stream, exactly its packages in order |
| `Sharedata.HashKeysAre` | 02_skynet/lib/skynet/lualib-src/lua-sharedata.c:67-89 | The hash part has room for exactly the keys that are not in the array part |
| `Sharedata.FirstChained` | 02_skynet/lib/skynet/lualib-src/lua-sharedata.c:212-235 | After the first pass every slot that keys hash to heads a chain of its own |
| `Sharedata.BehindChained` | 02_skynet/lib/skynet/lualib-src/lua-sharedata.c:261-267 | Putting a colliding key behind its main position keeps all chains acyclic, complete and separate |
| `Sharedata.NotPresent` | 02_skynet/lib/skynet/lualib-src/lua-sharedata.c:249-251 | A key that is not at its main position in the second pass is nowhere yet |
| `Sharedata.RoomLeft` | 02_skynet/lib/skynet/lualib-src/lua-sharedata.c:252-260 | While a key is missing some slot is empty: the assertion never fails |
| `Sharedata.Inserted` | 02_skynet/lib/skynet/lualib-src/lua-sharedata.c:237-273 | One insertion of the second pass keeps its invariant |
| `Sharedata.AllUsed` | 02_skynet/lib/skynet/lualib-src/lua-sharedata.c:278-324 | After both passes every slot is used |
| `Sharedata.Table.CountSize` | 02_skynet/lib/skynet/lualib-src/lua-sharedata.c:67-89 | Counts the keys outside the array part |
| `Sharedata.Table.FillNoColliding` | 02_skynet/lib/skynet/lualib-src/lua-sharedata.c:212-235 | First pass: the whole array part, and one key for each slot that keys hash to |
| `Sharedata.Table.EmptySlot` | 02_skynet/lib/skynet/lualib-src/lua-sharedata.c:252-260 | The search for an empty slot succeeds, and leaves no empty slot behind it |
| `Sharedata.Table.PutBehind` | 02_skynet/lib/skynet/lualib-src/lua-sharedata.c:250-269 | A colliding key is entered behind its main position |
| `Sharedata.Table.FillColliding` | 02_skynet/lib/skynet/lualib-src/lua-sharedata.c:237-273 | Second pass: every key of the source is in its chain |
| `Sharedata.Table.Convert` | 02_skynet/lib/skynet/lualib-src/lua-sharedata.c:277-327 | The copy of a table is complete: array part, all slots used, each key once, chains linked |
| `Sharedata.Table.LookupKey` | 02_skynet/lib/skynet/lualib-src/lua-sharedata.c:503-532 | Finds the slot of a key if it has one, and nothing for any other key, in at most a walk of one chain |
| `Sharedata.Table.IndexConf` | 02_skynet/lib/skynet/lualib-src/lua-sharedata.c:534-568 | The copy answers every key as the source table does |
| `Sharedata.Table.IndexInteger` | 02_skynet/lib/skynet/lualib-src/lua-sharedata.c:543-555 | A lua_Integer is looked up as the int that is left of it, and when that is what the source answers |
| `Sharedata.IntegerLookupExact` | 02_skynet/lib/skynet/lualib-src/lua-sharedata.c:543-555 | That is right if and only if the integer fits an int or the source has no entry for the int that is left of it |
| `Sharedata.IntegerLookupFails` | 02_skynet/lib/skynet/lualib-src/lua-sharedata.c:543-555 | A table with the key 1 alone answers for 2^32 + 1 |
| `Sharedata.Table.NextKey` | 02_skynet/lib/skynet/lualib-src/lua-sharedata.c:591-648 | Gives the next key of the array part, then of the slots, in order |
| `Sharedata.Table.AllKeys` | 02_skynet/lib/skynet/lualib-src/lua-sharedata.c:591-648 | Iterating visits every key of the source exactly once |
| `Sha1Spec.PadLength` | 02_skynet/lib/skynet/lualib-src/lsha1.c:228-232 | The padded message is made of whole blocks |
| `Sha1Code.SwappedIsBigEndian` | 02_skynet/lib/skynet/lualib-src/lsha1.c:109-110 | blk0 reads a word most significant byte first |
| `Sha1Code.MacrosAreFunctions` | 02_skynet/lib/skynet/lualib-src/lsha1.c:116-120 | The bit formulas of R0, R1 and R3 are Ch and Maj |
| `Sha1Code.BlkIsW` | 02_skynet/lib/skynet/lualib-src/lsha1.c:111-113 | The circular 16-word schedule yields the 80 words of section 6.1.2 of FIPS 180-4 |
| `Sha1Code.Renamed` | 02_skynet/lib/skynet/lualib-src/lsha1.c:142-162 | Rotating the register names is moving the registers |
| `Sha1Code.AllRounds` | 02_skynet/lib/skynet/lualib-src/lsha1.c:142-162 | The 80 macro calls compute the 80 rounds of the standard |
| `Sha1Code.Transform` | 02_skynet/lib/skynet/lualib-src/lsha1.c:123-173 | The hash value after a block is that of the standard |
| `Sha1Stream.HighRightIff` | 02_skynet/lib/skynet/lualib-src/lsha1.c:199-200 | The 64-bit bit count stays right if and only if the piece is short or the real sum carries too |
| `Sha1Stream.Context.Update` | 02_skynet/lib/skynet/lualib-src/lsha1.c:189-215 | Adds a piece of any size to the message taken in |
| `Sha1Stream.Context.FinalCount` | 02_skynet/lib/skynet/lualib-src/lsha1.c:224-227 | The eight bytes of the recorded count, most significant first |
| `Sha1Stream.Context.Final` | 02_skynet/lib/skynet/lualib-src/lsha1.c:218-244 | The digest is that of the message, padded as in section 5.1.1 of FIPS 180-4 but with the recorded count |
| `Sha1Stream.ZerosLeft` | 02_skynet/lib/skynet/lualib-src/lsha1.c:229-231 | The loop adds exactly the zero bytes of the standard's padding |
| `Sha1Stream.DigestPieces` | 02_skynet/lib/skynet/lualib-src/lsha1.c:189-244 | Pieces of under 2^29 bytes, however cut, give the SHA-1 of the message they make |
| `Sha1Stream.LuaSha1` | 02_skynet/lib/skynet/lualib-src/lsha1.c:249-260 | A text hashed at once gets the digest with the count that is recorded for it |
| `Sha1Stream.RecordedIs` | 02_skynet/lib/skynet/lualib-src/lsha1.c:199-200 | The recorded count is the length in bits below 2^29 bytes and 2^32 too much from there on |
| `Sha1Stream.LuaSha1Right` | 02_skynet/lib/skynet/lualib-src/lsha1.c:249-260 | lsha1 is SHA-1 for every text below 2^29 bytes |
| `Des.PermutationsUndo` | 02_skynet/lib/skynet/lualib-src/lua-crypt.c:208-230 | DES_FP undoes DES_IP and the other way round |
| `Des.RoundsUndo` | 02_skynet/lib/skynet/lualib-src/lua-crypt.c:329-336 | Rounds in reverse order take back the rounds, for any round function |
| `Des.ReversedRounds` | 02_skynet/lib/skynet/lualib-src/lua-crypt.c:493-496 | The reversed schedule has the subkey pairs in reverse order |
| `Des.CryptUndoes` | 02_skynet/lib/skynet/lualib-src/lua-crypt.c:320-342 | With the reversed schedule des_crypt takes back what it did, for any S-boxes and subkeys |
| `DesStandard.InitialAt` | 02_skynet/lib/skynet/lualib-src/lua-crypt.c:208-217 | DES_IP takes each bit from the position that the table IP of FIPS 46-3 says, apart from a rotation by one bit that is kept |
| `DesStandard.FinalAt` | 02_skynet/lib/skynet/lualib-src/lua-crypt.c:221-230 | DES_FP takes each bit from the position that the inverse table says |
| `DesStandard.LoadBit` | 02_skynet/lib/skynet/lualib-src/lua-crypt.c:190-196 | GET_UINT32 takes the bits of a block in order |
| `DesStandard.MixIsFeistel` | 02_skynet/lib/skynet/lualib-src/lua-crypt.c:234-247 | DES_ROUND looks table j up for the j-th group of six bits, each a bit of the half at its place in the table E with a bit of the subkey, and adds all eight |
| `DesStandard.CryptIsStandard` | 02_skynet/lib/skynet/lualib-src/lua-crypt.c:320-342 | The output of des_crypt is the inverse permutation of the crossed last of seventeen states, the first being the permuted input and each the next round of the one before, with the sixteen subkey pairs in order |
| `DesStandard.DesIsStandard` | 02_skynet/lib/skynet/lualib-src/lua-crypt.c:320-342 | The same with the tables: FIPS 46-3 with any contents of the eight tables |
| `Des.DesUndoes` | 02_skynet/lib/skynet/lualib-src/lua-crypt.c:234-247 | So does the mixing of DES_ROUND with any eight tables |
| `DesText.RemoveIso` | 02_skynet/lib/skynet/lualib-src/lua-crypt.c:385-400 | Finds the ISO 7816-4 padding of a text exactly when there is one |
| `DesText.RemovePkcs7` | 02_skynet/lib/skynet/lualib-src/lua-crypt.c:408-418 | Finds the PKCS #7 padding (section 6.3 of RFC 5652) exactly when there is one |
| `DesText.DecodedIff` | 02_skynet/lib/skynet/lualib-src/lua-crypt.c:461-517 | A code decodes to a text if and only if it is the code of that text, for every key and both paddings |
| `DesText.PaddedBytes` | 02_skynet/lib/skynet/lualib-src/lua-crypt.c:379-409 | A padded text is the text, then 0x80 and zeros, or bytes that all are their number |
| `DesText.CryptedBlock` | 02_skynet/lib/skynet/lualib-src/lua-crypt.c:461-485 | Block i of a code is des_crypt of block i of the padded text |
| `DesText.LuaDesEncode` | 02_skynet/lib/skynet/lualib-src/lua-crypt.c:461-485 | Errors for a bad key size or mode, else the code of the padded text |
| `DesText.LuaDesDecode` | 02_skynet/lib/skynet/lualib-src/lua-crypt.c:487-517 | Errors for a bad key size, length, mode or padding, else the decoded text |
| `DesText.ReverseSchedule` | 02_skynet/lib/skynet/lualib-src/lua-crypt.c:491-496 | Computes the reversed schedule |
| `DiffieHellman.MulModP` | 02_skynet/lib/skynet/lualib-src/lua-crypt.c:795-815 | Returns a*b mod P with wrapping 64-bit steps, for a up to P and every b |
| `DiffieHellman.PowModP` | 02_skynet/lib/skynet/lualib-src/lua-crypt.c:817-828 | Ends, with a value that is a^b modulo P |
| `DiffieHellman.PowModp` | 02_skynet/lib/skynet/lualib-src/lua-crypt.c:830-836 | Returns a^b mod P if and only if it is not asked for P to the power of one, which stays P |
| `DiffieHellman.Exchange` | 02_skynet/lib/skynet/lualib-src/lua-crypt.c:870-888 | Refuses zero, else 5^x mod P |
| `DiffieHellman.Secret` | 02_skynet/lib/skynet/lualib-src/lua-crypt.c:853-866 | Refuses zeros, else the power |
| `DiffieHellman.NeverZero` | 02_skynet/lib/skynet/lualib-src/lua-crypt.c:877-886 | An exchange value is never zero, so the other side never refuses it |
| `DiffieHellman.Agree` | 02_skynet/lib/skynet/lualib-src/lua-crypt.c:853-888 | Both sides of an exchange with non-zero 64-bit exponents come to the same secret |
| `HandleTable.Handles.FreeHandle` | 02_skynet/lib/skynet/skynet-src/skynet_handle.c:41-58 | Finds a handle with a free slot unless all slots are taken, except perhaps that of the reserved handle 0, also when handles wrap |
| `HandleTable.Handles.MoveOne` | 02_skynet/lib/skynet/skynet-src/skynet_handle.c:62-68 | A live handle rehashes to a free slot: the assertion never fails |
| `HandleTable.Handles.Grow` | 02_skynet/lib/skynet/skynet-src/skynet_handle.c:60-71 | Doubling keeps every live handle |
| `HandleTable.Handles.Register` | 02_skynet/lib/skynet/skynet-src/skynet_handle.c:34-73 | Gives a handle that no live context has, in 1 to HANDLE_MASK beside the harbor; fails only when every handle is live |
| `HandleTable.Handles.Retire` | 02_skynet/lib/skynet/skynet-src/skynet_handle.c:75-112 | Succeeds exactly for live handles, and takes away only that one |
| `HandleTable.Handles.Grab` | 02_skynet/lib/skynet/skynet-src/skynet_handle.c:138-155 | Finds a context exactly for live handles |
| `HandleNames.InsertedIs` | 02_skynet/lib/skynet/skynet-src/skynet_handle.c:213-235 | A new name at the place the search ended keeps the array sorted and adds one name to the map |
| `HandleNames.WithoutMap` | 02_skynet/lib/skynet/skynet-src/skynet_handle.c:88-99 | Closing the array up takes away exactly the names of the handle |
| `HandleNames.Names.Search` | 02_skynet/lib/skynet/skynet-src/skynet_handle.c:213-229 | Halving finds the name, or the one place where it goes |
| `HandleNames.Names.FindName` | 02_skynet/lib/skynet/skynet-src/skynet_handle.c:157-185 | Agrees with the map of names, 0 for none |
| `HandleNames.Names.InsertName` | 02_skynet/lib/skynet/skynet-src/skynet_handle.c:213-235 | Adds a new name to the map, and refuses one that is there |
| `HandleNames.Names.InsertBefore` | 02_skynet/lib/skynet/skynet-src/skynet_handle.c:187-211 | Inserts at the place, with room or with a bigger array |
| `HandleNames.Names.RemoveHandle` | 02_skynet/lib/skynet/skynet-src/skynet_handle.c:85-99 | Removes exactly the names of a retired handle |
| `StmProtocol.ReadLockOk` | 02_skynet/lib/skynet/skynet-src/rwlock.h:19-30 | Each step of a reader, with its back-off, keeps the lock's counts exact |
| `StmProtocol.WriteLockOk` | 02_skynet/lib/skynet/skynet-src/rwlock.h:32-46 | Each step of a writer keeps the lock's counts exact |
| `StmProtocol.ReadCopyOk` | 02_skynet/lib/skynet/lualib-src/lua-stm.c:93-104 | Loading, grabbing and comparing a copy keep its counter exact |
| `StmProtocol.UpdateCopyOk` | 02_skynet/lib/skynet/lualib-src/lua-stm.c:106-115 | Swapping the copy moves references without changing counters |
| `StmProtocol.ReleaseCopyOk` | 02_skynet/lib/skynet/lualib-src/lua-stm.c:57-71 | stm_release counts its copy down before it clears the pointer, safely under the lock |
| `StmProtocol.DropCopyOk` | 02_skynet/lib/skynet/lualib-src/lua-stm.c:47-55 | stm_releasecopy frees exactly at the last reference |
| `StmProtocol.NextInv` | 02_skynet/lib/skynet/lualib-src/lua-stm.c:27-115 | Every step of every thread keeps the whole invariant |
| `StmProtocol.Exclusion` | 02_skynet/lib/skynet/skynet-src/rwlock.h:13-46 | A writer inside excludes all readers and all other writers, for any number of threads |
| `StmProtocol.CountedUnderWriter` | 02_skynet/lib/skynet/skynet-src/rwlock.h:20-29 | The second look at write is needed: a run in which a reader is counted in while a writer is inside |
| `StmProtocol.CounterExact` | 02_skynet/lib/skynet/lualib-src/lua-stm.c:27-71 | A copy's counter is its references from the object, from calls in progress and from boxes |
| `StmProtocol.KeptIsAlive` | 02_skynet/lib/skynet/lualib-src/lua-stm.c:93-104 | A copy that a box keeps, a call holds or a reader is about to grab is not freed, and the assertion on its counter holds |
| `StmProtocol.FreedOnce` | 02_skynet/lib/skynet/lualib-src/lua-stm.c:47-55 | A copy is freed by one thread, once |
| `StmProtocol.NoLeak` | 02_skynet/lib/skynet/lualib-src/lua-stm.c:194-235 | A copy without references is freed, or one thread is about to free it |
| `StmCalls.UpdateTakesEffect` | 02_skynet/lib/skynet/lualib-src/lua-stm.c:106-115 | In a call of stm_update there is one moment, inside the write lock, at which the object's copy becomes the new copy, and the copy that it was is to be dropped |
| `StmCalls.DeleteTakesEffect` | 02_skynet/lib/skynet/lualib-src/lua-stm.c:57-71 | In a call of stm_release there is one moment, inside the write lock, at which the object loses its copy |
| `StmCalls.ReadIsCurrent` | 02_skynet/lib/skynet/lualib-src/lua-stm.c:205-232 | A call of lread leaves the box with the copy that the object had at a moment inside the read lock |
| `StmCalls.CopyChanges` | 02_skynet/lib/skynet/lualib-src/lua-stm.c:57-115 | The object's copy changes in no other way |
| `ReadBuffer.FirstNode` | 02_skynet/lib/skynet/lualib-src/lua-socket.c:103-154 | Unread bytes are the rest of the first node and all of the others |
| `ReadBuffer.SocketBuffer.PushBuffer` | 02_skynet/lib/skynet/lualib-src/lua-socket.c:103-154 | A chunk goes to the end of the bytes |
| `ReadBuffer.SocketBuffer.ReturnNode` | 02_skynet/lib/skynet/lualib-src/lua-socket.c:156-173 | The read-out first node goes and nothing is lost |
| `ReadBuffer.SocketBuffer.PopString` | 02_skynet/lib/skynet/lualib-src/lua-socket.c:175-215 | Takes sz bytes, from one node or across many, and returns all but the last skip |
| `ReadBuffer.SocketBuffer.PopBuffer` | 02_skynet/lib/skynet/lualib-src/lua-socket.c:241-258 | Returns the prefix of the given length, or nothing when there are fewer bytes |
| `ReadBuffer.SocketBuffer.ReadAll` | 02_skynet/lib/skynet/lualib-src/lua-socket.c:281-298 | Returns all bytes and empties the buffer |
| `ReadBuffer.CheckSep` | 02_skynet/lib/skynet/lualib-src/lua-socket.c:308-325 | Compares a separator with the bytes from a place on, across nodes |
| `ReadBuffer.FindSep` | 02_skynet/lib/skynet/lualib-src/lua-socket.c:342-368 | Finds the first place of the separator, or none when it is nowhere |
| `ReadBuffer.SocketBuffer.ReadLine` | 02_skynet/lib/skynet/lualib-src/lua-socket.c:332-369 | Returns exactly the bytes before the first separator and takes them with it, or changes nothing when there is none |

## Left out

- TimerWheel.Wheel.TimerAdd: delays of zero or less, which `skynet_timeout` answers at once without the wheel, and delays of 2^31 and more are not modelled.
- Linked lists are sequences: the nodes of the wheel's slots, of the global queue, of write lists, of hash buckets and of the read buffer, with their next pointers and their recycling.
- RingQueue.MessageQueue.Pop: the spin lock around it is not modelled; ServiceProtocol takes each operation under the lock as one step.
- ServiceProtocol: monitor, profiling, log-only contexts and the harbor are not modelled; a send made by a callback is an activity of its own.
- TcpProtocol: one id over one life of its socket; epoll interest flags are not modelled, so events come at any time, and an unlocked check is resolved to the reads that matter for order. The warning size and statistics are omitted.
- UDP, listening sockets, accepting, name resolution and sends to a socket still being reserved: other rules apply to them.
- Sunnet.PendingIsServed: sleeping and waking of workers is not modelled, as the code does not guarantee a wake-up; a killed service may keep messages.
- Serializer.RoundTrip: the `__pairs` metamethod, tables as keys, NaN as a key and shared or cyclic tables are not modelled.
- Serializer.StringTrip: strings of 2^31 bytes and more, whose length the C code turns into a negative int, are not modelled.
- Netpack.Run: the reader pops what is queued before it takes the next chunk, as the gate does; memory ownership of packages is not modelled.
- Sharedata.Table.Convert: keys are 32-bit integers and strings; two 64-bit keys that agree in their low 32 bits would be taken for one. String indices stand for their strings, and nested tables, real and boolean keys, dirty flags and reference counts of the copy are not modelled.
- Sha1Stream.DigestPieces: message lengths of 2^61 bytes and more do not fit the count.
- DesText.LuaDesEncode: texts of 2^31 bytes and more, and the key schedule itself, which is an arbitrary function of the key, are not modelled.
- DesText.RemovePkcs7: a count above eight is refused at once; the C code compares bytes first, which can only lead to the same refusal.
- HandleTable.Handles.Register: the lock is not modelled; each method is what happens under it. `skynet_handle_retireall` is left out.
- HandleNames.Names.InsertName: the limit on the capacity of the name array is not modelled.
- StmProtocol.CounterExact: holds outside stm_release, which counts the object's reference off a few steps before it clears the pointer; the freeing of the stm_object itself is not modelled.
- ReadBuffer.SocketBuffer.PopBuffer: negative sizes and the pool of nodes are not modelled.
- The copies of the scheduler in 06 and 07, ConnWriter, service_harbor, bson, cluster, databuffer, hashid, base64 and hex, the Lua core, TLS, daemon, logging and module loading.
