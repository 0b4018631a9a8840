# Verified model of skynet's runtime, Lua's code generator passes and two exercises

This Dafny 4.11 project models the parts of the repository where correctness is hard to see from the
code, and proves them right for all inputs, all runs or all interleavings.

- **Timer wheel** (`TimerWheel`, `TimerRuns`): the five-level wheel over a wrapping 32-bit tick. Every
  pending node sits in the one list fixed by its deadline and the tick; so the wheel dispatches what a
  plain schedule of deadlines does.
- **Actor scheduler** (`Scheduler`, `SchedulerHistory`, `SchedulerProgress`, `SchedulerContexts`,
  `MessageQueue`): workers, senders, creators and retirers as a step system, one step per spinlock section
  or atomic update; the ring behind a queue separately.
- **Socket server** (`SocketServer`, `SocketClose`, `SocketReports`, `SocketSend`, `SocketRuns`,
  `SocketHistory`, `SocketRequests`): one TCP socket's two priority lists, direct writes of foreign threads,
  the pending counter and the close states. Every field that a direct writer reads under the lock is a step of its own; of its first test, and of the socket
  thread's test for data still to send, the reads that another thread can change come out either way.
  System calls are nondeterministic results.
- **Shared state** (`SharedCopy`, `SharedCopyHistory`, `SharedCopyProgress`, `HandleTable`,
  `HandleNames`, `HandleRuns`): the spin reader/writer lock with the counted copies under it, and the handle table with its sorted names.
- **Shared table** (`SharedTable`): the two-pass build of a full hash with index-linked chains.
- **Lua code generator** (`LineInfo`, `JumpThreading`): compressed line information against its decoder,
  and the in-place jump threading of `luaK_finish`.
- **Codecs and ciphers** (`Serialize`, `SerializeBuffer`, `NetPack`, `NetFilter`, `Cluster`,
  `ClusterReceive`, `Des`, `DesStandard`, `DesText`, `Sha1Block`, `Sha1Stream`, `Sha1Context`,
  `Sha1Example`, `DiffieHellman`).
- **Exercises** (`Traversal`, `LevelOrder`, `TopK`).

`Division`, `Bytes`, `Counting` and `Wrappers` hold what several modules share.
`dafny verify dfyconfig.toml` checks everything.

Objects that the C code updates in place are classes whose methods are tied to an abstract value.
Concurrent code is a set of atomic steps over a state value; a run is any sequence of enabled steps of
any number of threads, and atomics are sequentially consistent. What a run sends, publishes and reports is
read off its actions, not off the state (the `History`, `Requests` and `Reports` modules), and the
`Progress` modules say that the steps lead through. Linked lists of the C code are sequences.

## What is not as one would hope

Places where the code does not do what it is for on all inputs. Each has the exact condition.

- `socket_server.c`: framing on the wire can break while a socket is being closed, because `force_close`
  frees the lists before it takes the lock that keeps direct writers out (`SocketRuns.FramingExact`,
  `SocketRuns.GarbledRun`). On a socket that is not being closed it always holds.
- `lua-crypt.c`: `powmodp(P, 1)` is P, because the reduction tests `a > P`; every other input is right
  (`DiffieHellman.PowerExact`). The exchange never produces that input.
- `lsha1.c`: a piece of 2^29 bytes or more always counts a carry, so hashing such a message in one call
  appends a wrong length (`Sha1Stream.HighNext`, `Sha1Stream.OneCallExact`).
- `lua-cluster.c`: a request of 2^31 bytes or more is packed and sent, but `lconcat` holds the size in a
  C `int` and ends the receiving program (`ClusterReceive.ArrivesExactly`).
- `lua-cluster.c`: a comment says that 0x8000 bytes still go in one package; the code sends a header and
  one part from that size on. The model follows the code.
- `skynet_server.c`: after `skynet_context_new` gave its reference back it still writes `ctx->init` and
  passes the context to `skynet_error`; a service that is retired in between is freed by then
  (`SchedulerContexts.ContextAccess`, `SchedulerContexts.FreedWhileLaunching`).
- `skynet_handle.c`: a scan does not look at slot 0 exactly when it goes round past the reserved handle 0,
  unless it starts behind the last handle of a table that is not of the largest size; the table then
  doubles beside a free slot (`HandleTable.Storage.Scan`, `HandleRuns.MissedSlotZero`).
- `lua-crypt.c`: DES counts with a C `int`; a text comes back if and only if it is below 2^31 - 8 bytes
  (`DesText.RoundTrip`). Removing PKCS7 padding reads before the buffer if and only if every decrypted
  byte is one length byte larger than the buffer (`DesText.RemovePkcs7`).
- `lua-seri.c`: the packed length is a C `int`; a list of values comes back if and only if none is too deep
  and their bytes are below 2^31 (`SerializeBuffer.Pack`).
- `lcode.c`: `removelastlineinfo` does not restore its counters behind an absolute entry, which shows at the
  third removal in a row (`LineInfo.FuncState.RemoveLastLineInfo`, `LineInfo.ThreeRemovals`). The compiler
  always replaces what it removes.
- `bianrytree.c`: the traversals write past their stacks exactly for trees that need more than 100 cells
  (`Traversal.PreOrderNonRec`, `Traversal.InOrderNonRec`, `Traversal.PostOrderNonRec`), and level order
  works exactly for trees of 1 to 99 nodes (`LevelOrder.LevelOrderNonRec`).

## Model

| member | source | states |
|---|---|---|
| `TimerWheel.SlotAfterTick` | 009_skynet_demo/skynet/skynet-src/skynet_timer.c:68-132 | one tick moves a pending node only if it sits in the list the tick redistributes, and then strictly closer; no pending node is closer than that list, wrap of the 32-bit tick included |
| `TimerWheel.CascadingList` | 009_skynet_demo/skynet/skynet-src/skynet_timer.c:112-132 | the loop of `timer_shift` over the levels finds the one list, if any, whose lower digits all turned to zero, and level 3, list 0 when the tick wraps |
| `TimerWheel.LinkAllSelects` | 009_skynet_demo/skynet/skynet-src/skynet_timer.c:102-109 | placing a list again in order leaves in every slot what was there followed by the nodes of the list that belong there |
| `TimerWheel.PlacedAfterAdd` | 009_skynet_demo/skynet/skynet-src/skynet_timer.c:68-99 | a new node keeps every list equal to the pending nodes its slot selects, in order of addition |
| `TimerWheel.PlacedAfterMove` | 009_skynet_demo/skynet/skynet-src/skynet_timer.c:102-132 | so does redistributing a list after a tick |
| `TimerWheel.PlacedAfterDispatch` | 009_skynet_demo/skynet/skynet-src/skynet_timer.c:153-163 | taking the due list takes exactly the nodes that expire now and leaves the rest placed |
| `TimerWheel.TickPlaces` | 009_skynet_demo/skynet/skynet-src/skynet_timer.c:112-132 | a whole tick keeps the placement of all pending nodes |
| `TimerWheel.Wheel.constructor` | 009_skynet_demo/skynet/skynet-src/skynet_timer.c:181-202 | a new wheel is empty at tick zero |
| `TimerWheel.Wheel.AddNode` | 009_skynet_demo/skynet/skynet-src/skynet_timer.c:68-86 | a node goes to the end of the list fixed by its deadline and the tick |
| `TimerWheel.Wheel.TimerAdd` | 009_skynet_demo/skynet/skynet-src/skynet_timer.c:89-99 | adding keeps the invariant and makes the node pending with deadline now + delay modulo 2^32 |
| `TimerWheel.Wheel.MoveList` | 009_skynet_demo/skynet/skynet-src/skynet_timer.c:102-109 | empties one list and places its nodes again |
| `TimerWheel.Wheel.TimerShift` | 009_skynet_demo/skynet/skynet-src/skynet_timer.c:112-132 | advances the tick by one and redistributes at most one list |
| `TimerWheel.Wheel.TimerExecute` | 009_skynet_demo/skynet/skynet-src/skynet_timer.c:153-163 | dispatches exactly the pending nodes due now, in order, although others may add timers while the lock is released; the loop ends |
| `TimerWheel.Wheel.TimerUpdate` | 009_skynet_demo/skynet/skynet-src/skynet_timer.c:166-178 | one update dispatches exactly the nodes whose deadline is the new tick and keeps all others |
| `TimerRuns.DueIndicesExact` | 009_skynet_demo/skynet/skynet-src/skynet_timer.c:166-178 | the reference schedule lists, in order of request, exactly the requests whose delay ends with the last tick |
| `TimerRuns.EventsAtIndex` | 009_skynet_demo/skynet/skynet-src/skynet_timer.c:135-150 | the k-th event of the schedule is that of the k-th due request |
| `TimerRuns.EventsIndex` | 009_skynet_demo/skynet/skynet-src/skynet_timer.c:135-150 | the k-th event dispatched is that of the k-th node of the list |
| `TimerRuns.ExpectedServes` | 009_skynet_demo/skynet/skynet-src/skynet_timer.c:135-178 | the schedule has one list per tick, of exactly the requests that tick completes, in the order they were made |
| `TimerRuns.EarlierFirst` | 009_skynet_demo/skynet/skynet-src/skynet_timer.c:135-150 | of two requests due at one tick the earlier one is dispatched first |
| `TimerRuns.DispatchedExactlyOnce` | 009_skynet_demo/skynet/skynet-src/skynet_timer.c:166-178 | in every log a request is dispatched once if its delay has passed, and not before |
| `TimerRuns.OutstandingAfterTick` | 009_skynet_demo/skynet/skynet-src/skynet_timer.c:112-132 | the 32-bit deadlines of the waiting requests say which are due, however often the counter wrapped |
| `TimerRuns.Run` | 009_skynet_demo/skynet/skynet-src/skynet_timer.c:68-178 | for every sequence of timeouts and updates the list of each tick holds exactly the events of the requests whose delay that tick completes, oldest request first, as the reference schedule says |
| `MessageQueue.Queue.Length` | 009_skynet_demo/skynet/skynet-src/skynet_mq.c:112-125 | number of messages in the ring |
| `MessageQueue.Queue.Pop` | 009_skynet_demo/skynet/skynet-src/skynet_mq.c:138-172 | takes the oldest message or clears `in_global`; the overload threshold becomes its first doubling that covers the length, or the default for an empty queue |
| `MessageQueue.Queue.ExpandQueue` | 009_skynet_demo/skynet/skynet-src/skynet_mq.c:175-187 | a full ring becomes one of twice the capacity with the same messages in order |
| `MessageQueue.Queue.Push` | 009_skynet_demo/skynet/skynet-src/skynet_mq.c:190-209 | appends a message whatever the fill, and says when the queue has to go to the global list |
| `Scheduler.StepKeeps` | 009_skynet_demo/skynet/skynet-src/skynet_server.c:298-352 | the scheme of all steps: if the step of one thread accounts for the references and places of one service, the global invariant holds after it |
| `Scheduler.KeepsInv` | 009_skynet_demo/skynet/skynet-src/skynet_mq.c:43-250 | every step of creation, sending, dispatch, retirement and release keeps the invariant on places, references and history |
| `Scheduler.AlwaysInv` | 009_skynet_demo/skynet/skynet-src/skynet_server.c:125-352 | the invariant holds in every state of every interleaving |
| `Scheduler.OnePlace` | 009_skynet_demo/skynet/skynet-src/skynet_mq.c:43-75 | in every interleaving a queue is in exactly one place: one thread, the global list once, parked empty with `in_global` clear, or freed |
| `Scheduler.OneAtATime` | 009_skynet_demo/skynet/skynet-src/skynet_server.c:298-352 | no two threads have the same queue, so no service runs twice at once; a queue with messages is never stranded |
| `Scheduler.MessagesInOrder` | 009_skynet_demo/skynet/skynet-src/skynet_mq.c:138-250 | messages pushed are those consumed, then those dropped, then those waiting, in order; dropping happens only after release |
| `Scheduler.NoUseAfterFree` | 009_skynet_demo/skynet/skynet-src/skynet_server.c:207-239 | whoever owns a reference finds the context alive, whoever holds a queue finds it unfreed; a dying context is marked once |
| `Scheduler.StepGrows` | 009_skynet_demo/skynet/skynet-src/skynet_mq.c:190-250 | a step only extends what was pushed, consumed and dropped, and leaves a freed queue alone |
| `Scheduler.HistoryGrows` | 009_skynet_demo/skynet/skynet-src/skynet_mq.c:190-250 | the same along every run |
| `SchedulerHistory.LetterTold` | 009_skynet_demo/skynet/skynet-src/skynet_server.c:230-239 | the message a thread is about to push is the one it was last called with, read off the actions |
| `SchedulerHistory.PushedIsHanded` | 009_skynet_demo/skynet/skynet-src/skynet_server.c:230-239 | in every interleaving what was pushed to a service is the list, computed from the actions alone, of the messages handed over to it, in the order of the pushes |
| `SchedulerHistory.ServiceGets` | 009_skynet_demo/skynet/skynet-src/skynet_server.c:298-352 | what a service consumes, drops and still has is that list |
| `SchedulerHistory.InitTold` | 009_skynet_demo/skynet/skynet-src/skynet_server.c:150-181 | whoever launches a new service ran its init function with success, whoever takes it back without |
| `SchedulerHistory.ServesNext` | 009_skynet_demo/skynet/skynet-src/skynet_server.c:298-352 | a worker that takes a registered service with messages hands it the oldest one |
| `SchedulerHistory.ServesOn` | 009_skynet_demo/skynet/skynet-src/skynet_server.c:317-338 | within its batch a worker goes on with the next message |
| `SchedulerHistory.GivesWay` | 009_skynet_demo/skynet/skynet-src/skynet_server.c:340-352 | after its batch a worker goes on with the first queue of the global list and puts its own at the end; it keeps its own only if nobody waits |
| `SchedulerHistory.FirstInFirstOut` | 009_skynet_demo/skynet/skynet-src/skynet_mq.c:43-75 | in every interleaving the global list is served in order: after n queues were taken those behind them stand in front as they stood |
| `SchedulerHistory.Discards` | 009_skynet_demo/skynet/skynet-src/skynet_mq.c:225-250 | releasing a queue drops its messages in order and frees it |
| `SchedulerProgress.LaunchStarts` | 009_skynet_demo/skynet/skynet-src/skynet_server.c:125-165 | a creation whose init function succeeds leaves a registered service with one reference and an empty queue |
| `SchedulerProgress.LaunchEnds` | 009_skynet_demo/skynet/skynet-src/skynet_server.c:162-171 | and puts it at the end of the global list |
| `SchedulerProgress.SendThrough` | 009_skynet_demo/skynet/skynet-src/skynet_server.c:230-239 | sending puts the message behind the others and, if nobody works on the queue, the queue behind the others |
| `SchedulerProgress.RetireThrough` | 009_skynet_demo/skynet/skynet-src/skynet_server.c:207-222 | retiring a service that nobody uses marks its queue for release and makes sure somebody finds it |
| `SchedulerProgress.FailStarts` | 009_skynet_demo/skynet/skynet-src/skynet_server.c:150-181 | a creation whose init function fails is taken back by its creator |
| `SchedulerProgress.FailRetires` | 009_skynet_demo/skynet/skynet-src/skynet_server.c:172-181 | its context goes with the last reference |
| `SchedulerProgress.FailDrops` | 009_skynet_demo/skynet/skynet-src/skynet_mq.c:238-250 | and its queue, once marked, is dropped |
| `SchedulerContexts.ContextAccess` | 009_skynet_demo/skynet/skynet-src/skynet_server.c:125-239 | every access to a context but two is safe in every interleaving; those of the creator after it gave its reference back (165, 169) are safe if and only if the service is registered, or somebody owns a reference, or its deletion is not complete |
| `SchedulerContexts.SafeUntilRetired` | 009_skynet_demo/skynet/skynet-src/skynet_server.c:162-171 | as long as nobody retires the service they are safe |
| `SchedulerContexts.FreedWhileLaunching` | 009_skynet_demo/skynet/skynet-src/skynet_server.c:162-171 | a run in which a service is retired and deleted in between: both accesses go to freed memory |
| `SocketServer.SendListFrames` | 009_skynet_demo/skynet/skynet-src/socket_server.c:718-747 | for every sequence of partial writes, EAGAIN, EINTR and errors a list puts whole packages on the wire plus at most one begun; packages and byte counts are conserved |
| `SocketClose.KeepsInv` | 009_skynet_demo/skynet/skynet-src/socket_server.c:482-512 | every step keeps the close state machine: half-closed states, the closing flag and the events raised agree |
| `SocketClose.CloseOnce` | 009_skynet_demo/skynet/skynet-src/socket_server.c:1132-1180 | over one lifetime SOCKET_CLOSE is raised at most once and no data follows it; a half-read or closing socket has raised it |
| `SocketReports.DataReported` | 009_skynet_demo/skynet/skynet-src/socket_server.c:1427-1486 | in every interleaving data is reported as often as a read got bytes before the end was reported |
| `SocketReports.EndAnnounced` | 009_skynet_demo/skynet/skynet-src/socket_server.c:1132-1180 | a close request or an end of file on a live socket raises SOCKET_CLOSE, or leaves it to be raised when the lock is free |
| `SocketReports.EndReported` | 009_skynet_demo/skynet/skynet-src/socket_server.c:482-512 | over runs that stays so |
| `SocketReports.CloseObeyed` | 009_skynet_demo/skynet/skynet-src/socket_server.c:1154-1180 | a request to close leaves the socket gone, being torn down or closing, at once when it asks to shut down or nothing is left to write |
| `SocketReports.CloseStands` | 009_skynet_demo/skynet/skynet-src/socket_server.c:1154-1180 | in every interleaving it stays so |
| `SocketReports.Reported` | 009_skynet_demo/skynet/skynet-src/socket_server.c:1200-1581 | errors of the connection, of reading and of the poll calls are reported, and so is a connection that opens or is resumed |
| `SocketReports.FinishRaises` | 009_skynet_demo/skynet/skynet-src/socket_server.c:482-512 | the second half of `force_close` raises what waits and the socket is gone |
| `SocketReports.GoneReported` | 009_skynet_demo/skynet/skynet-src/socket_server.c:482-512 | in every interleaving a socket that is gone has raised its close, or the error of a failed connection |
| `SocketReports.WriteDecides` | 009_skynet_demo/skynet/skynet-src/socket_server.c:864-950 | a failed write drops a socket whose end was reported and otherwise half-closes it and reports one error; without a failure a closing socket is dropped exactly when everything is out, and nothing else changes |
| `SocketSend.SendBufferGood` | 009_skynet_demo/skynet/skynet-src/socket_server.c:864-950 | `send_buffer` keeps framing, order of packages and `wb_size`, through both lists and `raise_uncomplete` |
| `SocketSend.FlushAt` | 009_skynet_demo/skynet/skynet-src/socket_server.c:864-922 | whenever `send_buffer_` gets to step 4 both lists are empty and `wb_size` is zero, whether the socket closes there or not |
| `SocketSend.TakenConserves` | 009_skynet_demo/skynet/skynet-src/socket_server.c:1012-1081 | taking a send request from the pipe moves its package behind the packages of its priority, or drops it on a closed socket; none is lost or doubled |
| `SocketSend.DirectConserves` | 009_skynet_demo/skynet/skynet-src/socket_server.c:1840-1909 | a direct write puts its package in front of what waits and behind what is out |
| `SocketSend.WroteConserves` | 009_skynet_demo/skynet/skynet-src/socket_server.c:864-950 | writing out moves packages from the lists to the wire in order |
| `SocketRuns.DirectOwn` | 009_skynet_demo/skynet/skynet-src/socket_server.c:1834-1909 | the unlocked first test of `sending` keeps a direct write from overtaking a package of its own sender that is still queued |
| `SocketRuns.KeepsCount` | 009_skynet_demo/skynet/skynet-src/socket_server.c:1333-1362 | `sending` counts the requests on their way, so `dec_sending_ref` never finds zero |
| `SocketRuns.KeepsInv` | 009_skynet_demo/skynet/skynet-src/socket_server.c:833-1081 | every step keeps all invariants of the send path, and framing if and only if it is not a direct write into a socket being torn down over a cut package |
| `SocketRuns.AlwaysInv` | 009_skynet_demo/skynet/skynet-src/socket_server.c:833-1909 | the invariants hold in every state of every interleaving |
| `SocketRuns.SendSafety` | 009_skynet_demo/skynet/skynet-src/socket_server.c:833-1081 | in every interleaving the wire of an open socket is whole packages plus at most one unfinished one that is continued first; one sender's packages of one priority keep their order; `wb_size` is the bytes left in both lists; for every result of the writes the assertions at 865 and 897 hold inside a write event, the closing one included, and so does that of `dec_sending_ref`; which data the packages hold is `SocketHistory.IssuedIsHanded` |
| `SocketHistory.ItemTold` | 009_skynet_demo/skynet/skynet-src/socket_server.c:1834-1909 | what a sender has in hand is the data and priority it was last called with, read off the actions |
| `SocketHistory.IssuedIsHanded` | 009_skynet_demo/skynet/skynet-src/socket_server.c:1834-1930 | in every interleaving the packages issued for a thread are, in order, the data and priority of its calls that came to a direct write or a request |
| `SocketRequests.SenderKeeps` | 009_skynet_demo/skynet/skynet-src/socket_server.c:1834-1930 | a sender takes up what it is called with unless the socket is invalid, or closing for the direct form, and gives it away only by handing it over |
| `SocketRequests.AcceptedAreHanded` | 009_skynet_demo/skynet/skynet-src/socket_server.c:1834-1930 | in every interleaving every accepted call is handed over once and in order, except the one in hand |
| `SocketRequests.PipeIsQueue` | 009_skynet_demo/skynet/skynet-src/socket_server.c:1366-1425 | in every interleaving requests are taken from the pipe in the order written, and none is lost |
| `SocketRequests.QueuesHigh` | 009_skynet_demo/skynet/skynet-src/socket_server.c:1840-1909 | a call that finds requests on their way goes to the pipe |
| `SocketRequests.QueuesLow` | 009_skynet_demo/skynet/skynet-src/socket_server.c:1912-1930 | so does every call of low priority |
| `SocketRequests.Sends` | 009_skynet_demo/skynet/skynet-src/socket_server.c:1901-1909 | there its package is counted and written |
| `SocketRequests.Locks` | 009_skynet_demo/skynet/skynet-src/socket_server.c:1840-1851 | a call that finds none gets the lock if it is free |
| `SocketRequests.FindsBusy` | 009_skynet_demo/skynet/skynet-src/socket_server.c:1851-1909 | and goes to the pipe if not |
| `SocketRequests.FindsIdle` | 009_skynet_demo/skynet/skynet-src/socket_server.c:1126-1129 | under the lock it finds that nothing waits |
| `SocketRequests.GoesDirect` | 009_skynet_demo/skynet/skynet-src/socket_server.c:1834-1853 | nor is on its way, and that the socket is connected |
| `SocketRequests.WritesThrough` | 009_skynet_demo/skynet/skynet-src/socket_server.c:1854-1888 | what `write` takes is then on the wire, the rest waits, and the lock is free |
| `SocketHistory.DroppedOnly` | 009_skynet_demo/skynet/skynet-src/socket_server.c:981-1081 | a package is dropped only by a socket that is closing or closed |
| `SocketHistory.TakenGoesTo` | 009_skynet_demo/skynet/skynet-src/socket_server.c:1012-1081 | any other goes to the end of the list of its priority, a low one to the high list when both are empty |
| `SocketHistory.SendListStops` | 009_skynet_demo/skynet/skynet-src/socket_server.c:718-747 | after any number of full writes a short write, EAGAIN, EINTR or an error stops the list there and leaves the exact rest |
| `SocketHistory.SendListAll` | 009_skynet_demo/skynet/skynet-src/socket_server.c:718-747 | full writes empty the list |
| `SocketRuns.NoWriteExcluded` | 009_skynet_demo/skynet/skynet-src/socket_server.c:925-950 | a write event on an unlocked open socket is always possible: the model's guards leave no run out |
| `SocketRuns.FramedUntil` | 009_skynet_demo/skynet/skynet-src/socket_server.c:482-512 | framing holds up to any state that no such write precedes |
| `SocketRuns.FramingExact` | 009_skynet_demo/skynet/skynet-src/socket_server.c:482-512 | framing holds throughout a run if and only if no direct write happens between the two halves of `force_close` after a package was cut short |
| `SocketRuns.GarbledRun` | 009_skynet_demo/skynet/skynet-src/socket_server.c:482-512 | a concrete run in which such a write happens: `force_close` frees the lists before it takes the lock, a sender sees them empty and writes behind the cut package |
| `LineInfo.SaysAbsolute` | 020_lua_demo/lua-5.4.6/src/lcode.c:329-344 | an absolute entry extends what the compressed information says by one line |
| `LineInfo.SaysRelative` | 020_lua_demo/lua-5.4.6/src/lcode.c:329-344 | so does a difference that fits |
| `LineInfo.SaysPrefix` | 020_lua_demo/lua-5.4.6/src/lcode.c:353-365 | dropping the last entry leaves information that says the lines before it |
| `LineInfo.FuncState.SaveLineInfo` | 020_lua_demo/lua-5.4.6/src/lcode.c:329-344 | the saved line is added, absolutely exactly when the difference does not fit or the limit is reached; absolute entries stay dense enough for the decoder's estimate |
| `LineInfo.FuncState.RemoveLastLineInfo` | 020_lua_demo/lua-5.4.6/src/lcode.c:353-365 | the last line is removed; the counters are fit for the next line if and only if they described the last instruction, or stay above the limit, or the entry was absolute |
| `LineInfo.FuncState.Code` | 020_lua_demo/lua-5.4.6/src/lcode.c:382-390 | emitting an instruction adds its line |
| `LineInfo.FuncState.FixLine` | 020_lua_demo/lua-5.4.6/src/lcode.c:1783-1786 | changes the line of the last instruction and nothing else |
| `LineInfo.FuncState.RemoveLastInstruction` | 020_lua_demo/lua-5.4.6/src/lcode.c:372-375 | forgets the last instruction and its line, with the same condition on the counters |
| `LineInfo.ThreeRemovals` | 020_lua_demo/lua-5.4.6/src/lcode.c:353-365 | three removals in a row behind an absolute entry leave counters that are not fit |
| `LineInfo.Compile` | 020_lua_demo/lua-5.4.6/src/lcode.c:329-390 | every sequence of emissions, line fixes and replacements leaves information that encodes the final lines |
| `LineInfo.GetBaseLine` | 020_lua_demo/lua-5.4.6/src/ldebug.c:60-75 | finds the last absolute entry not behind pc; pc / MAXIWTHABS - 1 is always a lower bound |
| `LineInfo.GetFuncLine` | 020_lua_demo/lua-5.4.6/src/ldebug.c:83-95 | the decoded line is the line of the instruction, -1 for stripped functions |
| `LineInfo.NextLine` | 020_lua_demo/lua-5.4.6/src/ldebug.c:282-287 | the incremental decoder agrees with it |
| `LineInfo.ChangedLine` | 020_lua_demo/lua-5.4.6/src/ldebug.c:847-865 | the shortcut over differences agrees with comparing the two decoded lines |
| `LineInfo.LineOf` | 020_lua_demo/lua-5.4.6/src/ldebug.c:83-95 | encoder and decoder together: any pc gives the line last saved for it |
| `JumpThreading.RedirectKeepsLanding` | 020_lua_demo/lua-5.4.6/src/lcode.c:1826-1836 | redirecting one jump along its own chain keeps where every chain lands, in no more hops |
| `JumpThreading.RedirectAddsNoLanding` | 020_lua_demo/lua-5.4.6/src/lcode.c:1826-1836 | and gives no chain a landing it did not have |
| `JumpThreading.LandingIs` | 020_lua_demo/lua-5.4.6/src/lcode.c:1826-1836 | a jump lands where the instruction it names lands, every other instruction at itself |
| `JumpThreading.RefinesRedirect` | 020_lua_demo/lua-5.4.6/src/lcode.c:1843-1871 | so it keeps the refinement of the original code |
| `JumpThreading.RefinedLanding` | 020_lua_demo/lua-5.4.6/src/lcode.c:1843-1871 | a chain of jumps lands on the same instruction before and after, or never in both |
| `JumpThreading.FinalTarget` | 020_lua_demo/lua-5.4.6/src/lcode.c:1826-1836 | the loop walks at most 100 hops along the current code |
| `JumpThreading.PassRefines` | 020_lua_demo/lua-5.4.6/src/lcode.c:1843-1871 | after any number of turns of the pass every chain of jumps lands where it did, or nowhere as before, although later turns read jumps that earlier ones rewrote |
| `JumpThreading.PassAt` | 020_lua_demo/lua-5.4.6/src/lcode.c:1843-1871 | jumps that land within 100 hops go there directly; jumps stay jumps and other instructions do not become one |
| `JumpThreading.PassCloses` | 020_lua_demo/lua-5.4.6/src/lcode.c:1850-1861 | a plain return becomes OP_RETURN exactly when the function closes variables or is a vararg; flagged returns and tail calls get k for closing and C = numparams + 1 for varargs, and nothing else changes |
| `JumpThreading.SmallFits` | 020_lua_demo/lua-5.4.6/src/lcode.c:167-175 | every offset fits in a function of at most 2^24 - 1 instructions |
| `JumpThreading.Finish` | 020_lua_demo/lua-5.4.6/src/lcode.c:1843-1871 | the in-place loop computes that pass; it fails if and only if some redirected offset does not fit its argument |
| `SharedTable.FillMain` | 009_skynet_demo/skynet/lualib-src/lua-sharedata.c:213-235 | first pass: filling a free main position starts a chain of one |
| `SharedTable.FillFree` | 009_skynet_demo/skynet/lualib-src/lua-sharedata.c:238-273 | second pass: a free slot is linked behind the head of the chain of its main position |
| `SharedTable.SlotIsFree` | 009_skynet_demo/skynet/lualib-src/lua-sharedata.c:238-273 | as long as a key is missing a slot is free |
| `SharedTable.TableIsFull` | 009_skynet_demo/skynet/lualib-src/lua-sharedata.c:238-273 | when none is missing every slot is filled |
| `SharedTable.FirstPassStep` | 009_skynet_demo/skynet/lualib-src/lua-sharedata.c:213-235 | one entry of the first pass keeps its invariant |
| `SharedTable.NotPlacedYet` | 009_skynet_demo/skynet/lualib-src/lua-sharedata.c:238-273 | a key that is not at its main position has not been placed, and the scan from the last empty slot finds one: the assertion at 260 holds |
| `SharedTable.SecondPassFill` | 009_skynet_demo/skynet/lualib-src/lua-sharedata.c:238-273 | one collision of the second pass keeps its invariant and acyclic chains |
| `SharedTable.CountSize` | 009_skynet_demo/skynet/lualib-src/lua-sharedata.c:68-89 | number of keys outside the array part |
| `SharedTable.Table.constructor` | 009_skynet_demo/skynet/lualib-src/lua-sharedata.c:278-327 | the built table represents exactly the source entries |
| `SharedTable.Table.Fill` | 009_skynet_demo/skynet/lualib-src/lua-sharedata.c:278-327 | both passes over empty slots leave a table that represents the source |
| `SharedTable.Table.FillNoColliding` | 009_skynet_demo/skynet/lualib-src/lua-sharedata.c:213-235 | the first pass over all entries |
| `SharedTable.Table.FreeSlot` | 009_skynet_demo/skynet/lualib-src/lua-sharedata.c:238-273 | the scan stops at the first empty slot |
| `SharedTable.Table.FillColliding` | 009_skynet_demo/skynet/lualib-src/lua-sharedata.c:238-273 | the second pass places every key; the table ends full |
| `SharedTable.Table.LookupKey` | 009_skynet_demo/skynet/lualib-src/lua-sharedata.c:504-532 | walks one chain, ends, and finds a slot if and only if some slot has the key |
| `SharedTable.Table.Index` | 009_skynet_demo/skynet/lualib-src/lua-sharedata.c:535-568 | exactly the source value of a present key, nothing for an absent one |
| `SharedTable.Table.NextKey` | 009_skynet_demo/skynet/lualib-src/lua-sharedata.c:592-648 | the next occupied position of the array part and then the hash part |
| `SharedTable.Table.AllKeys` | 009_skynet_demo/skynet/lualib-src/lua-sharedata.c:592-648 | iteration from nil gives every key of the source once and ends |
| `SharedCopy.LockKeeps` | 009_skynet_demo/skynet/skynet-src/rwlock.h:19-46 | a move of one thread that accounts for its counters keeps the lock invariant: counters tell who is where, readers and a writer inside exclude each other |
| `SharedCopy.KeepsLock` | 009_skynet_demo/skynet/skynet-src/rwlock.h:19-46 | every step keeps it |
| `SharedCopy.KeepsInv` | 009_skynet_demo/skynet/lualib-src/lua-stm.c:47-115 | every step keeps the lock invariant and makes every copy's count the number of its holders plus one while it is current |
| `SharedCopy.AlwaysInv` | 009_skynet_demo/skynet/lualib-src/lua-stm.c:47-115 | so in every interleaving |
| `SharedCopy.MutualExclusion` | 009_skynet_demo/skynet/skynet-src/rwlock.h:19-46 | with any number of threads a writer in its section excludes every reader and every other writer |
| `SharedCopy.CopiesSafe` | 009_skynet_demo/skynet/lualib-src/lua-stm.c:47-115 | a copy is freed exactly when its count is zero, never while held or current, and never twice |
| `SharedCopy.TouchesLive` | 009_skynet_demo/skynet/lualib-src/lua-stm.c:93-115 | no thread dereferences a freed copy, not even between loading `obj->copy` and counting it; the assertion of `stm_copy` holds |
| `SharedCopyHistory.CurrentIs` | 009_skynet_demo/skynet/lualib-src/lua-stm.c:93-115 | in every interleaving the current copy is that of the last update, read off the actions; none after the writer is deleted, the first one before |
| `SharedCopyHistory.LoadTold` | 009_skynet_demo/skynet/lualib-src/lua-stm.c:206-219 | what a reader holds while it reads is what was current when it loaded `obj->copy` |
| `SharedCopyHistory.ReaderGets` | 009_skynet_demo/skynet/lualib-src/lua-stm.c:206-219 | a read ends with the copy of the last update before its load |
| `SharedCopyProgress.UpdatesNotLost` | 009_skynet_demo/skynet/lualib-src/lua-stm.c:106-115 | in every interleaving every update is published once and in order, except the one in hand |
| `SharedCopyProgress.UpdateEnters` | 009_skynet_demo/skynet/lualib-src/lua-stm.c:106-110 | an update with no other writer and no reader gets into its section |
| `SharedCopyProgress.UpdateSwaps` | 009_skynet_demo/skynet/lualib-src/lua-stm.c:110-115 | there it makes its copy current and goes to release the old one |
| `SharedCopyProgress.ReadEnters` | 009_skynet_demo/skynet/skynet-src/rwlock.h:19-31 | a reader with no writer gets into its section |
| `SharedCopyProgress.ReadLoads` | 009_skynet_demo/skynet/lualib-src/lua-stm.c:93-104 | there it gets the current copy |
| `SharedCopyProgress.ReadKeeps` | 009_skynet_demo/skynet/lualib-src/lua-stm.c:206-220 | a reader that had another copy keeps the new one |
| `SharedCopyProgress.ReadSame` | 009_skynet_demo/skynet/lualib-src/lua-stm.c:206-216 | one that had this copy gives the new reference back |
| `SharedCopyProgress.DeleteThrough` | 009_skynet_demo/skynet/lualib-src/lua-stm.c:194-203 | a deleted reader gives its reference back |
| `SharedCopyProgress.BacksOff` | 009_skynet_demo/skynet/skynet-src/rwlock.h:19-31 | a reader that meets a writer takes its increment back |
| `SharedCopyProgress.CloseEnters` | 009_skynet_demo/skynet/lualib-src/lua-stm.c:57-60 | deleting the writer takes the lock |
| `SharedCopyProgress.CloseClears` | 009_skynet_demo/skynet/lualib-src/lua-stm.c:57-68 | and leaves no current copy |
| `HandleTable.ScanCovers` | 009_skynet_demo/skynet/skynet-src/skynet_handle.c:40-58 | one scan looks at every slot but slot 0, and at slot 0 unless it goes round past the reserved handle 0; a scan that starts behind the last handle still reaches it as its last candidate |
| `HandleTable.ScanMisses` | 009_skynet_demo/skynet/skynet-src/skynet_handle.c:40-58 | otherwise no candidate of the scan belongs to slot 0 |
| `HandleTable.RehashNext` | 009_skynet_demo/skynet/skynet-src/skynet_handle.c:59-71 | moving a slot into the doubled table finds its place empty: the assertion at 65 holds |
| `HandleTable.HoldsRehashed` | 009_skynet_demo/skynet/skynet-src/skynet_handle.c:59-71 | the doubled table holds the same services where their handles say |
| `HandleTable.RoomAfterDoubling` | 009_skynet_demo/skynet/skynet-src/skynet_handle.c:40-72 | after one doubling a scan finds a free slot |
| `HandleTable.NotAllLive` | 009_skynet_demo/skynet/skynet-src/skynet_handle.c:40-72 | below the largest size not all handles can be live |
| `HandleTable.AllLive` | 009_skynet_demo/skynet/skynet-src/skynet_handle.c:40-59 | at the largest size a failed scan means that all handles are live |
| `HandleTable.Storage.constructor` | 009_skynet_demo/skynet/skynet-src/skynet_handle.c:248-265 | an empty table of four slots; handle 0 is reserved |
| `HandleTable.Storage.Scan` | 009_skynet_demo/skynet/skynet-src/skynet_handle.c:40-58 | the first candidate in cyclic order whose slot is free; there is none if and only if all slots from 1 on are taken and slot 0 is taken or missed |
| `HandleTable.Storage.Double` | 009_skynet_demo/skynet/skynet-src/skynet_handle.c:59-71 | doubles the table, keeping all services |
| `HandleTable.Storage.FreeHandle` | 009_skynet_demo/skynet/skynet-src/skynet_handle.c:40-72 | the first free candidate; the table doubles, once, if and only if the scan fails and may still grow; there is none if and only if all 2^24 - 1 handles are live |
| `HandleTable.Storage.Register` | 009_skynet_demo/skynet/skynet-src/skynet_handle.c:35-73 | a new handle is nonzero, of this harbor and not live; nothing else changes; without doubling it is the first free candidate |
| `HandleTable.Storage.Retire` | 009_skynet_demo/skynet/skynet-src/skynet_handle.c:76-112 | succeeds exactly for a live handle and removes it and its names |
| `HandleTable.Storage.Grab` | 009_skynet_demo/skynet/skynet-src/skynet_handle.c:139-155 | gives the service of a live handle and nothing for any other |
| `HandleRuns.MissedSlotZero` | 009_skynet_demo/skynet/skynet-src/skynet_handle.c:40-58 | a history of registrations and retirements after which slot 0 is free and the scan finds nothing |
| `HandleNames.StrcmpTransitive` | 009_skynet_demo/skynet/skynet-src/skynet_handle.c:158-185 | the comparison is a strict order |
| `HandleNames.StrcmpIs` | 009_skynet_demo/skynet/skynet-src/skynet_handle.c:158-185 | the comparison is negative exactly when the first name is smaller in dictionary order |
| `HandleNames.Narrow` | 009_skynet_demo/skynet/skynet-src/skynet_handle.c:158-185 | one look at the middle narrows the bracket around a name |
| `HandleNames.InsertSorted` | 009_skynet_demo/skynet/skynet-src/skynet_handle.c:214-235 | inserting where the bisection ended keeps the array strictly sorted |
| `HandleNames.InsertFind` | 009_skynet_demo/skynet/skynet-src/skynet_handle.c:214-235 | a new name changes no other name |
| `HandleNames.WithoutSorted` | 009_skynet_demo/skynet/skynet-src/skynet_handle.c:89-99 | compaction keeps the array sorted |
| `HandleNames.WithoutFind` | 009_skynet_demo/skynet/skynet-src/skynet_handle.c:89-99 | compaction forgets exactly the names of the retired handle |
| `HandleNames.Names.FindName` | 009_skynet_demo/skynet/skynet-src/skynet_handle.c:158-185 | bisection agrees with looking at every entry |
| `HandleNames.Names.InsertBefore` | 009_skynet_demo/skynet/skynet-src/skynet_handle.c:188-211 | makes room by growing or shifting and inserts at the place |
| `HandleNames.Names.InsertName` | 009_skynet_demo/skynet/skynet-src/skynet_handle.c:214-235 | refuses exactly the names that are taken; otherwise adds one and keeps the rest |
| `HandleNames.Names.Retire` | 009_skynet_demo/skynet/skynet-src/skynet_handle.c:89-99 | the in-place compaction loop |
| `DiffieHellman.NoneLost` | 009_skynet_demo/skynet/lualib-src/lua-crypt.c:796-815 | the wrapping 64-bit operations of the loop give the exact sums and differences |
| `DiffieHellman.HalfStep` | 009_skynet_demo/skynet/lualib-src/lua-crypt.c:796-815 | one turn of the loop keeps the remainder of m + a * b |
| `DiffieHellman.MulModP` | 009_skynet_demo/skynet/lualib-src/lua-crypt.c:796-815 | the product modulo P |
| `DiffieHellman.SquareStep` | 009_skynet_demo/skynet/lualib-src/lua-crypt.c:818-828 | squaring a right half, and one more factor for an odd exponent |
| `DiffieHellman.PowModP` | 009_skynet_demo/skynet/lualib-src/lua-crypt.c:818-828 | a^b modulo P by repeated squaring |
| `DiffieHellman.PowerModP` | 009_skynet_demo/skynet/lualib-src/lua-crypt.c:832-836 | a^b modulo P for every 64-bit base, except that base P with exponent 1 gives P |
| `DiffieHellman.PowerExact` | 009_skynet_demo/skynet/lualib-src/lua-crypt.c:832-836 | `powmodp` is right if and only if not (a = P and b = 1) |
| `DiffieHellman.GeneratorNonZero` | 009_skynet_demo/skynet/lualib-src/lua-crypt.c:868-888 | no power of the generator is divisible by P, so a public key is never refused as zero |
| `DiffieHellman.Exchange` | 009_skynet_demo/skynet/lualib-src/lua-crypt.c:870-888 | public key in eight little-endian bytes; refuses wrong lengths and zero |
| `DiffieHellman.Secret` | 009_skynet_demo/skynet/lualib-src/lua-crypt.c:853-866 | shared secret; refuses wrong lengths and zeros |
| `DiffieHellman.Agree` | 009_skynet_demo/skynet/lualib-src/lua-crypt.c:853-888 | both sides arrive at the same bytes, G^(xy) modulo P |
| `Des.FinalInitial` | 009_skynet_demo/skynet/lualib-src/lua-crypt.c:208-230 | the final permutation undoes the initial one |
| `Des.InitialFinal` | 009_skynet_demo/skynet/lualib-src/lua-crypt.c:208-230 | and the other way round |
| `DesStandard.InitialTable` | 009_skynet_demo/skynet/lualib-src/lua-crypt.c:208-217 | bit k of the initial permutation is the bit that table IP of FIPS PUB 46-3 names, for all 64 bits and every block; both halves are kept turned by one bit |
| `DesStandard.RoundStep` | 009_skynet_demo/skynet/lualib-src/lua-crypt.c:234-247 | each of two rounds combines one half with the round function of the other and its own pair of subkey words |
| `DesStandard.RoundsFollow` | 009_skynet_demo/skynet/lualib-src/lua-crypt.c:320-338 | the rounds take one step of the recurrence of the standard per pair of subkey words, in order |
| `DesStandard.GetBytes` | 009_skynet_demo/skynet/lualib-src/lua-crypt.c:190-196 | a word is read with its first byte highest |
| `DesStandard.BlockCipher` | 009_skynet_demo/skynet/lualib-src/lua-crypt.c:320-342 | a block is permuted, goes through sixteen such steps and is permuted back with its halves exchanged |
| `Des.TwoBack` | 009_skynet_demo/skynet/lualib-src/lua-crypt.c:234-247 | two rounds are undone by the same rounds with swapped halves and subkey pairs in reverse |
| `Des.RoundsBack` | 009_skynet_demo/skynet/lualib-src/lua-crypt.c:320-342 | so are all rounds, for any round function |
| `Des.CryptBack` | 009_skynet_demo/skynet/lualib-src/lua-crypt.c:320-342 | a block encrypted is decrypted by the same code under the reversed subkeys |
| `DesText.CryptAllBack` | 009_skynet_demo/skynet/lualib-src/lua-crypt.c:461-517 | so is any number of blocks |
| `DesText.BlockAt` | 009_skynet_demo/skynet/lualib-src/lua-crypt.c:461-485 | every block is encrypted for itself, in its place |
| `DesText.PaddingUnique` | 009_skynet_demo/skynet/lualib-src/lua-crypt.c:385-418 | at most one padding length can be read off a text |
| `DesText.PaddedBack` | 009_skynet_demo/skynet/lualib-src/lua-crypt.c:379-443 | padding leaves the text in front and its length readable, in both modes |
| `DesText.RemoveIso` | 009_skynet_demo/skynet/lualib-src/lua-crypt.c:385-400 | counts back to the mark, or finds that there is none |
| `DesText.RemovePkcs7` | 009_skynet_demo/skynet/lualib-src/lua-crypt.c:408-418 | reads the length byte and checks the others; it reads before the buffer if and only if every byte is one length byte larger than the buffer |
| `DesText.ReverseKeys` | 009_skynet_demo/skynet/lualib-src/lua-crypt.c:488-496 | the loop that reverses the subkey pairs |
| `DesText.Encode` | 009_skynet_demo/skynet/lualib-src/lua-crypt.c:461-485 | encrypts the text and its padding block by block, for eight-byte keys and known modes; breaks if and only if the text is of 2^31 bytes or more |
| `DesText.Decode` | 009_skynet_demo/skynet/lualib-src/lua-crypt.c:488-517 | accepts exactly whole blocks that end in padding, and removes it; breaks if and only if the text is of 2^31 bytes or more or its padding runs out of the buffer |
| `DesText.RoundTrip` | 009_skynet_demo/skynet/lualib-src/lua-crypt.c:461-517 | for every eight-byte key and padding mode, any key schedule and any round function decoding undoes encoding if and only if the text is below 2^31 - 8 bytes |
| `Sha1Block.Blk0Turns` | 009_skynet_demo/skynet/lualib-src/lsha1.c:109-110 | `blk0` turns a little-endian word into a big-endian one |
| `Sha1Block.MacroFIs` | 009_skynet_demo/skynet/lualib-src/lsha1.c:116-120 | the functions of the macros are Ch, Parity and Maj of section 4.1.1 of FIPS 180-4 |
| `Sha1Block.MacroSumIs` | 009_skynet_demo/skynet/lualib-src/lsha1.c:116-120 | a macro computes the temporary of section 6.1.2 of FIPS 180-4 |
| `Sha1Block.CircleNext` | 009_skynet_demo/skynet/lualib-src/lsha1.c:109-113 | the word computed from the circle of sixteen is that of the eighty-word schedule |
| `Sha1Block.CircleKeeps` | 009_skynet_demo/skynet/lualib-src/lsha1.c:109-113 | storing it keeps the circle |
| `Sha1Block.Operations` | 009_skynet_demo/skynet/lualib-src/lsha1.c:142-162 | the eighty unrolled operations are the eighty steps of the standard |
| `Sha1Block.Transform` | 009_skynet_demo/skynet/lualib-src/lsha1.c:124-173 | the state becomes the next hash value |
| `Sha1Stream.HashNext` | 009_skynet_demo/skynet/lualib-src/lsha1.c:201-208 | one more block of a message |
| `Sha1Stream.LengthLayout` | 009_skynet_demo/skynet/lualib-src/lsha1.c:219-226 | the length field is the number of bits in eight bytes, most significant first |
| `Sha1Example.DigestAbc` | 009_skynet_demo/skynet/lualib-src/lsha1.c:101-173 | the digest of "abc" is the one FIPS 180-4 publishes, through all eighty steps |
| `Sha1Stream.HighNext` | 009_skynet_demo/skynet/lualib-src/lsha1.c:198-200 | the high count word is right after a piece if and only if the piece is below 2^29 bytes or the low words really carry |
| `Sha1Stream.OneCallExact` | 009_skynet_demo/skynet/lualib-src/lsha1.c:250-261 | hashing in one call appends the right length if and only if the message is below 2^29 bytes |
| `Sha1Context.Context.constructor` | 009_skynet_demo/skynet/lualib-src/lsha1.c:177-186 | the empty message |
| `Sha1Context.Context.Update` | 009_skynet_demo/skynet/lualib-src/lsha1.c:190-215 | the context stands for the message so far, whatever the pieces; the count stays right if and only if the piece is below 2^29 bytes or the low words carry |
| `Sha1Context.Context.Absorb` | 009_skynet_demo/skynet/lualib-src/lsha1.c:201-210 | filling the buffer, hashing whole blocks, keeping the rest |
| `Sha1Context.Context.Final` | 009_skynet_demo/skynet/lualib-src/lsha1.c:219-244 | the padding loop ends; the digest is that of the whole message padded as in section 5.1.1 of FIPS 180-4 |
| `Sha1Context.HashPieces` | 009_skynet_demo/skynet/lualib-src/lsha1.c:190-244 | any split into pieces below 2^29 bytes gives the digest of the whole message |
| `Sha1Context.Sha1` | 009_skynet_demo/skynet/lualib-src/lsha1.c:250-261 | the digest of a message in one call |
| `Sha1Context.XorKey` | 009_skynet_demo/skynet/lualib-src/lsha1.c:266-272 | changes every byte of the key |
| `Sha1Context.Hmac` | 009_skynet_demo/skynet/lualib-src/lsha1.c:275-312 | HMAC-SHA-1 as in RFC 2104, keys longer than a block hashed first, whenever the lengths of key and text are counted right |
| `Serialize.IntegerRoundTrip` | 009_skynet_demo/skynet/lualib-src/lua-seri.c:143-174 | every 64-bit integer comes back through the width it was written with |
| `Serialize.TextRoundTrip` | 009_skynet_demo/skynet/lualib-src/lua-seri.c:191-213 | short and long strings come back |
| `Serialize.SizeRoundTrip` | 009_skynet_demo/skynet/lualib-src/lua-seri.c:218-227 | array sizes come back, through the escape at 31 |
| `Serialize.RoundTrip` | 009_skynet_demo/skynet/lualib-src/lua-seri.c:304-350 | unpacking what was packed for a value gives the value and leaves the following bytes |
| `Serialize.RoundTripAll` | 009_skynet_demo/skynet/lualib-src/lua-seri.c:445-465 | array parts |
| `Serialize.RoundTripPairs` | 009_skynet_demo/skynet/lualib-src/lua-seri.c:466-475 | other pairs up to the closing nil |
| `Serialize.UnpackRoundTrip` | 009_skynet_demo/skynet/lualib-src/lua-seri.c:566-607 | a list of values comes back and all bytes are consumed |
| `Serialize.ShortAllSound` | 009_skynet_demo/skynet/lualib-src/lua-seri.c:45-50 | values that pack into fewer than 2^31 bytes have no string or array part too long for a C `int` |
| `Serialize.IntegerLayout` | 009_skynet_demo/skynet/lualib-src/lua-seri.c:143-174 | the bytes of an integer: type in the low three bits, width above, least significant byte first |
| `Serialize.LongLayout` | 009_skynet_demo/skynet/lualib-src/lua-seri.c:143-174 | nine bytes beyond 32 bits |
| `Serialize.TextLayout` | 009_skynet_demo/skynet/lualib-src/lua-seri.c:191-213 | the length of a string is the cookie up to 31, then two or four bytes |
| `Serialize.SizeLayout` | 009_skynet_demo/skynet/lualib-src/lua-seri.c:218-227 | the size of an array part is the cookie up to 30, then an integer |
| `Serialize.ScalarLayout` | 009_skynet_demo/skynet/lualib-src/lua-seri.c:131-190 | the type bytes of nil, booleans, reals and pointers |
| `SerializeBuffer.WriteBlock.Push` | 009_skynet_demo/skynet/lualib-src/lua-seri.c:66-85 | pushing into the chain of 128-byte blocks is appending |
| `SerializeBuffer.WriteBlock.Gather` | 009_skynet_demo/skynet/lualib-src/lua-seri.c:545-563 | copying the chain gives the bytes pushed |
| `SerializeBuffer.PackInteger` | 009_skynet_demo/skynet/lualib-src/lua-seri.c:143-174 | appends the encoding of an integer |
| `SerializeBuffer.PackText` | 009_skynet_demo/skynet/lualib-src/lua-seri.c:191-213 | appends the encoding of a string |
| `SerializeBuffer.PackOne` | 009_skynet_demo/skynet/lualib-src/lua-seri.c:304-350 | appends the encoding of a value; fails if and only if it nests deeper than MAX_DEPTH |
| `SerializeBuffer.PackArray` | 009_skynet_demo/skynet/lualib-src/lua-seri.c:218-237 | the array part of a table |
| `SerializeBuffer.PackHash` | 009_skynet_demo/skynet/lualib-src/lua-seri.c:240-257 | its other pairs |
| `SerializeBuffer.Pack` | 009_skynet_demo/skynet/lualib-src/lua-seri.c:610-622 | fails exactly when a value is too deep or all together take 2^31 bytes or more; otherwise what it makes is read back as the same values |
| `SerializeBuffer.PartsCover` | 009_skynet_demo/skynet/lualib-src/lua-seri.c:218-257 | whatever border `lua_rawlen` picks, array part and other pairs together are the table's pairs, none twice |
| `NetPack.SplitAppend` | 009_skynet_demo/skynet/lualib-src/lua-netpack.c:190-216 | cutting a stream may stop anywhere and go on with more bytes |
| `NetPack.Pack` | 009_skynet_demo/skynet/lualib-src/lua-netpack.c:441-456 | a package is its size, high byte first, and its bytes, and is cut out again; refuses 64K and more |
| `NetPack.Removed` | 009_skynet_demo/skynet/lualib-src/lua-netpack.c:94-115 | taking a partial package from its hash chain hides that connection only |
| `NetPack.Added` | 009_skynet_demo/skynet/lualib-src/lua-netpack.c:171-181 | saving one shows it for that connection only |
| `NetFilter.Queue.FindUncomplete` | 009_skynet_demo/skynet/lualib-src/lua-netpack.c:94-115 | finds the partial package of a connection and takes it out |
| `NetFilter.Queue.SaveUncomplete` | 009_skynet_demo/skynet/lualib-src/lua-netpack.c:171-181 | keeps at most one partial package per connection |
| `NetFilter.Queue.PushMore` | 009_skynet_demo/skynet/lualib-src/lua-netpack.c:190-216 | queues the packages of a buffer and saves its rest |
| `NetFilter.Queue.FilterData` | 009_skynet_demo/skynet/lualib-src/lua-netpack.c:229-308 | the packages a chunk completes come out in order, and only the rest of its own connection changes |
| `NetFilter.Queue.Continue` | 009_skynet_demo/skynet/lualib-src/lua-netpack.c:231-270 | the case with a partial package, a half-read size included |
| `NetFilter.Queue.Fresh` | 009_skynet_demo/skynet/lualib-src/lua-netpack.c:271-307 | the case without one |
| `NetFilter.Queue.CloseUncomplete` | 009_skynet_demo/skynet/lualib-src/lua-netpack.c:219-226 | a closed connection loses its partial package |
| `NetFilter.ChunksDoNotMatter` | 009_skynet_demo/skynet/lualib-src/lua-netpack.c:229-308 | a connection is cut as its whole byte stream would be, whatever the chunks |
| `NetFilter.Run` | 009_skynet_demo/skynet/lualib-src/lua-netpack.c:229-308 | for every interleaving of non-empty chunks of several connections each gets exactly its packages, once and in order |
| `Cluster.PackMulti` | 009_skynet_demo/skynet/lualib-src/lua-cluster.c:147-169 | splits a message into parts of 32K, the last one marked, as many as announced |
| `Cluster.PackRequest` | 009_skynet_demo/skynet/lualib-src/lua-cluster.c:172-204 | accepts exactly positive sessions and names of 1 to 255 bytes; every package fits its size field; sessions go round from 2^31 - 1 to 1 |
| `Cluster.PackagesFit` | 009_skynet_demo/skynet/lualib-src/lua-cluster.c:34-38 | the assertion of `fill_header` holds |
| `Cluster.FirstLayout` | 009_skynet_demo/skynet/lualib-src/lua-cluster.c:25-141 | the first package byte by byte: kind, address, session and the message or its size, numbers least significant byte first |
| `Cluster.PartLayout` | 009_skynet_demo/skynet/lualib-src/lua-cluster.c:147-169 | a part: 3 on the last and 2 on the others, session and data |
| `Cluster.FirstUnpacks` | 009_skynet_demo/skynet/lualib-src/lua-cluster.c:358-392 | the first package unpacks to address, session, push flag and the message or its size |
| `Cluster.PartUnpacks` | 009_skynet_demo/skynet/lualib-src/lua-cluster.c:294-306 | a part unpacks to its session, bytes and whether more follow |
| `Cluster.WireSplits` | 009_skynet_demo/skynet/lualib-src/lua-cluster.c:34-38 | packages on the wire are cut apart again |
| `ClusterReceive.LConcat` | 009_skynet_demo/skynet/lualib-src/lua-cluster.c:559-589 | joins the parts if they come to exactly the announced size; a size of 2^31 or more ends the program |
| `ClusterReceive.PartsFeed` | 009_skynet_demo/skynet/lualib-src/lua-cluster.c:147-169 | feeding the parts of a message completes it |
| `ClusterReceive.RequestArrives` | 009_skynet_demo/skynet/service/clusteragent.lua:46-75 | the packages of a request come to that request, or to the end of the program for a size of 2^31 or more |
| `ClusterReceive.FeedGoesOn` | 009_skynet_demo/skynet/service/clusteragent.lua:46-75 | as long as no size of 2^31 or more is announced the receiver goes on |
| `ClusterReceive.SessionsIndependent` | 009_skynet_demo/skynet/service/clusteragent.lua:46-75 | what a session is delivered depends on its own packages only, as long as the receiver goes on |
| `ClusterReceive.EveryRequestArrives` | 009_skynet_demo/skynet/service/clusteragent.lua:46-75 | however the packages of sessions interleave, every session gets its requests in order and whole, as long as the receiver goes on |
| `ClusterReceive.EndToEnd` | 009_skynet_demo/skynet/lualib-src/lua-cluster.c:172-204 | the same from the sender's packages through any chunks of the byte stream |
| `ClusterReceive.ArrivesExactly` | 009_skynet_demo/skynet/lualib-src/lua-cluster.c:559-589 | a request arrives with the same address, session, flag and bytes if and only if its size is below 2^31 |
| `Traversal.PreVisit` | 024_binarytree/bianrytree.c:99-114 | one turn of the pre-order loop keeps output plus stack equal to the recursive output, and cells used plus cells to come equal to the need of the tree |
| `Traversal.PreOrderNonRec` | 024_binarytree/bianrytree.c:90-116 | outputs what the recursion does if and only if the tree needs at most 100 cells, counting one per pending right sibling; otherwise it writes past the stack |
| `Traversal.InDown` | 024_binarytree/bianrytree.c:136-140 | going left in the in-order loop |
| `Traversal.InVisit` | 024_binarytree/bianrytree.c:141-148 | visiting in the in-order loop |
| `Traversal.InOrderNonRec` | 024_binarytree/bianrytree.c:128-151 | the same for in-order, counting one cell per left turn of the way down |
| `Traversal.ChildrenDiffer` | 024_binarytree/bianrytree.c:184-184 | the test `rchild == p` cannot take a left child for the right one |
| `Traversal.PostDown` | 024_binarytree/bianrytree.c:171-175 | going left in the post-order loop |
| `Traversal.PostVisit` | 024_binarytree/bianrytree.c:184-188 | visiting when the right child is missing or was the last one visited |
| `Traversal.PostRight` | 024_binarytree/bianrytree.c:189-194 | turning right otherwise |
| `Traversal.PostOrderNonRec` | 024_binarytree/bianrytree.c:163-198 | the same for post-order, whose need is the height; a pass without output went to a right child that the next one pushes, so the loop ends |
| `Traversal.CellsWithinHeight` | 024_binarytree/bianrytree.c:90-151 | no loop needs more cells than the height, so that trees of height at most 100 are safe |
| `LevelOrder.QueueVisit` | 024_binarytree/bianrytree.c:204-213 | the queue is always the rest of one level and the beginning of the next |
| `LevelOrder.LevelOrderNonRec` | 024_binarytree/bianrytree.c:201-214 | outputs the levels in order if and only if there is a root and fewer than 100 nodes; otherwise it reads a null pointer or writes past its queue |
| `LevelOrder.LevelNodeNumCounts` | 024_binarytree/bianrytree.c:253-261 | `LevelNodeNum` counts the nodes of a level |
| `TopK.SiftStep` | 028_topk/topk.c:10-28 | swapping with the smaller child moves the only fault of the heap down |
| `TopK.AdjustDown` | 028_topk/topk.c:7-29 | restores the heap below an index; a permutation of the first cells, the rest untouched |
| `TopK.BuildHeap` | 028_topk/topk.c:35-38 | a min-heap of the first k elements |
| `TopK.LargestNext` | 028_topk/topk.c:41-48 | replacing the least of the k largest by a larger newcomer keeps them the k largest |
| `TopK.LargestUnique` | 028_topk/topk.c:32-56 | the multiset of the k largest elements is unique |
| `TopK.PrintTopK` | 028_topk/topk.c:32-56 | for 1 <= k <= n the first k cells end as a min-heap of exactly the k largest elements, duplicates included |

## Left out

- Timers: `skynet_timeout` with a delay of zero or less, which pushes at once and never reaches the wheel; reading the clock.
- Scheduler: handle reuse while an old queue lives; the number of messages per dispatch by weight, which is any number here; endless-loop monitoring, statistics and session numbers. Creating a context, its handle and its queue is one step.
- Sockets: UDP, user-object buffers, listening and accepting, slot reuse across socket ids, warnings about `warn_size`, traffic statistics, failures of the poll calls that enable reading and writing.
- Jump lists of `lcode.c` (`luaK_concat`, `patchlistaux`) and the rest of the code generator.
- Shared table: 64-bit integer keys, which the code cuts to a C `int`; nested tables as values, string interning, reference counts and the dirty flag.
- Shared copies: freeing the outer `stm_object`, on whose reference count `stm_release` may skip the unlock; releasing the current copy and resetting `obj->copy` inside the write section is one step.
- Handle table: `skynet_handle_retireall` and the reader/writer lock around each operation, which `SharedCopy` covers on its own.
- DES: the S-boxes and the key schedule are any functions; the `hashkey`, `hmac64` and base64 functions of `lua-crypt.c`.
- Serialiser: `__pairs` metamethods, unsupported types, running out of Lua stack; a string length of 2^31 or more in a damaged stream counts as invalid, where the code reads it as negative.
- Netpack: the ring behind the package queue, which grows by 1024 cells at a time and takes the hash table along into the new block; the messages that carry no data; freeing buffers.
- Cluster: responses, which are packed and unpacked the same way; traces beyond passing them over; name look-up and calling the service.
- Further codecs and stream reassembly (`lua-bson.c`, `lua-mongo.c`, `lua-datasheet.c`, `service_gate.c`, `service_harbor.c`), the Lua interpreter and its C API, kernel modules, chat server, IPC and GPIO demos: easier versions of what is here, or wrappers over code that is not part of the repository.
