# Verification of the skynet actor framework

A Dafny model of the parts of skynet, and of the game server built on it, whose correctness rests on more than one
function, with proofs. `dafny verify dfyconfig.toml` checks everything.

**TCP write path** (`WriteStream`, `SocketServer`, `SocketInvariant`, `SocketOrder`, `SocketTheorems`,
`SocketPriority`, `SocketClose`, `SocketEnds`, `SocketDelivery`, `SocketProgress`). Any number of worker threads and
the socket thread take single steps: every read of a shared field, every lock operation, every `write` (which may
accept any prefix, block or fail) and every append to a list is a step of its own. A worker may write straight to the
fd under the per-socket lock after checking twice that nothing waits; otherwise it counts itself in `sending` and
posts a request. The three reads of the check are separate steps and list appends take no lock. `SocketServer` is the
machine; the theorems are about every run of it: what stands on the fd, what waits and in which order, what the two
priorities mean, when the socket closes and what that loses, and what can still be written.

**Two-level scheduler** (`Scheduler`, `SchedulerInvariant`, `SchedulerSteps`, `SchedulerTheorems`, `SchedulerCalls`,
`SchedulerProgress`, `MessageQueue`, `Rings`). Workers, senders, creators and retirers are activities whose steps are
the lock-protected bodies and the atomic operations of `skynet_mq.c` and `skynet_server.c`. A service's token is its
place in the global list, in one activity's hands, or with its creator. Every message is followed from its push to its
callback or drop. The ring queue and the intrusive global list are also modelled as the mutable structures they are.

**Timing wheel** (`WheelTime`, `TimingWheel`). One 256-slot level and four 64-slot levels with a 32-bit clock that
wraps, as a class over arrays of lists, against the plain specification "fire at now + delay, in the order of the
adds". Adds may come in while the lock is free during a dispatch. The plan a run is held against is computed from its
operations alone.

**Bignum kernel** (`LimbValue`, `Bignum`, `Quorem`). The in-place limb loops of `dtoa.c` in its `Pack_32` build with
64-bit accumulators: products, differences, shifts, powers of five and the one-step quotient estimate.

**Reader/writer lock and STM** (`RwLock`, `LockProgress`, `Stm`, `StmInvariant`, `StmTheorems`, `StmAfterFree`,
`StmReads`, `StmProgress`). The lock is stepped one atomic instruction at a time; the shared object built on it is
stepped one access to shared memory at a time, and its proofs use the lock's exclusion. What a reader is given is
stated from the updates of the run.

**Handle table** (`HandleNames`, `HandleTable`). The power-of-two slot table with its scan and doubling, and the
sorted name array, as one class that stands for two maps.

**Hash maps of the protobuf library** (`ChainedSlots`, `SymbolMap`, `IdMap`). Coalesced chains with rehashing, and the
two forms of the integer map. The proofs hold for every hash function.

**Package reassembly** (`PackageStream`, `PackageService`, `Netpack`). Length-prefixed packages cut out of interleaved
streams, for a caller that takes them out of the queue at any time.

**Serializer** (`SeriFormat`, `SeriBytes`, `Serializer`). The wire format as functions with their round trip, every
byte of it as a number, the proof that no form the reader takes is shorter, and the packer that pushes a value piece
by piece into a chain of 128-byte blocks.

**Substring search** (`Kmp`) and **key exchange** (`KeyExchange`; `NumberTheory`, `Certificate` and `KeyPrime` prove
that P is the biggest 64-bit prime and that 5 generates all its remainders).

`Arithmetic` and `Basics` hold what several models share. Masks and ors of unsigned numbers are the recursive `BitAnd`
and `BitOr` of `Arithmetic`; the timing wheel, the bignum shift, the handle table and the string map compute with
them.

## Where the code does not do what it promises

- `force_close` frees both lists before it takes the per-socket lock, while the socket still counts as connected. A
  worker can pass both checks in that window and write behind a half-sent package. `WireFramedExactly` shows that the
  framing breaks if and only if bytes are written directly between the freeing of a partly sent head and the lock;
  `TornWriteHappens` is a run that does it.
- `close_socket` tests twice that nothing waits, and then closes. A direct write that parks its rest after the second
  test has read `dw_buffer` loses that rest, although nothing failed and no shutdown was asked for.
  `GentleCloseKeepsData` shows that a close without shutdown discards nothing else that is listed or parked;
  `ParkedRestIsLost` is a run that does. A package whose send call had returned before the first close call is always
  on the fd before it is closed: `SendThenClose`.
- `lua-netpack` hands a single package to its caller at once even when packages of the same id wait in the queue.
  `InOrderIff` shows that this is the only way an id's packages change their order; `OvertakingHappens` is such a
  case.
- `skynet_handle_register` skips slot 0 in a pass that goes past HANDLE_MASK. If that slot alone is free it goes on to
  double a table that is not full and reads the handle of a NULL slot; `Register` gives the exact condition,
  `StuckHappens` a history that leads there.
- `stm_releasereader` unlocks the object after its count-down, when another reader may already have freed it:
  `AccessAfterFree` and `FreedUnderAReader` say exactly when, `UnlockAfterFreeHappens` is a run.
- `powmodp` reduces its base only when it is greater than P, so P to the power 1 comes back as P and not as 0.
- `string_search` gives -1 for every pattern or text of fewer than two letters. The contract of `StringSearch` says
  exactly when that is wrong: for the empty pattern always, for a pattern of one letter when the text has that letter.
- `quorem` corrects its estimate once. That is not enough for every divisor whose top limb is below 2^16; the contract
  of `QuoRem` says exactly when it is, and `EstimateFallsShort` gives a pair for which it is not.
- `cmp` tells a zero without limbs from a zero with one; the contract of `Cmp` says that it errs nowhere else.

## Model

| member | source | states |
|---|---|---|
| `SocketTheorems.WholePackagesOnTheWire` | skynet/skynet-src/socket_server.c:580-793 | in every interleaving, until force_close starts to discard, the bytes on the fd are whole packages end to end with at most the last one cut short |
| `SocketTheorems.CallOrderOnTheWire` | skynet/skynet-src/socket_server.c:1575-1627 | in every run every byte on the fd comes from a logged call; of two bytes from one thread and priority the earlier one belongs to an earlier call, or comes earlier in the same package |
| `SocketTheorems.DoubleCheckSuffices` | skynet/skynet-src/socket_server.c:1592-1612 | a thread that has passed both checks holds the lock of an open fd with nothing parked, none of its own high packages waits in pipe or lists, and the fd stands between packages |
| `SocketTheorems.NothingLostWhileConnected` | skynet/skynet-src/socket_server.c:1575-1658 | while the socket is connected every package ever sent is in its thread's hand, waiting, or written in full |
| `SocketTheorems.CountersAndAsserts` | skynet/skynet-src/socket_server.c:726-793 | the low 16 bits of `sending` count the requests in flight, wb_size the unsent bytes of both lists, write interest is on when something waits, and the assertions at 727, 747 and 1131 hold |
| `SocketTheorems.TornWriteOnlyBeforeTheLock` | skynet/skynet-src/socket_server.c:409-436 | a direct write can follow a torn package only while force_close has begun to free the lists and not yet taken dw_lock |
| `SocketTheorems.FramedIffWindowUnused` | skynet/skynet-src/socket_server.c:409-436 | from any reachable state with the fd framed, a run keeps it framed exactly when nobody writes bytes directly between the freeing of a partly sent high head at line 419 and the lock at line 424 |
| `SocketTheorems.TornInTheWindow` | skynet/skynet-src/socket_server.c:415-424 | in a reachable state a direct write of at least one byte is torn exactly when it falls into that window |
| `SocketTheorems.WireFramedExactly` | skynet/skynet-src/socket_server.c:409-436 | in every run the fd is framed if and only if no direct write puts bytes on it after force_close has freed a partly sent high head (line 419) and before it takes dw_lock (line 424) |
| `SocketTheorems.TornWriteHappens` | skynet/skynet-src/socket_server.c:409-436 | a concrete run in which it does happen: half a package, a hang-up, a direct write before the lock is taken |
| `SocketPriority.LowWaitsForHigh` | skynet/skynet-src/socket_server.c:836-909 | in every run: when the first byte of a low priority package that found something waiting is written, the high list is empty and nothing is parked, and (while connected) every high package appended before is on the fd in full |
| `SocketPriority.FirstComeFirstServed` | skynet/skynet-src/socket_server.c:796-909 | in every run, across threads: of two packages put into the lists the same way, the later one starts only when the earlier one is on the fd in full |
| `SocketClose.GentleCloseKeepsData` | skynet/skynet-src/socket_server.c:937-965 | in every run without hang-up, failing write or shutdown, closing drops nothing from the lists, and drops a parked rest if and only if a direct write parked it after the second test of close_socket had read dw_buffer |
| `SocketClose.ParkedRestIsLost` | skynet/skynet-src/socket_server.c:937-965 | a run in which it does: the fd is closed over the second half of a package |
| `SocketDelivery.SendThenClose` | skynet/skynet-src/socket_server.c:850-965 | in every run without a hang-up, a failing write or shutdown: a package whose send call had returned before the first close call is on the fd in full when the fd is closed |
| `SocketEnds.ClosedAsAsked` | skynet/skynet-src/socket_server.c:937-965 | in every run: once a close request has left the pipe, the socket thread never polls an open connection again; after one with shutdown it does not poll before the fd is closed |
| `SocketEnds.ClosedWhenBroken` | skynet/skynet-src/socket_server.c:580-596 | in every run: after a hang-up or a failing write the socket thread does not poll before the fd is closed |
| `SocketEnds.OpenUntilTold` | skynet/skynet-src/socket_server.c:580-965 | in every run without a close call, a hang-up or a failing write the socket stays connected and frees nothing |
| `SocketEnds.NothingNewAfterClose` | skynet/skynet-src/socket_server.c:850-857 | once the socket is half closed, every byte any run still writes is of a package then listed, parked, or with a thread past all its checks |
| `SocketProgress.EverythingCanBeWritten` | skynet/skynet-src/socket_server.c:726-793 | from every reachable state at a poll, a write event can write all that is parked or listed, in that order and nothing else, and turns write interest off; a half-closed socket is then closed |
| `SocketProgress.CloseCanWriteEverything` | skynet/skynet-src/socket_server.c:937-965 | from every reachable state at a poll, the close request at the front of the pipe can write all that waits before it closes |
| `SocketProgress.IdleSocketWritesAtOnce` | skynet/skynet-src/socket_server.c:1575-1627 | from every reachable state with nothing to send, an undisturbed high priority send writes its package itself and changes nothing else |
| `SocketProgress.InterruptsDoNotMatter` | skynet/skynet-src/socket_server.c:583-588 | any run ends in the same state without its interrupted writes |
| `SocketTheorems.Reached` | skynet/skynet-src/socket_server.c:580-965 | every reachable state meets the whole invariant |
| `SocketTheorems.StepKeeps` | skynet/skynet-src/socket_server.c:580-965 | every step of every thread keeps the whole invariant |
| `SocketTheorems.NothingLostKept` | skynet/skynet-src/socket_server.c:580-965 | no step of a connected socket loses a package |
| `SocketInvariant.LockKeptByWorker` | skynet/skynet-src/socket_server.c:1592-1620 | a worker's step keeps dw_lock with exactly the thread that has locked and not yet unlocked it |
| `SocketInvariant.LockKeptByServer` | skynet/skynet-src/socket_server.c:765-793 | a step of the socket thread does the same |
| `SocketInvariant.ListKeptByServer` | skynet/skynet-src/socket_server.c:695-793 | besides that, the socket thread flushes the low list only with an empty high list and nothing parked, raises only into an empty high list, and leaves a closed socket empty |
| `SocketInvariant.LowKeptByServer` | skynet/skynet-src/socket_server.c:726-762 | the low list holds low packages only, and its head is partly sent only while it is being raised; a parked rest is a high package |
| `SocketInvariant.RequestsMoveOn` | skynet/skynet-src/socket_server.c:796-909 | the socket thread only moves requests from pipe to lists to wire, never back |
| `SocketInvariant.KnowledgeKeptByWorker` | skynet/skynet-src/socket_server.c:932-935 | what a worker has learnt from the reads of its check so far stays true when any worker moves |
| `SocketInvariant.KnowledgeKeptByServer` | skynet/skynet-src/socket_server.c:932-935 | what a worker has learnt from the reads of its check so far stays true while the socket thread appends, flushes and frees |
| `SocketInvariant.CountKeptByWorker` | skynet/skynet-src/socket_server.c:1104-1121 | inc_sending_ref adds one for exactly one request |
| `SocketInvariant.CountKeptByServer` | skynet/skynet-src/socket_server.c:1123-1134 | dec_sending_ref takes one for exactly one request, and finds one to take |
| `SocketInvariant.SizeKeptByServer` | skynet/skynet-src/socket_server.c:580-909 | wb_size stays the unsent bytes of both lists through appends, partial writes and raises |
| `SocketInvariant.UnsentWrite` | skynet/skynet-src/socket_server.c:580-610 | a partial write takes exactly its bytes off a list's unsent bytes |
| `SocketInvariant.InterestKeptByServer` | skynet/skynet-src/socket_server.c:726-909 | write interest is not lost while something waits |
| `SocketOrder.NothingOfMineWaits` | skynet/skynet-src/socket_server.c:1568-1571 | passing both checks means that nothing of the thread's own class waits |
| `SocketOrder.DirectWriteWaiting` | skynet/skynet-src/socket_server.c:1597-1621 | what a direct write does to wire and waiting packages |
| `SocketOrder.AppendWaiting` | skynet/skynet-src/socket_server.c:796-909 | appending a request moves it from the pipe to its place in the waiting order |
| `SocketOrder.FlushWaiting` | skynet/skynet-src/socket_server.c:726-762 | a flush writes from the first waiting package |
| `SocketOrder.DiscardWaiting` | skynet/skynet-src/socket_server.c:937-965 | closing drops one stretch of the waiting packages at a time |
| `SocketOrder.OrderKeptByWorker` | skynet/skynet-src/socket_server.c:1575-1658 | per thread and priority, wire and waiting packages stay in call order through a worker's step |
| `SocketOrder.OrderKeptByServer` | skynet/skynet-src/socket_server.c:580-965 | per thread and priority, wire and waiting packages stay in call order through a step of the socket thread |
| `SocketOrder.FrameKeptByWorker` | skynet/skynet-src/socket_server.c:1597-1621 | a direct write that is not torn keeps the fd framed |
| `SocketOrder.FrameKeptByServer` | skynet/skynet-src/socket_server.c:580-793 | a flush keeps the fd framed: it goes on with the package the fd stopped in |
| `WriteStream.ChunkFramed` | skynet/skynet-src/socket_server.c:580-610 | writing a prefix of a buffer keeps the fd framed if and only if it starts where the fd stops |
| `WriteStream.ChunkStops` | skynet/skynet-src/socket_server.c:580-610 | after a partial write the fd stops where the buffer goes on |
| `WriteStream.FlushFrames` | skynet/skynet-src/socket_server.c:580-610 | a flush of the first waiting buffer keeps the waiting framing |
| `WriteStream.PushFrontOrder` | skynet/skynet-src/socket_server.c:1607-1621 | parking a rest in front is in order when nothing of its class waits |
| `WriteStream.OvertakeOrder` | skynet/skynet-src/socket_server.c:796-833 | a high package may pass the low list |
| `WriteStream.FlushOrders` | skynet/skynet-src/socket_server.c:580-610 | a partial write keeps every order |
| `SchedulerTheorems.OneDispatcher` | skynet/skynet-src/skynet_server.c:297-351 | no two workers ever dispatch one service, and a dispatched service is not in the global list |
| `SchedulerTheorems.ExactlyOneToken` | skynet/skynet-src/skynet_mq.c:138-250 | a live queue with messages, or a released one, is in exactly one place: once in the global list or with one actor |
| `SchedulerTheorems.MessageLedger` | skynet/skynet-src/skynet_mq.c:138-250 | accepted messages are, in push order, the handed out ones, then the dropped ones, then the pending ones; a freed queue has none pending |
| `SchedulerTheorems.CountsAndLifetimes` | skynet/skynet-src/skynet_server.c:196-227 | `ref` equals slot, creator, grabs and reserves together; a context is deleted once, at zero, and its queue freed at most once, afterwards |
| `SchedulerTheorems.PushesReachLiveQueues` | skynet/skynet-src/skynet_server.c:229-239 | a push that has grabbed its context finds queue and context alive; that it then queues its message is `SchedulerCalls.PushArrives` |
| `SchedulerTheorems.CallbacksOnStarted` | skynet/skynet-src/skynet_server.c:260-284 | callbacks run only on live contexts whose init succeeded, on the message handed out last |
| `SchedulerTheorems.NobodyIsStuck` | skynet/skynet-src/skynet_server.c:297-351 | no actor ever holds a handle its next step cannot use |
| `SchedulerCalls.EveryMessageAccounted` | skynet/skynet-src/skynet_server.c:229-239 | in every run, for every service and message: the copies accepted, those with pushes under way, and those whose grab found no context are together the pushes called |
| `SchedulerCalls.PushArrives` | skynet/skynet-src/skynet_server.c:229-239 | a push whose grab finds the service ends with its message queued behind all accepted ones, once and unchanged, whatever other threads do between its steps |
| `SchedulerCalls.RetireTakesOut` | skynet/skynet-src/skynet_handle.c:71-109 | the first step of a retire call takes the service out of the table, whatever has happened since the call |
| `SchedulerCalls.RegisteredIff` | skynet/skynet-src/skynet_server.c:153-182 | in every run a service is found exactly from its creation to the first retirement step after it |
| `SchedulerCalls.StartedIff` | skynet/skynet-src/skynet_server.c:163-167 | in every run only services whose init has succeeded are started, and those still in the table all are |
| `SchedulerCalls.ReferencesFromCalls` | skynet/skynet-src/skynet_server.c:196-227 | in every run `ref` is one for the table, plus reserve calls less their releases, plus the actors that hold the context |
| `SchedulerCalls.WorkerTakesTurns` | skynet/skynet-src/skynet_server.c:340-350 | a worker whose turn ends takes the first queue of the global list and puts its own behind all that are there by then; with an empty list it keeps its own |
| `SchedulerCalls.WorkersGoOn` | skynet/skynet-src/skynet_server.c:297-351 | in every run the actors in the worker loop are exactly those started as workers |
| `SchedulerProgress.QueuesTakeTurns` | skynet/skynet-src/skynet_mq.c:44-75 | in any run, the queue with k before it in the global list is the next once k have been taken |
| `SchedulerProgress.EveryMessageCanBeHandled` | skynet/skynet-src/skynet_server.c:297-351 | from every reachable state every message waiting for a service that is up can still come to its callback, after those before it and no others |
| `SchedulerProgress.EveryQueueCanBeFreed` | skynet/skynet-src/skynet_mq.c:228-250 | from every reachable state the queue of a deleted context can still be freed, with its messages dropped in order |
| `SchedulerTheorems.Reached` | skynet/skynet-src/skynet_server.c:125-351 | every reachable state meets the whole invariant |
| `SchedulerTheorems.CurrentKept` | skynet/skynet-src/skynet_server.c:331-338 | the message a callback works on stays the last one handed out |
| `SchedulerSteps.StepKeeps` | skynet/skynet-src/skynet_server.c:125-351 | every step keeps tokens, counts, lifetimes and starts in order |
| `SchedulerSteps.OneTokenKept` | skynet/skynet-src/skynet_mq.c:44-75 | no step gives a queue a second token |
| `SchedulerSteps.LaunchPutsOnce` | skynet/skynet-src/skynet_server.c:163-172 | the creator's push does not enqueue a queue a second time |
| `SchedulerSteps.WantedKept` | skynet/skynet-src/skynet_mq.c:190-250 | a queue that needs a token keeps one |
| `SchedulerSteps.EmptiedIsUnwanted` | skynet/skynet-src/skynet_mq.c:160-167 | an empty pop gives up the token of a queue that needs none |
| `SchedulerSteps.RefInvKept` | skynet/skynet-src/skynet_server.c:196-227 | reference counts stay exact through every step |
| `SchedulerSteps.ReachesZero` | skynet/skynet-src/skynet_server.c:220-227 | a step that takes a count to zero leaves the context being deleted by that thread, or released |
| `SchedulerSteps.OneDeleter` | skynet/skynet-src/skynet_server.c:208-227 | a context has one deleting thread at most |
| `SchedulerSteps.LifeKept` | skynet/skynet-src/skynet_mq.c:219-250 | ledger, release flag and frees agree through every step |
| `SchedulerSteps.GrabbedIsStarted` | skynet/skynet-src/skynet_server.c:306-311 | a worker that finds its service in the table finds it started |
| `SchedulerSteps.StartKept` | skynet/skynet-src/skynet_server.c:163-181 | init and dispatch stay in order |
| `MessageQueue.Queue.constructor` | skynet/skynet-src/skynet_mq.c:77-96 | a new queue is empty and flagged as already in the global list |
| `MessageQueue.Queue.Push` | skynet/skynet-src/skynet_mq.c:189-209 | a push appends one message across wraps and doublings, and asks to be enqueued exactly when the flag was off |
| `MessageQueue.Queue.Pop` | skynet/skynet-src/skynet_mq.c:137-172 | a pop takes the oldest message, or reports empty and clears the flag; the overload threshold covers the length |
| `MessageQueue.Queue.Expand` | skynet/skynet-src/skynet_mq.c:174-187 | doubling keeps the messages and their order |
| `MessageQueue.Queue.MarkRelease` | skynet/skynet-src/skynet_mq.c:219-228 | marks once, and asks to be enqueued when the flag was off |
| `MessageQueue.GlobalQueue.Push` | skynet/skynet-src/skynet_mq.c:43-56 | the intrusive list grows by the queue at its end |
| `MessageQueue.GlobalQueue.Pop` | skynet/skynet-src/skynet_mq.c:58-75 | the first queue leaves the list with its link cleared, or the list was empty |
| `Rings.RingPush` | skynet/skynet-src/skynet_mq.c:194-201 | a cell written behind the used stretch becomes its end, wrapped or not |
| `Rings.RingPop` | skynet/skynet-src/skynet_mq.c:142-151 | moving the head one on, wrapped or not, takes the oldest |
| `TimingWheel.Run` | skynet/skynet-src/skynet_timer.c:95-185 | over any run of adds and ticks on a new wheel, with adds made during a dispatch too, tick k fires exactly the timers that the operations plan for k, in the order of their adds |
| `TimingWheel.FiresInPlace` | skynet/skynet-src/skynet_timer.c:59-116 | in the log of a run, a planned timer stands on its tick, behind exactly the earlier-added timers of that tick |
| `TimingWheel.FiresOnTheDthTick` | skynet/skynet-src/skynet_timer.c:95-185 | an add with delay d fires on exactly the d-th tick after it, behind the timers of that tick added before it |
| `TimingWheel.FiresOnce` | skynet/skynet-src/skynet_timer.c:160-185 | in the log of a run, by any tick as many events have fired as timers were planned up to it: none twice, none lost |
| `TimingWheel.Timer.Update` | skynet/skynet-src/skynet_timer.c:172-185 | a tick fires what is due and leaves every node in the slot add_node would choose at the new time |
| `TimingWheel.Timer.Add` | skynet/skynet-src/skynet_timer.c:95-106 | a timer enters the slot of its wrapped expiry and is due after its delay |
| `TimingWheel.Timer.Timeout` | skynet/skynet-src/skynet_timer.c:211-231 | a delay that is not positive is answered at once and adds nothing |
| `TimingWheel.Timer.AddNode` | skynet/skynet-src/skynet_timer.c:74-93 | one list grows by one node at its end: that of the slot for the node's expiry |
| `TimingWheel.Timer.MoveList` | skynet/skynet-src/skynet_timer.c:108-116 | a moved list is emptied into the slots its nodes belong to, in order |
| `TimingWheel.Timer.Shift` | skynet/skynet-src/skynet_timer.c:118-139 | after the increment and its cascade every slot holds what it should at the new time |
| `TimingWheel.Timer.CascadeNow` | skynet/skynet-src/skynet_timer.c:120-138 | the loop moves one slot, chosen by the wrapped clock, or none |
| `TimingWheel.Timer.ExecuteOnce` | skynet/skynet-src/skynet_timer.c:159-170 | the due list fires as a whole and leaves its slot; adds made while the lock is free go to other slots |
| `TimingWheel.Timer.Execute` | skynet/skynet-src/skynet_timer.c:159-170 | after a tick exactly the due timers fire; before it the list is empty |
| `TimingWheel.CascadeHolds` | skynet/skynet-src/skynet_timer.c:118-139 | moving one slot re-establishes the contents of every slot for the new time |
| `TimingWheel.DueNow` | skynet/skynet-src/skynet_timer.c:159-170 | the near slot of the clock holds exactly what is due now |
| `TimingWheel.LaterAdds` | skynet/skynet-src/skynet_timer.c:160-170 | timers added at or after a tick do not fire on it |
| `TimingWheel.TickWrapped` | skynet/skynet-src/skynet_timer.c:118-139 | where the 32-bit clock wraps to 0, slot 0 of the top level cascades; where its low byte is not 0, nothing does |
| `WheelTime.MaskComparesBlocks` | skynet/skynet-src/skynet_timer.c:79-89 | comparing two times with the mask's low bits set, as the loop of add_node does, compares their blocks |
| `WheelTime.MaskKeepsRest` | skynet/skynet-src/skynet_timer.c:80-80 | masking a time with a span less one gives its place within the block |
| `WheelTime.WrappedSlot` | skynet/skynet-src/skynet_timer.c:74-93 | the slot chosen on the 32-bit clock is the one a clock that never wraps would choose, for delays below 2^31 |
| `WheelTime.BlocksAgree` | skynet/skynet-src/skynet_timer.c:79-91 | blocks compare and index the same on both clocks |
| `WheelTime.NoneBelow` | skynet/skynet-src/skynet_timer.c:118-139 | a slot below the cascading level holds nothing before the cascade |
| `WheelTime.CascadeBlock` | skynet/skynet-src/skynet_timer.c:128-137 | the cascading slot holds exactly the timers of the block now entered |
| `WheelTime.CascadeMoves` | skynet/skynet-src/skynet_timer.c:108-139 | by the cascade the timers of the cascading slot move to lower levels and no other timer's slot changes |
| `WheelTime.NoCascade` | skynet/skynet-src/skynet_timer.c:118-139 | without a cascade no timer's slot changes |
| `WheelTime.DueSlot` | skynet/skynet-src/skynet_timer.c:160-170 | a timer is in the near slot of the clock if and only if it is due |
| `Bignum.Multadd` | game_room/luaclib-src/lua-cjson/dtoa.c:612-667 | the result is b * m + a, with no high zero limb |
| `Bignum.MulAddLoop` | game_room/luaclib-src/lua-cjson/dtoa.c:636-655 | limbs and carry together are x * m + a; every accumulator fits |
| `Bignum.Accumulate` | game_room/luaclib-src/lua-cjson/dtoa.c:638-640 | limb * y + add + carry fits 64 bits and splits into two limbs |
| `Bignum.PushCarry` | game_room/luaclib-src/lua-cjson/dtoa.c:656-665 | a carry becomes the top limb, in a larger copy when there is no room |
| `Bignum.Mult` | game_room/luaclib-src/lua-cjson/dtoa.c:805-913 | the result is a * b, with no high zero limb |
| `Bignum.MultRows` | game_room/luaclib-src/lua-cjson/dtoa.c:846-859 | the rows of the schoolbook product add up to a * b |
| `Bignum.MultRow` | game_room/luaclib-src/lua-cjson/dtoa.c:847-858 | a row adds y times a at its offset and changes nothing else |
| `Bignum.RowCounts` | game_room/luaclib-src/lua-cjson/dtoa.c:846-859 | a row at offset j counts BASE^j times |
| `Bignum.Trimmed` | game_room/luaclib-src/lua-cjson/dtoa.c:910-911 | dropping high zero limbs keeps the value and leaves a non-zero top limb |
| `Bignum.Cmp` | game_room/luaclib-src/lua-cjson/dtoa.c:1034-1066 | the sign of the result is the order of the values if and only if the numbers are not the two forms of zero, without limbs and with one |
| `Bignum.CmpLimbs` | game_room/luaclib-src/lua-cjson/dtoa.c:1059-1065 | the highest differing limb decides |
| `Bignum.Diff` | game_room/luaclib-src/lua-cjson/dtoa.c:1068-1160 | the result is the absolute difference, with the sign of the order |
| `Bignum.SubCommon` | game_room/luaclib-src/lua-cjson/dtoa.c:1114-1119 | limb differences and the borrow are a - b on the common limbs |
| `Bignum.SubRest` | game_room/luaclib-src/lua-cjson/dtoa.c:1120-1124 | the borrow runs exactly through the rest |
| `Bignum.NoBorrow` | game_room/luaclib-src/lua-cjson/dtoa.c:1114-1124 | a larger minuend leaves no borrow |
| `LimbValue.BorrowStep` | game_room/luaclib-src/lua-cjson/dtoa.c:1115-1117 | bit 32 of the wrapped 64-bit difference is the borrow, its low half the limb |
| `Bignum.Lshift` | game_room/luaclib-src/lua-cjson/dtoa.c:974-1032 | the result is b * 2^k, with a non-zero top limb when b has one; a zero without limbs too, if there is a limb behind its last |
| `Bignum.ShiftLimb` | game_room/luaclib-src/lua-cjson/dtoa.c:1006-1007 | a shifted limb or-ed with z, and the bits it passes on, are limb * 2^k + z |
| `Arithmetic.OrDisjoint` | game_room/luaclib-src/lua-cjson/dtoa.c:1006-1006 | the or of a number shifted by k bits and one below 2^k is their sum |
| `Bignum.ShiftBits` | game_room/luaclib-src/lua-cjson/dtoa.c:1002-1028 | the shifted limbs and the extra one are x * 2^bits |
| `Bignum.Pow5mult` | game_room/luaclib-src/lua-cjson/dtoa.c:917-972 | the result is b * 5^k, whatever of the power list exists, and the list stays right |
| `Bignum.PowerLoop` | game_room/luaclib-src/lua-cjson/dtoa.c:948-970 | squaring through the list multiplies by 5^(4k) |
| `Bignum.PowerList.Grow` | game_room/luaclib-src/lua-cjson/dtoa.c:934-969 | the j-th cached number is 5^(4 * 2^j) |
| `Quorem.QuoRem` | game_room/luaclib-src/lua-cjson/dtoa.c:2119-2241 | b is split into q * S and what is left; that is floor(b / S) and b mod S if and only if less than 2 * S is left after the estimate, as it is for top limbs of S from 2^16 on |
| `Quorem.Estimate` | game_room/luaclib-src/lua-cjson/dtoa.c:2149-2149 | for top limbs of S from 2^16 on the estimate leaves less than 2 * S |
| `Quorem.EstimateBelow` | game_room/luaclib-src/lua-cjson/dtoa.c:2149-2149 | the estimate is never too large, whatever the top limb of S |
| `Quorem.EstimateFallsShort` | game_room/luaclib-src/lua-cjson/dtoa.c:2149-2149 | for S = 2^32 the estimate of (2^32 - 1) * 2^32 leaves more than one correction can take away |
| `Quorem.EstimateHigh` | game_room/luaclib-src/lua-cjson/dtoa.c:2149-2149 | after the estimate less than 2 * S is left of b, for top limbs of S from 2^16 on |
| `Quorem.SubMul` | game_room/luaclib-src/lua-cjson/dtoa.c:2160-2190 | the multiply-and-subtract loop leaves b - q * S, and the excess in carry and borrow |
| `Quorem.Reduce` | game_room/luaclib-src/lua-cjson/dtoa.c:2160-2197 | subtracting q * S from a b that holds it leaves the exact rest, normalised |
| `Quorem.Correct` | game_room/luaclib-src/lua-cjson/dtoa.c:2198-2239 | the conditional subtraction brings the rest below S if and only if less than 2 * S was left |
| `Quorem.TrimTop` | game_room/luaclib-src/lua-cjson/dtoa.c:2191-2196 | trimming keeps the value |
| `LimbValue.ValCompare` | game_room/luaclib-src/lua-cjson/dtoa.c:1059-1065 | numbers of equal length are ordered by their highest differing limb |
| `LimbValue.FewerLimbs` | game_room/luaclib-src/lua-cjson/dtoa.c:1053-1054 | a shorter number is smaller than one with a non-zero top limb |
| `RwLock.MutualExclusion` | skynet/skynet-src/rwlock.h:17-48 | for any number of threads stepping one atomic instruction at a time, a writer is never inside with a reader or another writer, and `read` counts exactly the threads past its increment |
| `RwLock.EverybodyOut` | skynet/skynet-src/rwlock.h:17-48 | when all have left, both words are zero |
| `RwLock.FreeLockAdmits` | skynet/skynet-src/rwlock.h:17-38 | a thread at an unused lock gets in with its own instructions |
| `RwLock.SpinExcludes` | skynet/skynet-src/rwlock.h:17-38 | entering a section keeps exclusion: the reader has seen no owner, the writer no reader |
| `RwLock.SpinKeeps` | skynet/skynet-src/rwlock.h:17-38 | every instruction inside the lock operations keeps the lock's invariant |
| `RwLock.UnlockKeeps` | skynet/skynet-src/rwlock.h:40-48 | both unlocks keep the lock's invariant |
| `LockProgress.EverybodyGetsIn` | skynet/skynet-src/rwlock.h:17-48 | from every reachable state a thread that has asked for the lock can get into its section |
| `LockProgress.WriterHoldsReadersBack` | skynet/skynet-src/rwlock.h:17-38 | while `write` is set no further thread comes to its increment of `read` |
| `StmTheorems.CopyFreedOnce` | skynet/lualib-src/lua-stm.c:47-55 | a copy is freed at most once; from then on no box refers to it, and it is installed only while the writer, inside the lock, is about to clear obj->copy |
| `StmTheorems.NothingLeaks` | skynet/lualib-src/lua-stm.c:47-115 | between calls exactly the copies neither installed nor a reader's last copy have been freed |
| `StmTheorems.TakesTheInstalledCopy` | skynet/lualib-src/lua-stm.c:93-104 | a reader counts itself in on the installed copy, which is alive |
| `StmTheorems.LastCopyLives` | skynet/lualib-src/lua-stm.c:205-219 | a reader's last copy is alive, so its address identifies it |
| `StmTheorems.ObjectFreedOnce` | skynet/lualib-src/lua-stm.c:57-83 | the object is freed once, exactly when writer, readers and handed-out references are gone |
| `StmAfterFree.AccessAfterFree` | skynet/lualib-src/lua-stm.c:71-83 | in every run, once the object is freed the only steps that touch it are the unlocks of readers that have counted down, and there is one exactly when such a reader is there |
| `StmAfterFree.FreedUnderAReader` | skynet/lualib-src/lua-stm.c:57-83 | the object is touched after its free if and only if another reader stands between its count-down and its unlock at that moment; never when the writer frees it |
| `StmAfterFree.UnlockAfterFreeHappens` | skynet/lualib-src/lua-stm.c:71-83 | a run in which it is: two readers, the first counts down, the second frees, the first unlocks |
| `StmAfterFree.NobodyFollows` | skynet/lualib-src/lua-stm.c:71-83 | after the free no further reader comes to its unlock |
| `StmAfterFree.WriterLeftKept` | skynet/lualib-src/lua-stm.c:57-69 | a writer that leaves the object to its readers unlocks it before the last of them counts down |
| `StmTheorems.AssertionsHold` | skynet/lualib-src/lua-stm.c:57-91 | the assertions at 59, 78 and 90 never fail |
| `StmTheorems.WriterAlone` | skynet/lualib-src/lua-stm.c:106-112 | while the writer works on obj->copy no other box is inside the lock; what the update leaves is `StmReads.LatestUpdateInstalled` |
| `StmTheorems.NobodyIsStuck` | skynet/lualib-src/lua-stm.c:57-115 | a box in the middle of a call has a next step |
| `StmReads.LatestUpdateInstalled` | skynet/lualib-src/lua-stm.c:106-115 | in every run: whenever the writer is at rest, the copy its latest update made (or stm_new) is installed |
| `StmReads.ReadsAnswer` | skynet/lualib-src/lua-stm.c:205-232 | in every run a reader has answered each of its looks but the one it is at, and called a copy new exactly when there was one and the look before saw another |
| `StmReads.HoldsWhatItSaw` | skynet/lualib-src/lua-stm.c:194-219 | between reads a reader holds exactly the copy it saw last; a deleted one holds none |
| `StmReads.NeverBack` | skynet/lualib-src/lua-stm.c:93-115 | the looks of a reader go to later updates, and to nothing once the writer is gone; never back |
| `StmReads.GrabsCount` | skynet/lualib-src/lua-stm.c:85-91 | every finished lcopy has handed out one reference, which one reader box takes up |
| `StmProgress.ReadAlone` | skynet/lualib-src/lua-stm.c:205-232 | from every reachable state with no writer at the lock, an undisturbed read gets and keeps the installed copy, is told whether it is new, and leaves the rest as it was |
| `StmProgress.UpdateAlone` | skynet/lualib-src/lua-stm.c:106-115 | from every reachable state with the lock unused, an undisturbed update installs its copy and leaves the rest as it was |
| `StmInvariant.StepKeeps` | skynet/lualib-src/lua-stm.c:47-219 | every step keeps the counts of copies and object |
| `StmInvariant.InstalledStays` | skynet/lualib-src/lua-stm.c:106-112 | obj->copy does not change under a thread that is inside the lock |
| `StmInvariant.CopyTake` | skynet/lualib-src/lua-stm.c:95-100 | the increment of a reader lands on a copy that still counts for the object |
| `StmInvariant.CopyKept` | skynet/lualib-src/lua-stm.c:47-219 | every copy's count equals its holders through every step |
| `StmInvariant.ObjectKept` | skynet/lualib-src/lua-stm.c:57-91 | the object's count equals its holders through every step |
| `HandleTable.Storage.Register` | skynet/skynet-src/skynet_handle.c:34-71 | the first handle tried whose slot is free, new and non-zero, is added to the map from handles to contexts; the table doubles exactly when full; the assertion fails exactly when nothing is found in a table that cannot grow; a NULL slot is read if and only if the pass wraps, slot 0 is free and every other slot is taken |
| `HandleTable.Storage.Scan` | skynet/skynet-src/skynet_handle.c:41-58 | a pass takes the first handle tried whose slot is free; it fails exactly when all slots it can meet are taken: all slots, or all but slot 0 when it goes past HANDLE_MASK |
| `HandleTable.Storage.Spread` | skynet/skynet-src/skynet_handle.c:60-66 | the copying loop gets through exactly when no slot is free; it never meets an occupied slot and finds every context again |
| `HandleTable.Storage.Double` | skynet/skynet-src/skynet_handle.c:59-69 | a doubled table stands for the same map and has room |
| `HandleTable.Storage.Grab` | skynet/skynet-src/skynet_handle.c:136-153 | a context is found exactly for registered, unretired handles |
| `HandleTable.Storage.Retire` | skynet/skynet-src/skynet_handle.c:73-110 | exactly the handle and its names leave; its context is returned |
| `HandleTable.Storage.RetireAll` | skynet/skynet-src/skynet_handle.c:112-134 | the passes end with the table empty; the names left are those whose handle was not live |
| `HandleTable.Storage.FindName` | skynet/skynet-src/skynet_handle.c:155-183 | the binary search agrees with the map of names |
| `HandleTable.Storage.NameHandle` | skynet/skynet-src/skynet_handle.c:211-244 | a new name is bound, a known one keeps its binding |
| `HandleTable.Storage.InsertNameBefore` | skynet/skynet-src/skynet_handle.c:185-209 | the entry is inserted at its place, in place or, when the array is full, in one twice as large |
| `HandleTable.Storage.Compact` | skynet/skynet-src/skynet_handle.c:86-97 | compaction keeps the other names in order |
| `HandleTable.Storage.constructor` | skynet/skynet-src/skynet_handle.c:246-263 | an empty table and no names |
| `HandleTable.ScanMeets` | skynet/skynet-src/skynet_handle.c:43-48 | a pass that does not reach the end of the handles meets every slot |
| `HandleTable.WrappedScanMeets` | skynet/skynet-src/skynet_handle.c:43-48 | a pass that goes past HANDLE_MASK meets every slot but slot 0 |
| `HandleTable.WrappedScanMisses` | skynet/skynet-src/skynet_handle.c:43-48 | such a pass never meets slot 0, although it tries as many handles as there are slots |
| `HandleTable.StuckHappens` | skynet/skynet-src/skynet_handle.c:41-65 | a history of registrations and retirements after which the next registration reads the handle of a NULL slot |
| `Arithmetic.AndLowOnes` | skynet/skynet-src/skynet_handle.c:47-47 | masking with a power of two less one gives the remainder |
| `HandleTable.DoubledSlot` | skynet/skynet-src/skynet_handle.c:62-65 | a context's new slot lies over its old one |
| `HandleTable.HarborDoesNotMatter` | skynet/skynet-src/skynet_handle.c:48-55 | the harbor bits do not change the slot |
| `HandleNames.InsertAdds` | skynet/skynet-src/skynet_handle.c:211-233 | inserting where the search stops adds exactly one binding and keeps the order |
| `HandleNames.WithoutRemoves` | skynet/skynet-src/skynet_handle.c:86-97 | compaction removes exactly the names of the handle |
| `HandleNames.ProbeDecides` | skynet/skynet-src/skynet_handle.c:165-178 | one probe decides for a whole side of a sorted array |
| `HandleNames.SplitMeansAbsent` | skynet/skynet-src/skynet_handle.c:214-227 | a search that ends without a match has shown the name absent |
| `SymbolMap.Map.Query` | game_room/luaclib-src/pbc/map.c:379-399 | the query agrees with the abstract map |
| `SymbolMap.Map.InsertHash` | game_room/luaclib-src/pbc/map.c:277-304 | a new key is added to the map, with a rehash first when full |
| `SymbolMap.Map.QueryInsert` | game_room/luaclib-src/pbc/map.c:324-365 | returns the slot of the key, added with a NULL pointer when it was absent |
| `SymbolMap.Map.Rehash` | game_room/luaclib-src/pbc/map.c:306-322 | twice the slots, the same map |
| `SymbolMap.Map.Walk` | game_room/luaclib-src/pbc/map.c:336-344 | the walk ends, at the key or at the end of its home's chain, and finds every key the map holds |
| `SymbolMap.Map.Store` | game_room/luaclib-src/pbc/map.c:324-341 | writing through the returned address changes that key alone |
| `SymbolMap.Map.Probe` | game_room/luaclib-src/pbc/map.c:288-291 | the probe ends at a free slot |
| `SymbolMap.Map.constructor` | game_room/luaclib-src/pbc/map.c:250-264 | an empty map whose size is the least power of two that is enough |
| `SymbolMap.CopiedMore` | game_room/luaclib-src/pbc/map.c:316-318 | reinserting one slot adds one entry that was not there |
| `ChainedSlots.HomeKeeps` | game_room/luaclib-src/pbc/map.c:283-286 | a key at home starts a chain without touching the others |
| `ChainedSlots.AfterKeeps` | game_room/luaclib-src/pbc/map.c:288-297 | linking a free slot in keeps chains acyclic and every key behind its home |
| `ChainedSlots.WalkOn` | game_room/luaclib-src/pbc/map.c:390-398 | a walk that has not met its key still has it ahead |
| `ChainedSlots.WalkEnds` | game_room/luaclib-src/pbc/map.c:390-398 | a link leads further on, so walks end |
| `IdMap.Map.constructor` | game_room/luaclib-src/pbc/map.c:139-166 | either form stands for the table; the array form is taken exactly when every id lies between 0 and twice the size |
| `IdMap.Map.Query` | game_room/luaclib-src/pbc/map.c:213-234 | both forms answer as the table says |
| `IdMap.Map.FillHash` | game_room/luaclib-src/pbc/map.c:108-137 | the hash form lists the table, and its free-slot index never has to look back |
| `IdMap.Map.FillDirect` | game_room/luaclib-src/pbc/map.c:156-165 | the array form lists the table |
| `IdMap.Small` | game_room/luaclib-src/pbc/map.c:142-155 | the early exits decide whether all ids fit |
| `Netpack.Feed` | skynet/lualib-src/lua-netpack.c:227-307 | for any events of a caller that pops everything in between, every id gets exactly the packages of its own stream, in order |
| `Netpack.Serve` | skynet/lualib-src/lua-netpack.c:227-410 | for any events and pops in any order, what the caller gets and what is queued are those of the service |
| `PackageService.NothingLost` | skynet/lualib-src/lua-netpack.c:227-410 | whatever the order of events and pops, each completed package is with the caller or in the queue, once |
| `PackageService.InOrderIff` | skynet/lualib-src/lua-netpack.c:261-306 | the packages of every id come out in stream order if and only if no single package was handed over while packages of its id were queued |
| `PackageService.StreamsInOrder` | skynet/lualib-src/lua-netpack.c:227-410 | then caller and queue together have exactly the packages of every id's own streams, in order |
| `PackageService.OvertakingHappens` | skynet/lualib-src/lua-netpack.c:261-306 | two packages in one chunk are queued, and the next one is handed over before them |
| `PackageService.PopsDoNotMatter` | skynet/lualib-src/lua-netpack.c:227-410 | the packages completed depend on the events alone, not on when pops come |
| `PackageStream.CutsDoNotMatter` | skynet/lualib-src/lua-netpack.c:227-307 | the packages an id gets depend on its bytes alone, not on chunks or other ids; the incomplete end is kept |
| `PackageStream.CutAnywhere` | skynet/lualib-src/lua-netpack.c:188-215 | a stream may be cut at any byte |
| `PackageStream.RoundTrip` | skynet/lualib-src/lua-netpack.c:182-215 | framed packages come back as they were, with nothing left |
| `PackageStream.RestIsIncomplete` | skynet/lualib-src/lua-netpack.c:188-215 | what is kept of a stream never holds a complete package |
| `Netpack.Queue.Filter` | skynet/lualib-src/lua-netpack.c:227-307 | what is returned and queued are the packages the chunk completes; the rest stays pending for its id |
| `Netpack.Queue.Fill` | skynet/lualib-src/lua-netpack.c:231-269 | an incomplete package is continued, even from one header byte |
| `Netpack.Queue.Begin` | skynet/lualib-src/lua-netpack.c:270-306 | a chunk without a predecessor is cut up |
| `Netpack.Queue.PushMore` | skynet/lualib-src/lua-netpack.c:188-215 | all further packages of a chunk are queued, its end kept |
| `Netpack.Queue.FindUncomplete` | skynet/lualib-src/lua-netpack.c:92-114 | the id's incomplete package is found and unlinked, nothing else changes |
| `Netpack.Queue.Save` | skynet/lualib-src/lua-netpack.c:169-180 | an incomplete package is linked in under its id |
| `Netpack.Queue.PushData` | skynet/lualib-src/lua-netpack.c:150-167 | a package is appended to the ring, growing it when full |
| `Netpack.Queue.ExpandQueue` | skynet/lualib-src/lua-netpack.c:133-148 | growing keeps packages and order |
| `Netpack.Queue.Pop` | skynet/lualib-src/lua-netpack.c:396-410 | the oldest package, or nothing |
| `Netpack.Queue.CloseUncomplete` | skynet/lualib-src/lua-netpack.c:217-225 | the incomplete package of a closed id is dropped |
| `Netpack.Queue.Handle` | skynet/lualib-src/lua-netpack.c:338-410 | an event followed by popping yields exactly the packages it completes |
| `SeriFormat.RoundTrip` | skynet/lualib-src/lua-seri.c:297-553 | unpacking the packed form of a value gives the value and consumes exactly its bytes |
| `SeriFormat.AllRoundTrip` | skynet/lualib-src/lua-seri.c:343-612 | luaseri_unpack undoes luaseri_pack on argument lists |
| `SeriFormat.DepthLimit` | skynet/lualib-src/lua-seri.c:297-340 | packing fails exactly for unsupported values and for elements nested more than 32 tables deep |
| `SeriFormat.IntegerRoundTrip` | skynet/lualib-src/lua-seri.c:143-174 | every 64-bit integer is read back from the width it was written in |
| `SeriFormat.StringRoundTrip` | skynet/lualib-src/lua-seri.c:191-213 | strings of all three length classes are read back |
| `SeriFormat.ArraySizeRoundTrip` | skynet/lualib-src/lua-seri.c:218-227 | array sizes are read back, those from 31 on behind an escape |
| `SeriFormat.TableRoundTrip` | skynet/lualib-src/lua-seri.c:283-294 | array part and pairs of a table are read back up to the closing nil |
| `SeriBytes.IntegerBytes` | skynet/lualib-src/lua-seri.c:143-174 | the bytes of every integer as numbers: 02, 0a, 12, 22 or 32 by range, then 0, 1, 2, 4 or 8 bytes, least significant first |
| `SeriBytes.StringBytes` | skynet/lualib-src/lua-seri.c:191-213 | the bytes of every string as numbers: length in the tag below 32, else 15 or 25 and a length of 2 or 4 bytes |
| `SeriBytes.TagBytes` | skynet/lualib-src/lua-seri.c:131-141 | nil is 00, false 01, true 09 |
| `SeriBytes.WordBytes` | skynet/lualib-src/lua-seri.c:177-189 | a real is 42 and a pointer 03, each with its 8 bytes |
| `SeriBytes.PlainBytes` | skynet/lualib-src/lua-seri.c:297-318 | integers and strings are packed so at any depth |
| `SeriBytes.TableBytes` | skynet/lualib-src/lua-seri.c:218-294 | the size of the array part in the tag below 31, else fe and the size as an integer; array part, pairs, 00 |
| `SeriBytes.PartsBytes` | skynet/lualib-src/lua-seri.c:229-257 | the elements of a table follow each other, and each key comes before its value |
| `SeriBytes.Shortest` | skynet/lualib-src/lua-seri.c:297-553 | whatever bytes the reader takes for a value, they are at least as many as the packer writes: 1, 2, 3, 5 or 9 for an integer |
| `Serializer.WriteBlock.Push` | skynet/lualib-src/lua-seri.c:65-85 | pushing appends the bytes, however they fall on the blocks |
| `Serializer.WriteBlock.NextBlock` | skynet/lualib-src/lua-seri.c:68-72 | a new block is linked in behind the full one |
| `Serializer.WriteBlock.Seri` | skynet/lualib-src/lua-seri.c:534-553 | the block chain is copied out as one buffer |
| `Serializer.WriteBlock.PackOne` | skynet/lualib-src/lua-seri.c:296-340 | the packed form, whose bytes `SeriBytes` gives as numbers, is appended, or packing fails exactly when the value cannot be packed |
| `Serializer.WriteBlock.PackElements` | skynet/lualib-src/lua-seri.c:229-234 | the array part is appended in order |
| `Serializer.WriteBlock.PackHash` | skynet/lualib-src/lua-seri.c:239-257 | the pairs and the closing nil are appended |
| `Serializer.PackAll` | skynet/lualib-src/lua-seri.c:599-612 | the buffer that is returned is the packed forms of the arguments, byte for byte as `SeriBytes` says, and unpacks to them |
| `Kmp.StringSearch` | game_room/client/select.h:308-347 | the result is the first occurrence, or -1 when there is none, if and only if the pattern has two letters or more, or its one letter is not in the text; otherwise it is -1 |
| `Kmp.StringTable` | game_room/client/select.h:281-305 | every entry is the longest proper border of its prefix |
| `Kmp.CandidateFits` | game_room/client/select.h:289-294 | a fitting candidate extends to the longest border |
| `Kmp.CandidateFallsBack` | game_room/client/select.h:295-298 | falling back through the table misses no candidate |
| `Kmp.SkipsNothing` | game_room/client/select.h:325-345 | no occurrence lies between a failure and the place the table shifts to |
| `Kmp.ShortPatternsMissed` | game_room/client/select.h:310-313 | the patterns "b" and "" occur in "ab", for which the search says -1 |
| `Kmp.ShortInputs` | game_room/client/select.h:310-313 | for a text or pattern of fewer than two letters, -1 is right exactly when the pattern is longer than that, or is one letter that the text lacks; never for an empty pattern |
| `KeyExchange.MulModP` | skynet/lualib-src/lua-crypt.c:717-737 | a * b mod P for every a up to P and every b, although sums wrap |
| `KeyExchange.PowModP` | skynet/lualib-src/lua-crypt.c:739-750 | a^b mod P for b from 1 on, except that P to the 1 comes back as P |
| `KeyExchange.PowerModP` | skynet/lualib-src/lua-crypt.c:752-758 | a^b mod P if and only if not a = P and b = 1 |
| `KeyExchange.UnreducedBase` | skynet/lualib-src/lua-crypt.c:752-758 | P to the 1 is 0 modulo P, where powmodp returns P |
| `KeyExchange.Agreement` | skynet/lualib-src/lua-crypt.c:775-810 | both sides derive the same non-zero key from any non-zero secrets |
| `KeyExchange.SharedSecret` | skynet/lualib-src/lua-crypt.c:775-810 | (5^x mod P)^y is 5^(xy) modulo P |
| `KeyExchange.NeverZero` | skynet/lualib-src/lua-crypt.c:790-810 | no power of 5 is a multiple of P, so no exchanged key is refused |
| `KeyExchange.Exchange` | skynet/lualib-src/lua-crypt.c:792-810 | zero is refused; every other secret x gives 5^x mod P, which is not zero; that P is the prime it should be is `KeyPrime.PIsPrime` and `KeyPrime.NoPrimeBeyond` |
| `KeyExchange.Secret` | skynet/lualib-src/lua-crypt.c:775-788 | zero arguments are refused; otherwise x^y mod P, or P for the pair P, 1 |
| `KeyPrime.PIsPrime` | skynet/lualib-src/lua-crypt.c:714-715 | P is a prime |
| `KeyPrime.NoPrimeBeyond` | skynet/lualib-src/lua-crypt.c:714-715 | no number from P + 1 to 2^64 - 1 is a prime: P is the biggest 64-bit prime |
| `KeyPrime.GGenerates` | skynet/lualib-src/lua-crypt.c:790-790 | the order of 5 modulo P is P - 1 |
| `KeyPrime.KeysDiffer` | skynet/lualib-src/lua-crypt.c:790-810 | different secrets below P have different public keys |
| `KeyPrime.EveryKey` | skynet/lualib-src/lua-crypt.c:790-810 | every number from 1 to P - 1 is the public key of a secret below P |
| `KeyPrime.SmallSecrets` | skynet/lualib-src/lua-crypt.c:792-810 | the public keys of 1, 2 and 28 are 5, 25 and 359414837200037511 |

## Left out

- UDP, user objects, and the bind, listen, connect and accept paths of `socket_server.c`; slot reuse by a later id; traffic statistics and size warnings.
- Lists of the write path are sequences in the state machine, not linked nodes; sends are assumed to come after the id has been reported open, with plain buffers.
- Fairness: what every run keeps is proved, and from every reachable state that the work can be completed (`SocketProgress`, `SchedulerProgress`, `LockProgress`); not that a given schedule completes it. `StmProgress` follows a read and an update only where nobody is in their way.
- Weak memory: every machine here is sequentially consistent.
- Scheduler: registering and creating the queue (`skynet_server.c:155-156`) is one step, and so is the success tail (163-172); handles are not reused; the weight rule is replaced by an arbitrary number of messages per dispatch; context totals, profiling, monitors and logging; `skynet_context_dispatchall`.
- Scheduler: the error report for a dropped message is an ordinary push by another activity.
- Timer: reading the system clock and catching up several ticks (`skynet_updatetime`); list nodes are list elements, and delays are below 2^31.
- Bignum: `strtod` and `dtoa` themselves, free lists and the lock around the power list; the list `p5s` is a sequence.
- Quorem.QuoRem: does not cover a top limb of S equal to 2^32 - 1, for which the program divides by 0.
- Bignum.Lshift: takes a zero without limbs only if its first limb is 0, as trimming leaves it, and if there is a limb behind the last one, which `lshift` writes; `quorem` and `diff` read that first limb too.
- Bignum.Diff: does not cover two numbers without limbs, nor the two forms of zero together, for which `cmp` and the trimming loop run off the front of the array.
- Stm: `lread` and `ldeletereader` hand their last copy on before or after the pointer is overwritten: the two cannot be told apart outside the box. Lua metatables and values.
- HandleTable.Storage.RetireAll: does not model registrations by other threads between the passes.
- Handle table: the reference a grab takes is part of the scheduler model.
- Hash maps: `_pbcM_si_*`, `_pbcM_ip_combine` and the iterators; `SymbolMap` takes `calc_hash` as an arbitrary function.
- SymbolMap.Map.InsertHash: does not model inserting a key that is already there, which the source would enter twice.
- Netpack: buffers are byte sequences and the hash chains sequences of records; the Lua dispatch around it; conversions to strings.
- Netpack.Feed: models a caller that pops everything before the next event; `Netpack.Serve` models every caller.
- Netpack.Queue.Handle: requires an empty ring, as `Netpack.Feed` leaves it.
- Serializer: tables with a `__pairs` metamethod; Lua stack limits; the byte order of other machines. Reading is modelled on byte sequences: the cursor of `read_block` is the rest of the bytes. A table is its array part and its other pairs in iteration order; building the Lua table from them is not part of this model.
- Key exchange: the byte strings the numbers come in; the other ciphers and hashes of `lua-crypt.c`.
- `service_harbor.c`, the websocket packer, and the other codecs.
