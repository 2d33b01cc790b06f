# Verified models of the concurrent and stream-handling code

This project models the parts of the repository whose correctness depends on interleavings or on
in-place buffer handling, and proves what they keep in every run: the thread pool, the epoll echo
server, the threaded and the forking server's bookkeeping, the two producer/consumer programs, and
the two string kernels of the HTTP servers. `dafny verify dfyconfig.toml` checks all of it.

Each concurrent program is a transition system: a state, a `Step` type, `Enabled` and `Apply`, and
runs as lists of steps (`Legal`, `Exec`). Results are about every run, every number of threads and
every capacity. The code that the steps stand for is also given as methods that update fields and
arrays in place, proved equal to the functions the steps use.

## The thread pool

- `PoolModel.dfy`: the data under the mutexes and what each lock-held region does to it.
- `ThreadPool.dfy`: the pool object with its ring and its `threads` array; one method per region.
- `PoolMachine.dfy`: workers, callers of `threadpool_add`, adjuster and destroyer. One step is one
  lock-held region, one update of `busy_thr_num`, one unlocked access to `shutdown`, one signal,
  broadcast, join or spurious wake-up.
- `PoolCounting.dfy`, `PoolInvariants.dfy`: the inductive invariant, part by part.
- `PoolTheorems.dfy`, `PoolProgress.dfy`, `PoolShutdown.dfy`: results over all runs.
- `PoolAdjuster.dfy`: what the adjuster decides, and what a shrink round of an idle pool achieves.
- `PoolRange.dfy`, `PoolJoin.dfy`, `PoolDestroy.dfy`: exactly when `threadpool_destroy` returns with
  every worker gone, from the state in which it is called.
- `PoolCounterexamples.dfy`: runs in which stronger claims fail.

`wait_exit_thr_num` is not set by `threadpool_create`; it starts as an arbitrary number.
`is_thread_alive` is an oracle that never calls a thread dead that is still there and may go on
calling one alive that has left. Tasks return. A run is *tidy* while no worker has retired and the
pool has not grown after shutdown; a retirement is *hasty* if tasks are queued at that moment.
If `wait_exit_thr_num` starts at most 0 and no shrink round runs, nobody retires
(`NoShrinkRoundNoRetirement`).

Three things one might expect of the pool do not hold in general, and the project says when they do:

- Adding to the queue is first-in first-out exactly unless the call meets a full queue after
  shutdown (`threadpool_add` does not return when it sees the flag, lines 137-139).
- A queued task can be left with every worker asleep after a shrink round: `wait_exit_thr_num` stays
  at ten although nobody took the ten signals, and the next task's signal makes its receiver retire
  (`WakeUpLostAfterShrinking`, `StrandedForGood`). `WakeUpLostExactlyByRetiring` names the one kind
  of step that does it, by its guard, and `NoLostWakeUp` says so for whole runs.
- `threadpool_destroy` joins `threads[0..live_thr_num)`. After a retirement that can miss a worker
  (`FreedWithAWorkerInside`), and after a growth round that comes later than shutdown it can reach a
  cell that never held a thread (`LateGrowthJoinsAnEmptyCell`). With no growth round to come,
  `DestroyReturnsIff` gives the exact condition on the state in which destroy is called: every
  worker stands below the lowest value that `live_thr_num` can still reach while it stays (or
  behind an empty cell that stays in the way), and no cell is empty below the highest value that
  `live_thr_num` can have when all have left. Both values are computed from `wait_exit_thr_num`, the
  minimum, the workers inside `pthread_cond_wait` and whether a shrink round may follow. For a tidy
  pool in which nobody can retire, `TidyDestroyReturnsIff` shows that the growth round itself decides.

The header says that `threadpool_add` returns -1 on an error; the code returns 0 always, and the
model follows the code.

## The other programs

- `EchoBuffer.dfy`, `EpollServer.dfy`: the level- and edge-triggered echo server with the kernel's
  buffers, ready flags and batches. Connections are told apart by number, not by descriptor.
  `EpollRuns.dfy` builds runs, `EpollDrain.dfy` ties the inner loop of `et_work` to them, and
  `EpollProgress.dfy` shows that the server falls quiet.
- `SlotServer.dfy`: the slot table of the threaded server, with `user++` and `user--` as single steps.
- `SemRing.dfy`, `CondStack.dfy`: the semaphore ring and the condition-variable list.
- `ForkServer.dfy`: SIGCHLD coalescing against the reaping loop.
- `GetLine.dfy`, `DecodeStr.dfy`: line splitting and percent decoding. Bytes are numbers below 256.
- `Bytes.dfy`, `Modular.dfy`: bytes, and remainders for ring indices.

## Model

| member | source | states |
|---|---|---|
| `PoolModel.DepositAppendsIffRoom` | thread_pool/threadpool.c:142-150 | storing at the rear is first-in first-out for every task exactly when there is room; without room the oldest task is lost and the new one is queued twice |
| `PoolModel.AddAppendsUnlessLate` | thread_pool/threadpool.c:134-150 | a call of add that does not block puts its task last, keeps the others and the capacity, exactly unless it meets a full queue after shutdown; it blocks exactly on a full queue before shutdown |
| `PoolModel.ScanSpec` | thread_pool/threadpool.c:251-258 | the growth loop writes increasing reusable cells, new ids in order, leaves the other cells, and adds the minimum of ten, the room below max and the reusable cells |
| `ThreadPoolObject.RingStore` | thread_pool/threadpool.c:147-150 | storing at (front + size) mod capacity, for every front and size, appends to the queue the ring stands for |
| `ThreadPoolObject.RingTake` | thread_pool/threadpool.c:197-201 | the front cell is the oldest task, and moving the front drops just that one, keeping rear == (front + size) mod capacity |
| `ThreadPoolObject.ThreadPool.constructor` | thread_pool/threadpool.c:67-119 | the new pool is empty, has min live threads in the first min cells and nothing in the others |
| `ThreadPoolObject.ThreadPool.Add` | thread_pool/threadpool.c:129-157 | the ring code does to the pool exactly what the add region does to the queue, blocking included |
| `ThreadPoolObject.ThreadPool.WorkerPass` | thread_pool/threadpool.c:168-207 | the worker's locked code retires, waits, leaves or takes the oldest task exactly as the worker region says |
| `ThreadPoolObject.ThreadPool.Grow` | thread_pool/threadpool.c:247-260 | the loop over the threads array computes the growth round that ScanSpec describes |
| `PoolInvariants.InvInit` | thread_pool/threadpool.c:77-119 | the pool that create returns satisfies every part of the invariant, whatever wait_exit_thr_num holds |
| `PoolInvariants.InvKept` | thread_pool/threadpool.c:129-302 | every step of workers, callers, adjuster and destroyer keeps every part of the invariant |
| `PoolInvariants.CellsGrow` | thread_pool/threadpool.c:251-258 | growth keeps the id of every worker still there in its cell, and no id stands in two cells |
| `PoolInvariants.ScanFillsInOrder` | thread_pool/threadpool.c:251-258 | with threads[0..n) taken and the rest empty, growth fills the cells right after n |
| `PoolTheorems.CountersAreRight` | thread_pool/threadpool.c:165-260 | in every run min <= live_thr_num <= max, live_thr_num is the workers not retired, busy_thr_num those between its increment and decrement, and busy <= live |
| `PoolTheorems.TasksAreTakenInOrderAndOnce` | thread_pool/threadpool.c:134-201 | until shutdown the queue is the added tasks not yet taken, in order and within capacity, and the added tasks are those of the calls that have returned, one for each; the k-th added task is held by one worker, finished once, or not taken; ticket k carries task k |
| `PoolTheorems.CallsKeepTheirTasks` | thread_pool/threadpool.c:134-150 | over any run a call keeps the task it was made with while it waits and resumes, and a call that has stored its task stays returned |
| `PoolTheorems.CallersCanGoOn` | thread_pool/threadpool.c:131-136 | a call can take a step of its own exactly while it is neither asleep on a full queue nor through, and may wake without a signal exactly while asleep |
| `PoolTheorems.StoreWakesOne` | thread_pool/threadpool.c:147-156 | every store returns its call with its own task and wakes one waiting worker, exactly if any waits |
| `PoolTheorems.PassOutcome` | thread_pool/threadpool.c:171-201 | a worker with the lock retires exactly if it was woken, wait_exit_thr_num > 0 and live_thr_num > min, whatever is queued; else it exits after shutdown, waits on an empty queue, or takes the oldest task; wait_exit_thr_num falls by one for each worker woken while it is positive |
| `PoolTheorems.WaitingBoundsTheQueue` | thread_pool/threadpool.c:129-222 | before shutdown, while a worker waits, the queue is no longer than the awake idle workers plus the hasty retirements, which the retirements so far bound |
| `PoolTheorems.WakeUpLostExactlyByRetiring` | thread_pool/threadpool.c:175-186 | before shutdown a step leaves fewer awake idle workers than queued tasks, with others waiting, exactly if a woken worker retires when as many were awake as tasks queued |
| `PoolTheorems.NoLostWakeUp` | thread_pool/threadpool.c:129-222 | in a run from create up to shutdown the awake idle workers suffice for the queue at every point, whenever somebody waits, exactly if no worker ever retires too soon; then a queued task or a blocked caller means a worker that is up |
| `PoolTheorems.NoShrinkRoundNoRetirement` | thread_pool/threadpool.c:175-186 | if wait_exit_thr_num starts at most 0 and no shrink round runs, nobody retires and the run is tidy until shutdown |
| `PoolTheorems.BlockedCallersFaceAFullQueue` | thread_pool/threadpool.c:134-204 | before shutdown a caller waits on queue_not_full only while the queue is full |
| `PoolTheorems.FreeCells` | thread_pool/threadpool.c:251-258 | before shutdown the cells a perfect is_thread_alive finds reusable number max - live_thr_num |
| `PoolTheorems.GrowthRound` | thread_pool/threadpool.c:246-261 | a growth round overwrites no cell of a worker still there, gives each new worker its own, and adds exactly min(10, max - live) workers if the oracle knows everyone who has left |
| `PoolAdjuster.GrowthDecision` | thread_pool/threadpool.c:236-261 | with others running between the adjuster's steps: a growth round runs exactly if its first snapshot had ten tasks queued and live_thr_num below max; else nobody is created |
| `PoolAdjuster.ShrinkDecision` | thread_pool/threadpool.c:236-275 | likewise ten exits are asked for exactly if the live_thr_num read first exceeds min and twice the busy_thr_num read next; else nothing changes |
| `PoolAdjuster.ShrinkRound` | thread_pool/threadpool.c:175-276 | from an idle pool, once a shrink round has sent its signals and the woken workers have had the lock, live_thr_num is the larger of min and live minus ten, and just that many workers have retired |
| `PoolAdjuster.ShrinkRoundGoesOn` | thread_pool/threadpool.c:263-275 | until the signals are sent and the woken workers have passed, one of those steps is possible |
| `PoolTheorems.DistinctCellsOfWorkers` | thread_pool/threadpool.c:113-116 | two workers still there stand in two different cells of threads |
| `PoolTheorems.TidyRunsJoinEveryWorker` | thread_pool/threadpool.c:246-299 | in a tidy run the workers are threads[0..live) in the order of their creation, across all growth rounds, and the pool is freed only after all have left |
| `PoolProgress.WorkersWorkOff` | thread_pool/threadpool.c:165-222 | before shutdown each step of a worker does one unit of a load that bounds how long the workers run by themselves |
| `PoolProgress.RestMeansFinished` | thread_pool/threadpool.c:129-222 | when the workers are at rest before shutdown, nobody counts as busy; the task of every call that has returned has been finished exactly once, with the queue empty and no caller blocked, exactly if no wake-up is missing, and none is without hasty retirements |
| `PoolShutdown.AfterShutdown` | thread_pool/threadpool.c:171-194 | after shutdown no worker starts to wait or takes a task, and once the adjuster has stopped none is created |
| `PoolShutdown.WorkersDrain` | thread_pool/threadpool.c:190-222 | past the first broadcast each worker step lowers a measure of at most four per worker by exactly one, and nothing else changes it |
| `PoolShutdown.WorkersNeverStick` | thread_pool/threadpool.c:165-194 | past the broadcast no worker can step exactly when all have left |
| `PoolRange.LowestRises` | thread_pool/threadpool.c:175-186 | after shutdown no step lets live_thr_num fall lower, while a given worker stays, than it could before |
| `PoolRange.HighestFalls` | thread_pool/threadpool.c:175-186 | after shutdown no step lets live_thr_num end higher, with everybody gone, than it could before |
| `PoolRange.DestroyIsBounded` | thread_pool/threadpool.c:281-302 | unless a growth round is to come, the pool's threads and destroy take a bounded number of steps after shutdown, however callers and spurious wake-ups interfere |
| `PoolJoin.FreesOnlyAfterAllIff` | thread_pool/threadpool.c:292-299 | the pool is freed only after every worker has left, in every continuation, exactly if each worker still there stands in threads below the lowest value live_thr_num can reach while it stays, or an empty cell does |
| `PoolJoin.NeverSticksIff` | thread_pool/threadpool.c:292-298 | no continuation ends stuck in the join loop exactly if no cell is empty below the highest value live_thr_num can have when everybody has left |
| `PoolDestroy.DestroyReturnsIff` | thread_pool/threadpool.c:281-302 | destroy, called in any reachable state with no growth round to come, returns after a bounded number of steps and with every worker gone, in every continuation, exactly if both conditions hold of the state in which it is called |
| `PoolDestroy.WithoutRetirements` | thread_pool/threadpool.c:292-299 | when nobody can retire any more, the conditions are that no cell of threads[0..live) is empty and every worker still there stands in one of them |
| `PoolDestroy.TidyPools` | thread_pool/threadpool.c:292-299 | in a tidy pool the join loop cannot get stuck, and catches every worker exactly if each stands below what the retirements still possible leave of live_thr_num |
| `PoolDestroy.LateGrowthGetsStuck` | thread_pool/threadpool.c:246-299 | from a tidy pool about to grow after shutdown, with nobody able to retire, some run ends with every thread gone and destroy joining a cell that never held one |
| `PoolDestroy.TidyDestroyReturnsIff` | thread_pool/threadpool.c:281-302 | on a tidy pool with a worker, when nobody can retire, destroy returns with every worker gone exactly if no growth round is to come |
| `PoolShutdown.DestroyNeverSticks` | thread_pool/threadpool.c:281-302 | in a tidy state after shutdown some step of the pool is possible until it is freed, and then all workers have left |
| `PoolShutdown.BlockedCallersStayBlocked` | thread_pool/threadpool.c:134-136 | a caller blocked when shutdown is set stays blocked but for a spurious wake-up |
| `PoolCounterexamples.WakeUpLostAfterShrinking` | thread_pool/threadpool.c:175-186 | a run that ends with a task queued, one worker retired and the other asleep |
| `PoolCounterexamples.StrandedForGood` | thread_pool/threadpool.c:232-276 | from there, without callers, spurious wake-ups or destroy, no run of the pool takes the task |
| `PoolCounterexamples.FreedWithAWorkerInside` | thread_pool/threadpool.c:292-299 | a run in which destroy frees the pool before worker 1 has left |
| `PoolCounterexamples.LateGrowthJoinsAnEmptyCell` | thread_pool/threadpool.c:246-298 | a run without a shrink round in which destroy comes to join a cell that never held a thread |
| `EchoBuffer.TailDoesNotMatter` | select_poll_epoll/epoll_server2.c:138-146 | what stands behind the received bytes in the reused buffer does not change what is sent back |
| `EchoBuffer.UpperIsCapitals` | select_poll_epoll/epoll_server2.c:80-83 | a chunk's answer is its upper case exactly if the bytes 97 to 122 have become 65 to 90 in order and every other byte has stayed |
| `EchoBuffer.Letters` | select_poll_epoll/epoll_server2.c:80-83 | the letters a to z come back as A to Z |
| `EchoBuffer.UpperToNulIsUpper` | select_poll_epoll/epoll_server2.c:142-145 | a chunk comes back in capitals exactly when no lower-case letter follows a NUL in it |
| `EchoBuffer.AnyCuttingIff` | select_poll_epoll/epoll_server2.c:138-146 | however a stream is cut into chunks of at most five bytes, the answers together are the stream in capitals, exactly if no lower-case letter stands within four places behind a NUL |
| `EchoBuffer.UpperInPlace` | select_poll_epoll/epoll_server2.c:80-83 | the pointer loop stays inside the buffer; every byte before the first NUL is turned to its capital, and the NUL and all behind it stay |
| `EchoBuffer.Connection.Recv` | select_poll_epoll/epoll_server2.c:138 | recv moves at most five bytes from the kernel to the front of the buffer and leaves the tail as it was |
| `EchoBuffer.RecvAndEcho` | select_poll_epoll/epoll_server2.c:76-85 | one read and its echo: the next chunk leaves the kernel's buffer and comes back in capitals up to its first NUL, byte by byte |
| `EpollDrain.EtDrain` | select_poll_epoll/epoll_server2.c:136-154 | the edge-triggered loop ends whatever the peer sends and whenever it closes between two recv calls; it leaves nothing unread and everything answered, in capitals if no lower-case letter stands close behind a NUL, drops the connection exactly if the peer has closed, and is a run of the server's steps |
| `EpollServer.InvKept` | select_poll_epoll/epoll_server2.c:37-235 | every system call and every kernel event keeps the invariant of batches, backlog, ready flags and echoes |
| `EpollServer.EchoIsUpperOfRead` | select_poll_epoll/epoll_server2.c:76-148 | in both modes and at any time as many bytes have been sent as read, less the chunk in flight, and the j-th sent is the capital of the j-th read unless a lower-case letter stands within four places behind a NUL |
| `EpollServer.NoClientIsForgotten` | select_poll_epoll/epoll_server2.c:111-179 | edge-triggered, an open client with something to read is on the ready list, in the rest of the batch, or being drained |
| `EpollServer.NeverStuck` | select_poll_epoll/epoll_server2.c:220-238 | until nothing is reportable the server can make its next call |
| `EpollServer.QuietMeansAnswered` | select_poll_epoll/epoll_server2.c:53-179 | when the server is blocked with nothing to report, every accepted client has been read to the end and answered in full, and closed if its peer has |
| `EpollServer.ModesAgree` | select_poll_epoll/epoll_server2.c:226-235 | quiet level- and edge-triggered servers have sent the same to clients that sent the same bytes, with no lower-case letter close behind a NUL |
| `EpollServer.CallsSucceed` | select_poll_epoll/epoll_server2.c:93-98 | lt_work's read never sees an error, accept never comes up empty, no listed event concerns a closed connection |
| `EpollServer.EventsFit` | select_poll_epoll/epoll_server2.c:217-223 | the events of a batch never exceed the array of 21 |
| `EpollServer.AllAcceptedIffNoneCoalesced` | select_poll_epoll/epoll_server2.c:118-125 | a quiet server has accepted everyone exactly when no connection arrived while an earlier one was waiting to be reported |
| `EpollRuns.SecondConnectionStranded` | select_poll_epoll/epoll_server2.c:118-125 | a run in either mode that leaves the second of two connections unaccepted |
| `EpollRuns.AnsweredInUpperCaseIff` | select_poll_epoll/epoll_server2.c:53-179 | in either mode a client is answered in capitals, letter by letter, by every run that falls quiet, exactly if its bytes hold no lower-case letter within four places behind a NUL |
| `EpollProgress.PotentialFalls` | select_poll_epoll/epoll_server2.c:53-179 | every system call of the server lowers a measure of what its clients can still cause |
| `EpollProgress.ServerFallsQuiet` | select_poll_epoll/epoll_server2.c:220-238 | after any run, without news from the clients the server makes a bounded number of calls and can always make the next one until it is quiet |
| `SlotServer.UserCounter` | tcp_code/server_thread.c:64-138 | user is the occupied slots plus the workers between clearing their slot and counting down, minus the client not yet counted; it stays between -1 and MAX_USER |
| `SlotServer.ScanFindsASlot` | tcp_code/server_thread.c:116-128 | the scan always ends at a free slot inside the table, whatever the workers do meanwhile |
| `SlotServer.OneWorkerPerSlot` | tcp_code/server_thread.c:64-134 | a slot is occupied exactly while one worker serves it or is about to, and never two |
| `SlotServer.WorkersKeepTheirDescriptors` | tcp_code/server_thread.c:64-134 | as long as the k-th worker serves, its slot holds the k-th descriptor that accept returned, whatever main and the other workers do; and so for the worker about to start |
| `SlotServer.ScanTakesTheFirst` | tcp_code/server_thread.c:122-126 | each test of the scan ends it exactly at a free slot and otherwise moves on by one, always inside the table |
| `SlotServer.FillsUp` | tcp_code/server_thread.c:114-138 | for every table size a run serves as many clients at once as there are slots, and main stops taking clients only then |
| `SlotServer.FindFreeSlot` | tcp_code/server_thread.c:122-126 | the scan loop over the array, with workers freeing slots between its tests, ends inside the table at a free slot, past slots that were occupied |
| `SemRing.NextCellIsFree` | thread_code/sem_thread.c:14-15 | the cell the producer writes next holds none of the unread values |
| `SemRing.InvKept` | thread_code/sem_thread.c:11-36 | every step of either thread keeps the ring, the semaphores and the output consistent |
| `SemRing.OutputIsConsecutive` | thread_code/sem_thread.c:27-34 | for every capacity and interleaving the k-th value read is 100 + k |
| `SemRing.NoOverwrite` | thread_code/sem_thread.c:14-18 | the producer is less than n ahead when it stores, and leaves every unread cell, the one being read included, as it is |
| `SemRing.NeverBothBlocked` | thread_code/sem_thread.c:40-41 | the semaphores and the threads inside add up to n, and some step is always possible |
| `SemRing.Program.ProducerStep` | thread_code/sem_thread.c:13-18 | the producer's code over the array does the step that comes next for it |
| `SemRing.Program.ConsumerStep` | thread_code/sem_thread.c:27-31 | the consumer's code over the array does the step that comes next for it |
| `SemRing.Run` | thread_code/sem_thread.c:38-51 | both threads run under any schedule print 100, 101, 102, ..., as the steps say |
| `CondStack.InvKept` | thread_code/cond_thread.c:17-61 | every step of producer and consumers keeps the order of the values and the wake-up condition |
| `CondStack.DrainsArePushes` | thread_code/cond_thread.c:17-54 | the drained batches, each turned round, and then the list turned round are exactly 100, 101, 102, ..., as many as pushes were made, and no batch is empty |
| `CondStack.EnterDrains` | thread_code/cond_thread.c:43-56 | a consumer with the mutex takes the whole list, and waits exactly if it is empty |
| `CondStack.NoSleepOverANode` | thread_code/cond_thread.c:23-47 | a node in the list means the signal is due or some consumer is not waiting |
| `CondStack.List.Push` | thread_code/cond_thread.c:25-26 | the heap list gains the value at its head and keeps the others |
| `CondStack.List.TakeHead` | thread_code/cond_thread.c:50-53 | one round prints the head and unlinks just that node |
| `CondStack.List.Drain` | thread_code/cond_thread.c:49-54 | the loop prints the whole list from the head on and leaves it empty |
| `ForkServer.ChildrenAreAccountedFor` | tcp_code/server_fork.c:17-153 | an unreaped dead child means SIGCHLD is pending or the handler has not yet seen waitpid come up empty; user is the unreaped children plus the one about to be forked |
| `ForkServer.CounterReturnsToZero` | tcp_code/server_fork.c:17-153 | back at accept with no child running and no signal to handle, nobody is unreaped and user is 0 |
| `ForkServer.SettlesAtZero` | tcp_code/server_fork.c:17-153 | from any reachable state, if nobody connects any more and the children end, the server settles after a bounded number of steps with user 0 and nobody unreaped |
| `ForkServer.Server.WaitPid` | tcp_code/server_fork.c:20-22 | one round of the loop reaps one dead child and counts it off, or finds none |
| `ForkServer.Server.RecycleChild` | tcp_code/server_fork.c:17-25 | the handler's loop is a run of the server's steps, and reaps exactly the children dead by its last waitpid although one signal stood for them all |
| `GetLine.NoCRIsLeft` | http_code/epoll/http_epoll.c:267-281 | no CR is left in the normalised stream, and a stream without CR is left alone |
| `GetLine.LineNormalised` | http_code/epoll/http_epoll.c:267-281 | a line without CR ends in one LF, whether CRLF, LF or a CR with no LF after it was sent, and the rest is normalised by itself |
| `GetLine.NormaliseSplit` | http_code/epoll/http_epoll.c:267-281 | normalising in two parts is normalising the whole exactly unless the cut falls between CR and LF, which gives one LF too many |
| `GetLine.LineEnds` | http_code/epoll/http_epoll.c:262-289 | a line ends after its first LF, at the size limit or at the end of the bytes |
| `GetLine.NextByte` | http_code/epoll/http_epoll.c:264-288 | recv, peek and recv take one byte of the normalised stream off, or say that there is none |
| `GetLine.GetLine` | http_code/epoll/http_epoll.c:256-294 | the buffer gets the next line of the normalised stream and a NUL, and the socket keeps the rest |
| `GetLine.LinesMakeTheStream` | http_code/epoll/http_epoll.c:86-99 | the lines of a stream make it up, each within the limit, and only the last is empty |
| `GetLine.RequestInLines` | http_code/epoll/http_epoll.c:86-99 | a request of lines that fit, each sent with CRLF, comes out as those lines, each with LF, and an empty one |
| `GetLine.ReadLines` | http_code/epoll/http_epoll.c:86-99 | for every buffer size from two on, the loop ends with the stream consumed and reads exactly the lines of the normalised stream |
| `GetLine.DoRead` | http_code/epoll/http_epoll.c:86-99 | the same for the 1024 bytes of do_read; a request of lines of at most 1022 bytes comes out line by line |
| `GetLine.ZeroMeansEmptyIffRoom` | http_code/epoll/http_epoll.c:262-293 | a length of 0 means an empty stream exactly for buffers of at least two bytes |
| `DecodeStr.DecodeInvertsEncode` | http_code/libevent/libevent_http.c:280-309 | decoding gives back every byte string from every encoding of it that escapes at least percent sign and NUL, in either hex case |
| `DecodeStr.DecodeIsIdentityIffNoEscapes` | http_code/libevent/libevent_http.c:296-306 | a string decodes to itself exactly when no percent sign in it is followed by two hex digits |
| `DecodeStr.DecodeSplit` | http_code/libevent/libevent_http.c:294-307 | decoding in two parts is decoding the whole exactly unless the cut splits an escape, which then stays two bytes longer |
| `DecodeStr.Notation` | http_code/libevent/libevent_http.c:280-299 | an escape begins with a percent sign and writes its digits as 0 to 9 and a to f in either case |
| `DecodeStr.OnlyDigits` | http_code/libevent/libevent_http.c:280-296 | nothing but those 22 characters is taken for a digit |
| `DecodeStr.Round` | http_code/libevent/libevent_http.c:294-307 | one round writes one decoded byte and never moves the write cursor ahead of the read cursor |
| `DecodeStr.Run` | http_code/libevent/libevent_http.c:292-309 | the two-cursor loop computes the recursive decoder, reads nothing behind the source's NUL, writes nothing behind its own, also in place |

## Left out

- PoolDestroy.DestroyReturnsIff: states in which a growth round may still come after shutdown, because the adjuster has seen a long queue, wakes to one, or late calls of threadpool_add make it long while it sleeps; for tidy pools TidyDestroyReturnsIff shows what such a round does.
- PoolDestroy.TidyDestroyReturnsIff: a pool without a worker, where a late growth round does no harm.
- PoolShutdown.AfterShutdown: line 287 writes `shutdown` without the lock, so in the code the write and all broadcasts can fall between a worker's test at line 171 and its wait, and it sleeps on; in the model the region from the lock to the wait is one step.
- PoolShutdown.WorkersDrain: the same race; past the broadcast the model has no worker waiting.
- PoolRange.DestroyIsBounded: the same race; a worker that sleeps on keeps destroy in pthread_join.
- PoolModel.AddAppendsUnlessLate: a call that sees `shutdown` stores without the lock; its effect is stated as if nothing else touched the ring meanwhile, and the steps of the machine allow any queue after it.
- PoolTheorems.TasksAreTakenInOrderAndOnce: the queue after shutdown, because a late call of threadpool_add stores without the lock; the steps then allow any queue, and AddAppendsUnlessLate says what one undisturbed late call does.
- Freeing of task arguments and of the pool's memory, failed allocations and failed thread creation.
- Use of the pool after it has been freed, and the second unlock of a late threadpool_add.
- SlotServer.UserCounter: `user++` and `user--` are single steps; on hardware that splits them the count can drift.
- ForkServer.ChildrenAreAccountedFor: the updates of `user` are single steps here too.
- EpollServer: socket errors, partial writes, EINTR in recv, and reuse of descriptor numbers.
- The upper-casing of the threaded and the forking server, which also writes a NUL before the end of the string and, for an empty string, before its start.
- GetLine.GetLine: bytes that arrive during a call; NormaliseSplit says what a cut between two calls changes.
- Overflow of `beginnum`, of the producers' counters and of the task counters.
- `epoll_server.c`, `poll_server.c`, `select_server.c`, `mtlt.cpp`, `9-3mtlt.cpp`, `recycle_process_signal.c`: variants with less state.
- Headers, file types, directory listings, libevent callbacks, and the pipe, fifo, exec and directory demos.
