# Verified models of the concurrent C programs

The repository is a collection of small C programs. This project models the ones whose correctness shows only over
whole runs, and proves what they are for. Data that the C code changes in place (rings, lists, tables, buckets,
machines with a buffer) are classes whose methods are the critical sections; threads that share a mutex and condition
variables are step relations whose steps are those critical sections, and the theorems range over every run, every
number of threads and every schedule. Constants such as `QUEUE_MAX`, `THREAD_NUM`, `MAXCLIENT` and `BUFSIZE` are
parameters. Condition variables follow POSIX.1-2017: a signal wakes at least one sleeper, and wakeups may be spurious.

| file | program |
|---|---|
| `CondVar.dfy`, `Runs.dfy`, `Counting.dfy`, `Multisets.dfy`, `Arith.dfy` | what several models share |
| `DirTree.dfy` | directory trees, their counts, the sequential statistics program |
| `ForkJoin.dfy` | the statistics program with one thread per directory |
| `TaskRing.dfy`, `DirPool.dfy`, `DirPoolRuns.dfy`, `DirPoolProgress.dfy`, `DirPoolLimits.dfy` | the statistics program with a worker pool over a bounded ring |
| `Primes.dfy`, `Handoff.dfy` | prime scans, and the one-cell handoff of numbers to prime workers |
| `Parking.dfy` | the parking lot |
| `TaskPool.dfy` | the linked-list thread pool |
| `Relay.dfy`, `RelayLoops.dfy`, `Relayer.dfy` | the non-blocking relay, its three loops and its job table |
| `TokenBucket.dfy`, `RateLimit.dfy`, `BucketLocks.dfy`, `BucketProgress.dfy` | the token bucket library, its clients, its locks and its progress |
| `ServerPool.dfy` | the controller of the pre-forked server pool |
| `AnyTimer.dfy` | many timers on one clock |

Some things the programs are expected to do are not true of the code. The models keep the code as it is, and the theorems
say exactly when the expectation holds:

- The directory pool decides that it is done by looking at its queue twice. That may come too early and does no harm to
  the totals by itself; they are right if and only if no directory dropped at a full queue held anything to count
  (`FinishedTotals`, `DropLosesCounts`).
- The directory pool can deadlock. The only deadlock is a full queue with every live worker in `enqueue_task`
  (`FinishOrJam`, `JammedForever`); it can also arise after `done` because `set_done` wakes only those who wait for a path
  (`DoneJamReachable`). With a queue of c places and W workers, trees with k subdirectories are free of deadlock if and only
  if k <= c + 2 * W - 2, and their totals are always exact if and only if k <= c (`DirPoolLimits.DeadlockFreeIff`, `ExactTotalsIff`).
- The sequential statistics program trusts the entry type and skips symbolic links, the other two follow them; it also
  exits at the first source file that it cannot open (`LinksOnlyAdd`, `RunSequential`).
- The sequential program clears errno once per directory. If the last subdirectory of a directory cannot be opened, the end
  of the directory looks like an error, and the stream is closed twice (`RunSequential`, `RunClosedTwice`).
- The parking lot is free of deadlock if and only if the planned exits are covered by entries and the surplus of entries
  fits the capacity (`Parking.DeadlockFreeIff`).
- Both primality tests accept 1, so a range that contains it lists it (`ScanRange`, `FinishedOutput`).
- A scan of the server pool aborts when a child goes idle between the two reads of its state (`ScanPool`), and a control
  pass corrects only half of the gap because its bound moves (`ControlLoop`, `PassesConverge`).
- A fetch from a token bucket whose rate or burst is 0 is accepted and sleeps for good; calls on the table can always
  complete if and only if every rate and burst is positive (`CallsCompleteIff`).
- A timer added with `sec` = 0 is accepted and never fires (`FiresIffPositive`).
- The file proIO/epoll/relay.c calls poll and proIO/poll/relay.c calls epoll; the models are named after the calls.

`dafny verify dfyconfig.toml` checks the whole project.

## Model

| member | source | states |
|---|---|---|
| `DirTree.CodeCounter` | IO/dir/statistic.c:12-31 | the line counter returns one more than the number of positions that hold a newline |
| `DirTree.SourceSuffixOfName` | homework/statistic_file_with_thread_pool.c:171-174 | a path is a source path iff the entry's name ends in .c or .h |
| `DirTree.ItemCounts` | homework/statistic_file_with_thread_pool.c:147-207 | what one entry counts, by its name and by what stat finds: only . and .. do not count |
| `DirTree.DirectoryCounts` | homework/statistic_file_with_thread_pool.c:147-207 | the counts of a directory are the number of its files, the number of its directories and the lines of its readable source files, plus what is in each subdirectory, every name but . and .. included |
| `DirTree.SuffixTestsAgree` | homework/statistic_file.c:86-91 | on every path the programs build, the suffix test with the extra length check agrees with the one without |
| `DirTree.Statistic.ShowDir` | IO/dir/statistic.c:33-97 | the recursion returns iff every source file on the way opens and no directory is closed twice because of the errno of a refused opendir; then it has added exactly the counts of the subtree to the three globals |
| `DirTree.Statistic.ShowEntry` | IO/dir/statistic.c:68-92 | one entry adds its own count; an unopenable directory adds only itself and leaves errno set; links add nothing |
| `DirTree.StripCounts` | homework/statistic_file.c:75-113 | following a chain of links to its end does not change what is counted |
| `DirTree.ResolvedCounts` | homework/statistic_file_with_thread_pool.c:157-204 | a node counts for something iff stat resolves it to a file or a directory |
| `DirTree.LinksOnlyAdd` | IO/dir/statistic.c:72-92 | for every tree the link-following programs count at least what the sequential one does, with equality iff no live link is met |
| `DirTree.OpenableEntries` | IO/dir/statistic.c:64-92 | the program gets through a directory iff no entry but . and .. is an unopenable file whose name ends in .c or .h, and the same holds in every subdirectory |
| `DirTree.ClosedOnceEntries` | IO/dir/statistic.c:46-62 | no stream is closed twice iff that holds in every subdirectory and none has a locked last subdirectory |
| `DirTree.NoLiveEntries` | IO/dir/statistic.c:81-91 | nothing is missed iff every link leads nowhere that counts, in every subdirectory too |
| `DirTree.RunSequential` | IO/dir/statistic.c:33-105 | a whole run, a link at argv[1] followed, prints iff every source file opens and no directory it reads has a locked directory as its last subdirectory; what it prints agrees with the other two programs iff no live link is met |
| `DirTree.LockedLastPosition` | IO/dir/statistic.c:46-62 | the condition for a second close, by position: the last subdirectory among the entries is one that cannot be opened |
| `DirTree.LockedSubdirectory` | IO/dir/statistic.c:46-62 | the smallest failing tree: one unopenable subdirectory; every source file opens, and the stream is closed twice |
| `DirTree.RunClosedTwice` | IO/dir/statistic.c:52-96 | the run over that tree closes its stream twice |
| `ForkJoin.ScanKeepsWorth` | homework/statistic_file.c:66-116 | reading one entry (local counts, a new thread for a directory) keeps the sum of counted and still owed |
| `ForkJoin.JoinKeepsWorth` | homework/statistic_file.c:130-145 | adding a joined child's result, or nothing for a null result, keeps the sum |
| `ForkJoin.StepKeepsWorth` | homework/statistic_file.c:41-146 | any step of any thread anywhere in the thread tree keeps the sum of the whole program |
| `ForkJoin.RunKeepsWorth` | homework/statistic_file.c:41-146 | so does every schedule; a returned thread stays as it is |
| `ForkJoin.ForkJoinCounts` | homework/statistic_file.c:41-146 | whatever the timing of threads and joins, a first thread that has returned holds exactly the recursive count of the tree, or null iff opendir, which follows links, refuses the root |
| `ForkJoin.StepUsesWork` | homework/statistic_file.c:41-146 | every step that changes anything strictly lowers a bound on the remaining steps |
| `ForkJoin.SomeThreadMoves` | homework/statistic_file.c:130-145 | until the first thread returns, some thread can move: no join waits in vain |
| `ForkJoin.MovesBounded` | homework/statistic_file.c:41-146 | every schedule makes at most the bounded number of moves |
| `ForkJoin.Completes` | homework/statistic_file.c:41-146 | every state of every schedule can be continued until the first thread returns |
| `TaskRing.Ring.constructor` | homework/statistic_file_with_thread_pool.c:20-31 | the empty ring is valid |
| `TaskRing.Ring.Enqueue` | homework/statistic_file_with_thread_pool.c:56-82 | with wrap-around indices, a path is appended iff there is room; on a full ring it waits or, after done, is freed |
| `TaskRing.Ring.Dequeue` | homework/statistic_file_with_thread_pool.c:85-108 | the oldest path is removed iff there is one; an empty ring waits or, after done, reports the end |
| `DirPool.EntryKeepsWorth` | homework/statistic_file_with_thread_pool.c:147-207 | an entry's worth moves from the unread entries to the counters and the worker's hands without loss |
| `DirPool.DequeueKeepsBalance` | homework/statistic_file_with_thread_pool.c:85-140 | taking a path keeps counted + queued + held + dropped |
| `DirPool.ScanKeepsBalance` | homework/statistic_file_with_thread_pool.c:147-207 | reading an entry or closing the directory keeps it |
| `DirPool.EnqueueKeepsBalance` | homework/statistic_file_with_thread_pool.c:56-82 | storing, waiting with or dropping a path keeps it |
| `DirPool.MainKeepsBalance` | homework/statistic_file_with_thread_pool.c:246-275 | main's seeding, polling and set_done keep it |
| `DirPool.NextKeepsBalance` | homework/statistic_file_with_thread_pool.c:56-281 | every step of every thread keeps counted + queued + held by workers + dropped |
| `DirPoolRuns.NextKeepsWakeups` | homework/statistic_file_with_thread_pool.c:56-118 | every step keeps: if a worker sleeps for a path then every queued path has its own notified worker, and after done nobody sleeps there |
| `DirPoolRuns.NextKeepsRoom` | homework/statistic_file_with_thread_pool.c:56-108 | every step keeps: if a worker sleeps for room then every free place has its own notified worker |
| `DirPoolRuns.NextKeepsPhases` | homework/statistic_file_with_thread_pool.c:122-131 | workers leave only after done |
| `DirPoolRuns.NextKeepsAttended` | homework/statistic_file_with_thread_pool.c:85-131 | once a worker has left, a queued path has an awake worker; so the last one leaves an empty queue |
| `DirPoolRuns.NextKeepsSeats` | homework/statistic_file_with_thread_pool.c:126-200 | the directories queued, being read, about to be queued and dropped never exceed those counted and the root |
| `DirPoolRuns.NextKeepsInv` | homework/statistic_file_with_thread_pool.c:56-281 | every step keeps the whole invariant |
| `DirPoolRuns.RunKeepsInv` | homework/statistic_file_with_thread_pool.c:56-281 | for every tree, capacity, number of workers, schedule and moment of done, every state of every run satisfies it; in particular counted + queued + held + dropped is the count of the root |
| `DirPoolRuns.RunKeepsRoom` | homework/statistic_file_with_thread_pool.c:56-108 | in every run no wakeup for a free place is lost |
| `DirPoolRuns.QueuedMeansAwake` | homework/statistic_file_with_thread_pool.c:56-118 | in every run, while nobody sleeps for room, a queued path never finds every live worker asleep un-notified |
| `DirPoolRuns.FinishedTotals` | homework/statistic_file_with_thread_pool.c:223-286 | when main prints, totals + dropped subtrees = count of the root, so the totals are right iff every dropped directory had nothing in it, however early done was set |
| `DirPoolRuns.RoomForHeld` | homework/statistic_file_with_thread_pool.c:56-82 | in a tree with at most QUEUE_MAX subdirectories there is always room for a directory in a worker's hands |
| `DirPoolRuns.FittingTree` | homework/statistic_file_with_thread_pool.c:56-281 | over such a tree no run drops a directory or waits for room |
| `DirPoolRuns.FittingTotals` | homework/statistic_file_with_thread_pool.c:223-286 | over such a tree every finished run prints the exact totals |
| `DirPoolRuns.ThreeProgramsAgree` | homework/statistic_file_with_thread_pool.c:122-219 | sequential recursion, fork-join under any schedule and pool under any schedule without drops give the same three totals; for the sequential one iff no live link is met |
| `DirPoolProgress.Forward` | homework/statistic_file_with_thread_pool.c:56-281 | in every reachable state that is neither finished nor jammed, a step of main or of a worker strictly lowers a measure |
| `DirPoolProgress.FinishOrJam` | homework/statistic_file_with_thread_pool.c:56-281 | the jam (full ring, every live worker in enqueue_task) is the only deadlock: every reachable state leads to main printing or to a jam without help of spurious wakeups |
| `DirPoolProgress.Finish` | homework/statistic_file_with_thread_pool.c:223-286 | over a tree with at most QUEUE_MAX + 2 * THREAD_NUM - 2 subdirectories, every state of every run can be continued until main prints |
| `DirPoolProgress.AmpleNeverJams` | homework/statistic_file_with_thread_pool.c:56-131 | over such a tree no reachable state is jammed: in a jam every worker holds two directories beside the full queue |
| `DirPoolProgress.JammedForever` | homework/statistic_file_with_thread_pool.c:111-118 | once jammed, nothing but a spurious wakeup after done changes queue or counters: the pool never prints |
| `DirPoolProgress.TrappedForever` | homework/statistic_file_with_thread_pool.c:56-82 | before done, not even spurious wakeups help |
| `DirPoolProgress.JamCannotFinish` | homework/statistic_file_with_thread_pool.c:56-82 | so from a jam before done no schedule reaches the end |
| `DirPoolProgress.DoneFinishes` | homework/statistic_file_with_thread_pool.c:75-131 | once done is set and nobody sleeps for room, the pool can always finish, and what was dropped stays dropped |
| `DirPoolLimits.WaitReachable` | homework/statistic_file_with_thread_pool.c:61-64 | for every capacity, number of workers and larger tree size, a run in which a worker waits for room |
| `DirPoolLimits.DropLosesCounts` | homework/statistic_file_with_thread_pool.c:75-79 | for every capacity, number of workers and larger tree size, a finished run that prints too little because a path was dropped |
| `DirPoolLimits.JamReachable` | homework/statistic_file_with_thread_pool.c:56-82 | for every capacity and number of workers, a run that jams before done, over a tree with QUEUE_MAX + 2 * THREAD_NUM - 1 subdirectories or any larger number |
| `DirPoolLimits.DoneJamReachable` | homework/statistic_file_with_thread_pool.c:111-118 | the same after done, because set_done does not wake those who wait for room |
| `DirPoolLimits.NeverBlocksIff` | homework/statistic_file_with_thread_pool.c:56-82 | for every number of workers: over all trees with k subdirectories nobody ever waits for room and nothing is dropped iff k is at most the capacity |
| `DirPoolLimits.ExactTotalsIff` | homework/statistic_file_with_thread_pool.c:223-286 | for every number of workers: every finished run over every tree with k subdirectories prints the exact totals iff k is at most the capacity |
| `DirPoolLimits.DeadlockFreeIff` | homework/statistic_file_with_thread_pool.c:56-281 | for every number W of workers: every reachable state over every tree with k subdirectories can still finish iff k is at most the capacity + 2 * W - 2 |
| `CondVar.CoveredSignal` | homework/statistic_file_with_thread_pool.c:66-74 | publishing one unit and signalling once keeps: if anyone sleeps, every unit has its own notified thread |
| `CondVar.CoveredRun` | homework/statistic_file_with_thread_pool.c:90-104 | a thread that runs on uses up at most the unit it was notified for |
| `CondVar.SomeRunnable` | IPC/socket/Newer/server.c:92-95 | under that discipline an available unit always finds a thread awake |
| `Primes.HalfTest` | thread/posix/primer_pool_busy.c:99-106 | trial division up to n/2 reports exactly the primes, and 1 |
| `Primes.NoSmallOddDivisor` | thread/posix/Newer/primer_by_four.c:38-45 | an odd number without odd divisors below a bound whose square exceeds it is prime |
| `Primes.OddTest` | thread/posix/Newer/primer_by_four.c:37-45 | odd trial division up to the square root reports exactly the odd primes, and 1; so it agrees with HalfTest on them |
| `Primes.ScanRange` | thread/posix/Newer/primer_by_four.c:13-55 | the scan of a range writes exactly its primes in ascending order iff the range starts at 2 or later or ends before 1; otherwise it writes 1 as well, after the 2 |
| `Primes.ScanFromTwo` | thread/posix/Newer/primer_by_one.c:6-40 | the single-range reference writes exactly the primes up to n in ascending order |
| `Primes.PrimesInMembers` | thread/posix/Newer/primer_by_one.c:17-36 | the specified list contains exactly the primes of the range |
| `Primes.PrimesInAscending` | thread/posix/Newer/primer_by_one.c:17-36 | and it is strictly ascending, which fixes it |
| `Primes.PrimesInSplit` | thread/posix/Newer/primer_by_four.c:61-66 | the list of a range is the concatenation of the lists of its two parts |
| `Primes.ScanTable` | thread/posix/Newer/primer_by_four.c:57-84 | one scan per row of the table gives each row's list |
| `Primes.PartitionedScan` | thread/posix/Newer/primer_by_four.c:57-84 | the files of adjacent ranges, concatenated, are the list of the whole range |
| `Primes.TableFromThree` | thread/posix/Newer/primer_by_four.c:61-66 | a table starting at 3 yields the reference list without the 2 |
| `Handoff.DeliveredStep` | thread/posix/mytbf_multithread/primer_pool_notice.c:39-105 | every step keeps: the values taken are LEFT, LEFT+1, ... in order and the cell holds the next one |
| `Handoff.ProducerWakes` | thread/posix/mytbf_multithread/primer_pool_notice.c:39-67 | the producer's steps lose no wakeup although it only signals a variable shared with the workers |
| `Handoff.WorkerWakes` | thread/posix/mytbf_multithread/primer_pool_notice.c:87-105 | the workers' steps lose no wakeup |
| `Handoff.OutputStep` | thread/posix/mytbf_multithread/primer_pool_notice.c:102-117 | every step keeps: printed + what workers now dividing will print = the output due for the values taken |
| `Handoff.NextKeepsInv` | thread/posix/mytbf_multithread/primer_pool_notice.c:39-119 | every step of either program keeps all of this |
| `Handoff.RunKeepsInv` | thread/posix/mytbf_multithread/primer_pool_notice.c:39-119 | so does every run, for any number of workers and any range from 1 on |
| `Handoff.FinishedOutput` | thread/posix/primer_pool_busy.c:39-110 | after the join the values taken are exactly LEFT..RIGHT in order and the printed multiset is exactly the primes of the range iff the range does not contain 1 |
| `Handoff.Progress` | thread/posix/mytbf_multithread/primer_pool_notice.c:39-119 | with at least one worker, in every reachable state some step brings the end nearer |
| `Handoff.Finish` | thread/posix/primer_pool_busy.c:39-110 | every reachable state of either program can be continued to the end |
| `Handoff.EveryRunCanComplete` | thread/posix/mytbf_multithread/primer_pool_notice.c:39-119 | every run from LEFT >= 2 extends to one that ends with exactly the primes printed |
| `Parking.ActKeepsInv` | homework/parking.c:16-57 | one critical section of a gate keeps the invariant |
| `Parking.NextKeepsInv` | homework/parking.c:16-57 | every step, spurious wakeups included, keeps it |
| `Parking.RunKeepsInv` | homework/parking.c:16-57 | in every run remain_size = capacity - entered + exited lies within 0..capacity, and whenever a gate sleeps each free place (parked car) has its own notified gate |
| `Parking.SomeGateRunnable` | homework/parking.c:16-57 | with covered totals some unfinished gate is always awake |
| `Parking.AllAsleep` | homework/parking.c:22-25 | if every unfinished gate sleeps, unfinished entries mean a full lot and unfinished exits an empty one |
| `Parking.Finish` | homework/parking.c:16-57 | a schedule that finishes every gate from any reachable state |
| `Parking.ActUsesSteps` | homework/parking.c:16-57 | every step of a gate lowers a bound on the steps still possible, whoever its signal wakes |
| `Parking.PlainRunBounded` | homework/parking.c:16-57 | every run without spurious wakeups, under any schedule, has a bounded number of steps |
| `Parking.MaximalRunFinishes` | homework/parking.c:16-57 | with covered totals a run that no gate can continue has finished every gate |
| `Parking.DeadlockFreeIff` | homework/parking.c:16-57 | every reachable state can finish iff exits <= entries <= exits + capacity; otherwise no run finishes |
| `TaskPool.TaskList.constructor` | IPC/socket/Newer/server.c:47-55 | the empty list, both pointers null |
| `TaskPool.TaskList.Add` | IPC/socket/Newer/server.c:58-82 | the node is linked at the tail: the list stays acyclic, ends at task_tail, has task_count nodes, and the tasks are the old ones followed by the new one |
| `TaskPool.TaskList.Take` | IPC/socket/Newer/server.c:85-116 | the oldest task is unlinked; waits iff empty and not shut down, exits iff shut down |
| `TaskPool.WorkerKeepsOrder` | IPC/socket/Newer/server.c:85-119 | a worker's step keeps: submitted = taken followed by queued, and executed + in hand = taken |
| `TaskPool.NextKeepsInv` | IPC/socket/Newer/server.c:58-119 | every step keeps order, exactly-once and the wakeup discipline |
| `TaskPool.RunKeepsInv` | IPC/socket/Newer/server.c:47-119 | so does every run with any number of workers |
| `TaskPool.SubmittedInOrder` | IPC/socket/Newer/server.c:58-82 | tasks taken followed by tasks queued are exactly what the accepting thread submitted, in order |
| `TaskPool.DrainedMeansExecuted` | IPC/socket/Newer/server.c:58-119 | once the pool has drained, exactly the submitted tasks have been executed, once each |
| `TaskPool.QueuedMeansAwake` | IPC/socket/Newer/server.c:58-95 | no reachable state has a queued task with all workers asleep un-notified |
| `TaskPool.DrainStep` | IPC/socket/Newer/server.c:85-119 | while anything is queued or in hand some worker can take or finish a task |
| `TaskPool.Drain` | IPC/socket/Newer/server.c:47-119 | if tasks return, the workers alone bring every reachable state to one where each submitted task was executed exactly once |
| `TaskPool.WorkerUsesSteps` | IPC/socket/Newer/server.c:85-119 | every step of a worker lowers a bound on the steps still possible without new tasks |
| `TaskPool.WorkersRunBounded` | IPC/socket/Newer/server.c:85-119 | if tasks return, the workers stop after a bounded number of steps under any schedule |
| `TaskPool.MaximalRunDrains` | IPC/socket/Newer/server.c:85-119 | when they have stopped, every submitted task was taken in order and executed exactly once |
| `Relay.DriveKeepsSound` | proIO/non-blocked/relay.c:33-95 | one drive, whatever read and write answer, keeps: written + the stretch of the buffer still to send = read, within the buffer |
| `Relay.RunKeepsSound` | proIO/non-blocked/relay.c:33-95 | for every sequence of answers output is a prefix of input and equals it when a direction stops without a write error |
| `Relay.DriveOnCourse` | proIO/non-blocked/relay.c:33-95 | one drive keeps: the machine has read exactly the bytes that its source gave, and it stops without an error only at the end of the source |
| `Relay.RunSinks` | proIO/non-blocked/relay.c:62-83 | for every sequence of answers the machine's record of its output is what the write calls delivered |
| `Relay.SourceDelivered` | proIO/non-blocked/relay.c:33-120 | for every source and all answers a new machine's destination gets a prefix of the source, and all of it if the machine stops and no read or write has failed |
| `Relay.DriveUsesBudget` | proIO/non-blocked/relay.c:33-95 | every drive other than EAGAIN, an empty write or a stopped machine strictly lowers a measure that is 0 only when stopped |
| `Relay.RunTerminates` | proIO/non-blocked/relay.c:33-95 | a source of n bytes is finished after at most 2 + 3n drives that do not stall |
| `Relay.EverythingDelivered` | proIO/non-blocked/relay.c:33-120 | unless a call fails, 2 + 3n drives that do not stall deliver a source of n bytes completely |
| `RelayLoops.Fsm.constructor` | proIO/non-blocked/relay.c:108-114 | a machine starts in the read state with nothing transferred |
| `RelayLoops.Fsm.Fill` | proIO/non-blocked/relay.c:39 | read overwrites exactly the first bytes of the buffer |
| `RelayLoops.Fsm.DriverReads` | proIO/non-blocked/relay.c:38-61 | the read state does what Drive says, for every answer of read |
| `RelayLoops.Fsm.DriverWrites` | proIO/non-blocked/relay.c:62-83 | the write state does what Drive says, for every answer of write |
| `RelayLoops.Fsm.Driver` | proIO/epoll/relay.c:36-98 | the in-place driver refines Drive and keeps the stream relation |
| `RelayLoops.BusyRelay` | proIO/non-blocked/relay.c:97-124 | the busy loop drives both directions every round until both have stopped, and nothing else |
| `RelayLoops.PollRelay` | proIO/epoll/relay.c:105-168 | the poll loop, with stale events and shared descriptors, drives exactly the directions that can use it |
| `RelayLoops.EpollRelay` | proIO/poll/relay.c:105-191 | so does the epoll loop with its one reused event record |
| `RelayLoops.RelaysSound` | proIO/poll/relay.c:143-186 | whichever loop picks the steps, each direction makes one of the runs above |
| `RelayLoops.RelaysDeliver` | proIO/poll/relay.c:143-186 | in each of the loops the first direction's destination gets a prefix of its source, and all of it if the direction stops and none of its calls failed |
| `RelayLoops.RelaysDeliverBack` | proIO/epoll/relay.c:128-164 | the same for the other direction |
| `RelayLoops.ErrorEnds` | proIO/epoll/relay.c:157-164 | a direction that met an error has stopped after the next round, whatever is ready |
| `RelayLoops.NotReadyStays` | proIO/epoll/relay.c:157-164 | the loops that ask leave a direction alone whose descriptor is not ready |
| `RelayLoops.RelaysStop` | proIO/epoll/relay.c:128-164 | over finite input each loop stops after at most a fixed number of rounds in which some direction was neither stopped nor held up by a descriptor that is not ready, EAGAIN or an empty write |
| `Relayer.SweepKeepsSlot` | proIO/non-blocked/relayer/relayer.c:117-138 | a sweep keeps: a job is OVER iff both its machines have stopped; an OVER job is left alone |
| `Relayer.Table.Sweep` | proIO/non-blocked/relayer/relayer.c:117-138 | one pass drives every running job once by its own answers and marks it OVER iff both machines have stopped |
| `Relayer.Table.GetFreePos` | proIO/non-blocked/relayer/relayer.c:154-162 | finds the first free slot or reports none |
| `Relayer.Table.AddJob` | proIO/non-blocked/relayer/relayer.c:164-208 | a new job goes into a free slot and no other slot changes; refused iff the table is full |
| `Relayer.ApplyKeepsTable` | proIO/non-blocked/relayer/relayer.c:117-208 | every operation keeps the whole table sound |
| `Relayer.JobsIndependent` | proIO/non-blocked/relayer/relayer.c:117-208 | over every interleaving of sweeps and adds, the future of a job depends on its own answers alone |
| `Relayer.OverStaysOver` | proIO/non-blocked/relayer/relayer.c:117-138 | an OVER job is never driven again |
| `Relayer.DirectionsRun` | proIO/non-blocked/relayer/relayer.c:51-138 | each direction of each job makes one of the runs of the single relay |
| `Relayer.JobsKeepStreams` | proIO/non-blocked/relayer/relayer.c:51-138 | one more sweep or add keeps the stream relation of every job |
| `Relayer.EveryJobStreams` | proIO/non-blocked/relayer/relayer.c:117-208 | from the empty table on, over every interleaving of adds and sweeps, each direction of each job has written a prefix of what it read, and all of it if it stopped without a write error |
| `Relayer.SweepsAreBusyRelay` | proIO/non-blocked/relayer/relayer.c:117-138 | the sweeps do to a job exactly what the busy loop of the single relay does to its two machines |
| `Relayer.JobsEnd` | proIO/non-blocked/relayer/relayer.c:117-208 | over every interleaving of sweeps and adds, a new job between sources of t12 and t21 bytes is OVER or all but 4 + 3 * (t12 + t21) of its sweeps were idle |
| `Relayer.JobsDeliver` | proIO/non-blocked/relayer/relayer.c:117-208 | over every interleaving of sweeps and adds, a new job's destinations get prefixes of its sources, and all of them when it is OVER without a failed call |
| `Relayer.TableFillsUp` | proIO/non-blocked/relayer/relayer.c:154-208 | slots are never freed: exactly the first table-size adds of any run succeed |
| `TokenBucket.Bucket.Refill` | thread/posix/mytbf_multithread/mytbf.c:48-55 | tokens grow by cps, capped at burst |
| `TokenBucket.Bucket.Fetch` | thread/posix/mytbf_multithread/mytbf.c:143-163 | refuses a non-positive size, waits iff there is no token, otherwise grants the smaller of tokens and size |
| `TokenBucket.Bucket.Return` | thread/posix/mytbf_multithread/mytbf.c:165-177 | tokens come back, capped at burst; a non-positive size is refused |
| `TokenBucket.BucketTable.Init` | thread/posix/mytbf_multithread/mytbf.c:98-137 | a new empty bucket in the first free slot that knows its position, or null iff the table is full; no other slot changes |
| `TokenBucket.BucketTable.Destroy` | thread/posix/mytbf_multithread/mytbf.c:178-190 | only the bucket's own slot is cleared and it is in no other |
| `TokenBucket.BucketTable.Sweep` | thread/posix/mytbf_multithread/mytbf.c:38-61 | every bucket in the table is refilled exactly once |
| `RateLimit.NextKeepsInv` | thread/posix/mytbf_multithread/mytbf.c:38-61 | every step keeps 0 <= token <= burst, nobody asleep while there are tokens, and the exact accounts: token + fetched - returned + spilled = cps * ticks, fetched - returned = written + held + lost with a client |
| `RateLimit.RunKeepsInv` | thread/posix/mytbf_multithread/mytbf.c:143-177 | so does every run with any number of clients |
| `RateLimit.SpillsOnlyWhenFull` | thread/posix/mytbf_multithread/mytbf.c:49-53 | tokens are cut off only at a bucket that is then full |
| `RateLimit.TicksFill` | thread/posix/mytbf_multithread/mytbf.c:44-57 | k ticks in a row bring k * cps tokens, as far as the bucket holds them |
| `RateLimit.AskGets` | thread/posix/mytbf_multithread/mytbf.c:158-161 | a client that asks while there are tokens gets as many as it asks for, or all of them |
| `RateLimit.Growth` | thread/posix/mytbf_multithread/mytbf.c:38-61 | between any two states of a run, net fetched plus tokens grows by at most cps per tick |
| `RateLimit.WindowBound` | thread/posix/mytbf_multithread/mytbf.c:143-177 | over every window of every run fetched - returned <= burst + cps * ticks |
| `RateLimit.WrittenBound` | thread/posix/mytbf_multithread/main.c:49-83 | from creation on, bytes written <= fetched - returned <= cps * ticks |
| `RateLimit.NeverAToken` | thread/posix/mytbf_multithread/mytbf.c:38-61 | with rate 0 or burst 0 there is never a token |
| `RateLimit.ServedIff` | thread/posix/mytbf_multithread/mytbf.c:143-163 | an asking client can be served from a reachable state iff rate, burst and request are positive |
| `BucketLocks.NextKeepsInv` | thread/posix/mytbf_multithread/mytbf.c:38-61 | every lock, table, token and free operation keeps: an occupied slot holds a live bucket whose pos is that slot, locks have one holder, calls are on live buckets |
| `BucketLocks.RunKeepsInv` | thread/posix/mytbf_multithread/mytbf.c:98-190 | so does every interleaving of init, destroy, fetch, return and sweeps on any number of buckets |
| `BucketLocks.SweepNeverTouchesFreed` | thread/posix/mytbf_multithread/mytbf.c:38-61 | while it waits for a bucket's mutex, holds it and lets it go, the refill thread is on a live bucket that is in the table |
| `BucketLocks.SomeoneMoves` | thread/posix/mytbf_multithread/mytbf.c:38-61 | whoever holds the innermost lock can go on, so locks form no cycle of waiting: while a sweep or a call other than a sleeping fetch is in progress somebody can move |
| `BucketProgress.SweepKeepsTokens` | thread/posix/mytbf_multithread/mytbf.c:38-61 | a sweep refills a bucket up to its burst and wakes all who sleep at it, so no fetch sleeps beside tokens |
| `BucketProgress.ContinueKeepsTokens` | thread/posix/mytbf_multithread/mytbf.c:143-190 | so do fetch, return, init and destroy |
| `BucketProgress.BucketLaws` | thread/posix/mytbf_multithread/mytbf.c:46-56 | in every bucket refill, return and fetch keep the exact accounts, bring and take what they should, and spill only at a full bucket |
| `BucketProgress.RunKeepsTokens` | thread/posix/mytbf_multithread/mytbf.c:38-190 | over every interleaving, the accounts of every bucket in the table are exact, 0 <= token <= burst, and a fetch that has not been woken sleeps at a bucket with token 0 |
| `BucketProgress.RefillNearer` | thread/posix/mytbf_multithread/mytbf.c:46-56 | with positive rates the refill of a bucket serves the fetches at it |
| `BucketProgress.StepNearer` | thread/posix/mytbf_multithread/mytbf.c:38-190 | with positive rates some step of a call in progress or of the refill thread lowers a measure |
| `BucketProgress.CallsComplete` | thread/posix/mytbf_multithread/mytbf.c:38-190 | with positive rates all calls in progress, fetches asleep for tokens included, and the sweep can complete without new calls and without spurious wakeups |
| `BucketProgress.ThirstyForever` | thread/posix/mytbf_multithread/mytbf.c:149-157 | a fetch alone at an empty bucket with cps = 0 or burst = 0 never returns |
| `BucketProgress.FetchSleeps` | thread/posix/mytbf_multithread/mytbf.c:98-163 | init and fetch reach that state |
| `BucketProgress.CallsCompleteIff` | thread/posix/mytbf_multithread/mytbf.c:38-190 | for every table size and number of threads: every reachable state can complete its calls in progress without new ones iff every rate used has cps > 0 and burst > 0 |
| `ServerPool.Pool.ScanPool` | IPC/socket/stream/pool_dynamic/server.c:49-78 | exactly the slots of dead children are cleared; idle_count and busy_count are the numbers of living children that are idle and busy; aborts iff a living child was read busy and then idle |
| `ServerPool.SlotSets` | IPC/socket/stream/pool_dynamic/server.c:49-78 | the recursive counts of idle and busy slots are numbers of slots |
| `ServerPool.AliveCounts` | IPC/socket/stream/pool_dynamic/server.c:54-67 | after dead children are cleared these are the living children |
| `ServerPool.Pool.AddServer` | IPC/socket/stream/pool_dynamic/server.c:120-154 | if the capacity check passes the search finds the first free slot inside the table and the child starts idle; the counters keep matching it |
| `ServerPool.Pool.DelServer` | IPC/socket/stream/pool_dynamic/server.c:156-172 | removes the first idle slot, iff idle_count is positive and there is one; the counters keep matching the table |
| `ServerPool.Pool.Children` | IPC/socket/stream/pool_dynamic/server.c:80-118 | children flip their own states and nothing else |
| `ServerPool.Pool.Shrink` | IPC/socket/stream/pool_dynamic/server.c:252-258 | with its moving bound the deletion loop never undershoots; without flips it removes exactly half the excess, rounded up |
| `ServerPool.Pool.Grow` | IPC/socket/stream/pool_dynamic/server.c:259-265 | the addition loop adds exactly half the deficit, rounded up, or as much as the table has room for |
| `ServerPool.Pool.ControlPass` | IPC/socket/stream/pool_dynamic/server.c:252-265 | one control step: unchanged in the band, otherwise the moving-bound correction; without flips the counters stay exact |
| `ServerPool.Pool.ControlRound` | IPC/socket/stream/pool_dynamic/server.c:245-265 | one round, scan and control: without flips, whoever died, the round is one pass over the numbers of living idle and busy children |
| `ServerPool.Pool.ControlLoop` | IPC/socket/stream/pool_dynamic/server.c:245-265 | n rounds: without flips or deaths it never aborts, the idle children are what n passes make of them, the band is reached once the gap is below 2^n, and in the band the table stays as it is |
| `ServerPool.PassHalvesGap` | IPC/socket/stream/pool_dynamic/server.c:252-265 | one quiet pass halves the distance from the band, unless it fills the table |
| `ServerPool.PassesConverge` | IPC/socket/stream/pool_dynamic/server.c:245-265 | n quiet passes leave the gap divided by 2^n, so the band is reached in logarithmically many passes and kept |
| `AnyTimer.Timer.AlarmAction` | anytimer/anytimer.c:45-66 | nothing unless the kernel sent the signal; else every running job has one tick less, starts over if it repeats or becomes OVER when due, and due jobs are logged in slot order |
| `AnyTimer.Timer.GetFreePos` | anytimer/anytimer.c:32-42 | finds the first free slot or reports none |
| `AnyTimer.Timer.AddJob` | anytimer/anytimer.c:121-190 | a job in the first free slot with sec ticks to go, nothing else changed; EINVAL iff sec < 0, ENOSPC iff the table is full |
| `AnyTimer.Timer.CancelJob` | anytimer/anytimer.c:193-203 | a running job's slot becomes cancelled and nothing else changes; every error code iff its cause |
| `AnyTimer.Timer.WaitJob` | anytimer/anytimer.c:206-220 | empties the slot of a one-shot job iff it is not running, and changes nothing otherwise; refuses repeating jobs |
| `AnyTimer.TickLogCount` | anytimer/anytimer.c:49-64 | a tick logs exactly the due jobs, once each |
| `AnyTimer.TickLogOrder` | anytimer/anytimer.c:49-64 | callbacks of one tick run in slot order |
| `AnyTimer.SlotStep` | anytimer/anytimer.c:45-66 | no operation on other slots affects a job |
| `AnyTimer.AfterKeepsInv` | anytimer/anytimer.c:121-220 | over every sequence of operations jobs stay distinguishable |
| `AnyTimer.RepeatingJob` | anytimer/anytimer.c:45-66 | over any interleaving, a repeating job fires once per completed period and has the rest of the period left |
| `AnyTimer.RepeatingFromStart` | anytimer/anytimer.c:156-190 | from its start: floor(k/sec) callbacks after k ticks and sec - k mod sec left |
| `AnyTimer.OneShotJob` | anytimer/anytimer.c:121-154 | a one-shot job fires exactly once, at tick sec |
| `AnyTimer.DormantNeverFires` | anytimer/anytimer.c:45-66 | a cancelled or finished job never fires again, whatever becomes of its slot |
| `AnyTimer.CancelSilences` | anytimer/anytimer.c:193-203 | a successful cancel silences the job for good |
| `AnyTimer.ZeroSecondsNeverFires` | anytimer/anytimer.c:126-147 | a job accepted with sec = 0 never fires |
| `AnyTimer.FiresIffPositive` | anytimer/anytimer.c:121-190 | left alone for at least sec ticks, an accepted job fires iff sec >= 1 |
| `AnyTimer.OccupancyLaw` | anytimer/anytimer.c:121-220 | over every sequence of operations the jobs in the table are those accepted and not yet waited for |
| `AnyTimer.RefusedIff` | anytimer/anytimer.c:136-140 | from an empty table on, an add is refused iff as many jobs as there are slots were accepted and not waited for |
| `AnyTimer.OneShotOver` | anytimer/anytimer.c:54-61 | a one-shot job left alone long enough is OVER in its slot, and no slot was taken or freed meanwhile |
| `AnyTimer.SlotComesBack` | anytimer/anytimer.c:206-220 | add, let the time pass, wait: the slot is free again, so this can go on for ever in a table with a single free slot |

## Left out

- Programs that are not modelled: mypipe, proIO/select/relay.c, homework/tickets.c, the message-queue file transfer, the
  C source statistics and word counters, the token buckets driven from signal handlers, the relays over regular files,
  the socket, FIFO, daemon, signal, terminal, time and OpenSSL demos, and the smaller semaphore, spin-lock and rw-lock
  demos.
- Handoff.RunKeepsInv: requires LEFT >= 1, because the cell uses 0 for empty and -1 for stop, so the program cannot hand
  over smaller numbers.
- Handoff.EveryRunCanComplete: requires LEFT >= 2, because with 1 in the range the output is not the primes
  (Handoff.FinishedOutput says so exactly).
- DirPoolLimits.DeadlockFreeIff: is exact per number of subdirectories, not per tree, like its two companions: a particular
  tree with more subdirectories may be safe, for example a chain.
- Threads that share memory are step relations over values rather than imperative code, because Dafny methods are
  sequential; each step is one critical section. Where such a section works on a data structure (ring, list, bucket,
  table, machine), that structure is also a class.
- The relayer's jobs are values in the table, so sharing of a job pointer outside the table is not modelled; its driver is
  the function that the in-place machine is proved against.
- Relayer.Table.AddJob: models the effect on the table and whether there was room; the source function returns no value
  on success. The fcntl flags are not modelled.
- Fairness: progress is stated as "every reachable state can be continued to the end" and as measures that decrease, not
  as termination under a fair scheduler. Where every step without spurious wakeups lowers a measure (fork-join, the
  parking lot, the thread pool's workers), every such run is also proved to be bounded.
- Failures of malloc, strdup, fork, pthread_create and of poll and epoll themselves, path truncation at 1024 bytes,
  errors of readdir, entry types the file system does not
  report, and trees that change while they are counted.
- errno in the sequential program: it is set by a refused opendir and cleared as the source does; that a library call which
  succeeds may also leave it set is not modelled.
- TaskPool.Drain: assumes that every task returns when it is executed; the program's own task, handle_client, runs until
  its client disconnects. The same holds for TaskPool.WorkersRunBounded and TaskPool.MaximalRunDrains.
- Integer widths: counters, tokens, ticks and sums are mathematical integers.
- File names, printed text and the merging of result files; a scan's file is the sequence of its numbers.
- The `shutdown` flag of the linked-list pool in the protocol: TaskPool.TaskList.Take handles it, no code sets it.
- Token buckets with negative rate or burst, use of a bucket after its destruction, and destroying it twice.
- Loading and unloading of the libraries, and callbacks that call the timer library from the tick handler: a callback is
  an entry in a log. The slot of a repeating timer is never reclaimed in the source either.
- POLLHUP and POLLERR: a descriptor is readable or writable as the environment chooses. Each direction of each relay has
  its own source and destination.
- server_job of the server pool: a child's flips and its death are choices of the environment.
