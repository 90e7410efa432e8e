# TinyOS 3: a verified model of the kernel

A Dafny model of the self-contained cores of TinyOS 3, a small multicore
teaching kernel, with proofs of what they are for. `dafny verify dfyconfig.toml`
checks all of it.

Every concurrent core is given twice. One module describes it as a system of
steps on values: what a thread or a core does between taking a lock and giving
it back is one step, and any thread or core may step next. The invariant and the
theorems over whole runs are about this system. A second module holds the code
as classes and loops that update their data in place, and every method that is
such a stretch is proved to take exactly one step of the system.

In the classes the kernel's lists (SCHED, TIMEOUT_LIST, wait rings, lists of
processes, PTCBs and FCBs) are sequences. For SCHED, TIMEOUT_LIST and the wait
rings, `SchedNodes` and `WaitRing` have the same operations on the nodes, where
SCHED and TIMEOUT_LIST share the one node of a TCB and a wait ring has no
sentinel; each is proved to do to its ring what the classes do to the sequence.

| modules | core |
|---|---|
| `RList`, `RListOps`, `RListLoops` | the intrusive lists of `util.h` on heap nodes, built on `rl_splice` |
| `Argv` | the argument vectors of `util.h`, and `Execute` with `exec_wrapper` |
| `Sched`, `SchedInv`, `SchedThms`, `SchedRuns`, `SleepRuns`, `SchedLife`, `Scheduler`, `SchedNodes` | `kernel_sched.c` for any number of cores and threads |
| `CondVar`, `TimedWait`, `MutexRuns`, `KernelSem`, `KernelWaits`, `Conditions`, `WaitRing` | `kernel_cc.c` on top of the scheduler, with the gap between releasing a mutex and falling asleep |
| `StrayExit` | what the unlocked exit of `start_process_thread` does to the kernel lock |
| `Streams`, `StreamSteps`, `StreamRuns`, `FileTable` | references to FCBs in `kernel_streams.c`, shared by all processes |
| `Procs`, `ProcInv`, `ProcThms`, `ProcLife`, `ProcExits`, `ProcExamples`, `ProcTable` | the process tree of `kernel_proc.c`, with the end of a process in `kernel_threads.c` |
| `Threads`, `ThreadJoins`, `ThreadExamples`, `ThreadTable` | join, detach and exit in `kernel_threads.c` |
| `Pipe`, `PipeCalls`, `PipeCb` | `kernel_pipe.c`: the protocol of readers and writers, and the cyclic buffer |
| `Symposium`, `SymposiumTable` | the dining philosophers of `symposium.c` |
| `Barrier` | the reusable barrier of `tinyoslib.c` |
| `Lists` | sequences without repetitions |

The numbers of cores, threads, processes, file ids, philosophers and the sizes
of buffers are parameters. Integers that can wrap around in the source are
reduced where that matters: wakeup times modulo 2^64, the barrier's fields
modulo 2^32. Auxiliary fields, which no step reads, are named in the comment of
their datatype.

The kernel modules above the condition variables (`Procs`, `Threads`, `Pipe`)
and the monitors (`Symposium`, `Barrier`) record a wait as a sleeping thread
that a signal or broadcast marks as signalled. `CondVar` proves of the real wait
what they use: a signal or broadcast after the lock was released finds the
waiter, and a broadcast wakes all. In all of them a sleeper may also run
without a signal, at any time. `KernelSem` proves that stretches under the
kernel lock exclude each other.

## Departures

Where the code does not do what it is meant to do, the model follows the code,
a lemma says exactly when the intent is met, and another shows an input.

- `rlist_pop_back` (`util.h`, line 479) empties the list and returns its tail in
  a ring with all other nodes. It is right exactly for lists of one node
  (`RListOps.PopBackRemovesTailIff`, `RListOps.PopBackCounterexample`).
- `start_process_thread` (`kernel_threads.c`, line 20) reaches `kernel_sleep`
  without the kernel lock. In every run, `kernel_sem` and the holders of the lock
  add up to 1 exactly as long as no thread has done so
  (`KernelSem.SleepNeedsTheLock`). After it two threads can hold the lock
  (`StrayExit.StrayExitBreaksExclusion`). The theorems of the other modules take
  exits to go through the wrapper of `kernel_sys.c`, lines 36-42.
- Two threads that wait for the same child both reap it (`kernel_proc.c`, lines
  271-274). Reaping is safe exactly if no other thread waits for that child
  (`ProcThms.ReapIsSafeIff`), and otherwise the next two processes share a PCB
  (`ProcThms.SecondReap`, `ProcThms.TwoProcessesShare`,
  `ProcExamples.TwoShareAPcb`). The steps of `Procs` have one waiter for a child;
  they reach such a table, and the second call of `WaitChild` is not one of them.
- The last thread of init that leaves by `ThreadExit` fails the assertion of
  `kernel_threads.c`, line 204, exactly if a process with pid 2 or more is left
  (`ProcThms.AssertionsHoldIff`, `ProcThms.ThreadExitPossibleIff`,
  `ProcExamples.InitLeavesTooEarly`). The runs of `Procs` end there.
- `Exit` does not end the other threads of the process
  (`ProcThms.ExitEndsProcessIff`, `ProcExamples.ExitLeavesAThread`).
- The status that `WaitChild` delivers is the process's own exactly if one of its
  threads has called `Exit`. A process that ends by `ThreadExit` alone reports
  what an earlier user of its PCB has left (`ProcExits.StatusIsOwnIff`,
  `ProcExamples.StaleStatus`).
- A join after a successful join may succeed too (`Threads.JoinAgainIff`,
  `ThreadExamples.JoinedTwice`), and a PTCB created without a task is never freed
  (`Threads.LeaksAreExact`, `ThreadExamples.LeaksAPtcb`).
- `sys_Pipe` keeps its first file id reserved if the second reservation fails
  (`FileTable.FileTable.ReservePipe` says when, `StreamRuns.PipeKeepsAnId`).
- `FCB_unreserve` leaves the count of a freed FCB at 1
  (`StreamRuns.UnreserveLeavesCount`); the counts are exact for FCBs that are not
  free (`StreamRuns.AlwaysConserved`), and `acquire_FCB` resets them.
- A timeout that makes `curtime + timeout` wrap around ends the sleep too early
  (`SleepRuns.SleepsLongEnoughIff`, `SchedRuns.WrappedSleepEndsAtOnce`). One whose
  wakeup time comes out as `NO_TIMEOUT` breaks the timeout list, and no other
  does (`SchedThms.SleepKeepsInvIff`, `SchedRuns.NeverTimeoutBreaksTheList`). The
  runs of the scheduler have no timeout of the second kind.

## Model

| member | source | states |
|---|---|---|
| `RList.SpliceJoins` | tinyOS3_project/tinyos3/util.h:167-188 | splice(a,b) on two rings [a,x..] and [b,y..] gives the one ring [a,y..,b,x..], for any x and y |
| `RList.SpliceSplits` | tinyOS3_project/tinyos3/util.h:167-188 | splice(a,b) on one ring [a,x..,b,y..] gives the two disjoint rings [a,y..] and [b,x..], also when a and b are adjacent |
| `RList.SpliceIsItsOwnInverse` | tinyOS3_project/tinyos3/util.h:173-175 | splicing the same two nodes again restores every pointer of the heap, also for equal nodes |
| `RList.SpliceKeepsInverse` | tinyOS3_project/tinyos3/util.h:160-162 | a splice of any two nodes keeps next and prev mutually inverse on the whole heap |
| `RList.SpliceFrame` | tinyOS3_project/tinyos3/util.h:405-410 | a splice leaves every ring that contains neither node as it was |
| `RList.SpliceGeneral` | tinyOS3_project/tinyos3/util.h:184-188 | in any well-formed heap any two different nodes are in one of the two documented situations, and splice makes the documented change |
| `RList.CloseRing` | tinyOS3_project/tinyos3/util.h:155-164 | following next from any node of a well-formed heap comes back to it: every node lies on a ring |
| `RList.RingIsUnique` | tinyOS3_project/tinyos3/util.h:163-164 | a ring is determined by its first node: two descriptions of it that begin alike are equal |
| `RList.SharedNode` | tinyOS3_project/tinyos3/util.h:163-164 | two rings with one node in common have the same nodes, in the same order from that node on |
| `RList.Rotate` | tinyOS3_project/tinyos3/util.h:163-164 | [b,c,a] and [a,b,c] describe the same ring |
| `RListOps.RlSplice` | tinyOS3_project/tinyos3/util.h:405-410 | the two pointer swaps in place have the effect of splice on the whole heap, also for equal and adjacent nodes, and the second node is returned |
| `RListOps.RlistRemove` | tinyOS3_project/tinyos3/util.h:412-424 | the node leaves its ring, with a sentinel or without, which keeps its other nodes in order, and becomes a singleton; on a singleton there is no effect; pointers elsewhere are unchanged |
| `RListOps.RlistPushBack` | tinyOS3_project/tinyos3/util.h:453 | the ring of the node goes to the tail of the list; other nodes are unchanged |
| `RListOps.RlistPushFront` | tinyOS3_project/tinyos3/util.h:442 | the ring of the node goes to the head of the list; other nodes are unchanged |
| `RListOps.RlistPopFront` | tinyOS3_project/tinyos3/util.h:466 | removes and returns the first node; on an empty list returns the list and changes nothing |
| `RListOps.RlistPopBack` | tinyOS3_project/tinyos3/util.h:468-479 | what the code does, against its documentation: the list becomes empty and the tail is left in a ring with all other nodes |
| `RListOps.PopBackRemovesTailIff` | tinyOS3_project/tinyos3/util.h:468-479 | rlist_pop_back leaves the list without its tail exactly if the list has one node |
| `RListOps.PopBackCounterexample` | tinyOS3_project/tinyos3/util.h:468-479 | on a list of two nodes rlist_pop_back empties the list |
| `RListOps.PushBackSpec` | tinyOS3_project/tinyos3/util.h:444-453 | splice(list->prev, n) appends the ring of n |
| `RListOps.PushFrontSpec` | tinyOS3_project/tinyos3/util.h:433-442 | splice(list, n) prepends the ring of n |
| `RListOps.RemoveSpec` | tinyOS3_project/tinyos3/util.h:412-424 | splice(n, n->prev) takes n out of any ring and leaves a singleton, and changes nothing if n is alone |
| `RListLoops.RlistAppend` | tinyOS3_project/tinyos3/util.h:530-534 | concatenation of the two node sequences; the source list becomes empty |
| `RListLoops.RlistPrepend` | tinyOS3_project/tinyos3/util.h:544-548 | concatenation the other way round; the source list becomes empty |
| `RListLoops.RlistSelect` | tinyOS3_project/tinyos3/util.h:595-610 | stable partition: the nodes that satisfy pred go to the end of the destination in their order, the others stay in their order; the loop ends although it moves the nodes it walks over |
| `RListLoops.FilterMembers` | tinyOS3_project/tinyos3/util.h:589-594 | selection picks exactly the nodes with the property, and from a list without repetitions each once |
| `RListLoops.FilterIsPartition` | tinyOS3_project/tinyos3/util.h:589-594 | what is kept and what is moved together are a permutation of the list |
| `RListLoops.RlistReverse` | tinyOS3_project/tinyos3/util.h:555-564 | the list holds the reverse of its node sequence; the loop ends although it swaps the pointers it follows |
| `RListLoops.RlistLen` | tinyOS3_project/tinyos3/util.h:487-497 | the number of nodes |
| `RListLoops.RlistFind` | tinyOS3_project/tinyos3/util.h:576-587 | the first node with the key, or the given node if there is none |
| `RListLoops.RlistEqual` | tinyOS3_project/tinyos3/util.h:506-520 | true exactly if the two lists hold the same keys in the same order |
| `Argv.Argvlen` | tinyOS3_project/tinyos3/util.h:627-635 | the number of bytes of the packed form |
| `Argv.Argvpack` | tinyOS3_project/tinyos3/util.h:649-661 | writes exactly the packed form and returns its length; the rest of the buffer is unchanged |
| `Argv.PackString` | tinyOS3_project/tinyos3/util.h:655-657 | one string is copied up to and with its first zero, and nothing else is written |
| `Argv.Argscount` | tinyOS3_project/tinyos3/util.h:672-681 | the number of zero bytes |
| `Argv.Argvunpack` | tinyOS3_project/tinyos3/util.h:697-707 | for any buffer with at least argc zeros: never leaves it, and the strings found are, packed again, the bytes read |
| `Argv.SkipString` | tinyOS3_project/tinyos3/util.h:703-704 | stops just after the next zero byte, inside the buffer |
| `Argv.PackCount` | tinyOS3_project/tinyos3/util.h:663-682 | the packed form of a vector of zero-free strings has one zero per string |
| `Argv.PackInjective` | tinyOS3_project/tinyos3/util.h:637-661 | different vectors have different packed forms |
| `Argv.UnpackOfPack` | tinyOS3_project/tinyos3/util.h:683-707 | unpacking a packed vector gives the same strings and reads the whole buffer |
| `Argv.PackPrefixIsWhole` | tinyOS3_project/tinyos3/util.h:683-707 | no proper prefix of a packed vector is a packed vector of as many strings |
| `Argv.ExecuteBuffer` | tinyOS3_project/tinyos3/tinyoslib.c:148-168 | the buffer given to Exec is the program pointer followed by the packed vector |
| `Argv.CopyArgs` | tinyOS3_project/tinyos3/kernel_proc.c:201-209 | the new process gets a copy of the argument bytes |
| `Argv.ExecWrapper` | tinyOS3_project/tinyos3/tinyoslib.c:95-113 | takes such a buffer apart: pointer, count and start positions, without leaving it, for every content |
| `Argv.ExecuteDelivers` | tinyOS3_project/tinyos3/tinyoslib.c:95-168 | Execute, the copy by Exec, and exec_wrapper deliver the original program, argc and argv |
| `SchedInv.StepInv` | tinyOS3_project/tinyos3/kernel_sched.c:153-517 | every section of every core keeps the scheduler invariant, in any interleaving of any number of cores and threads |
| `SchedInv.InitInv` | tinyOS3_project/tinyos3/kernel_sched.c:522-555 | the state in which the cores enter the scheduler has the invariant |
| `SchedThms.RunInv` | tinyOS3_project/tinyos3/kernel_sched.c:153-517 | the invariant holds in every state of every run |
| `SchedThms.QueueIsExact` | tinyOS3_project/tinyos3/kernel_sched.h:58-63 | in every reachable state a TCB is in SCHED exactly if it is a normal thread, READY, CTX_CLEAN and not the next thread of a core between yield and gain; and it is there once |
| `SchedThms.OneCoreAtATime` | tinyOS3_project/tinyos3/kernel_sched.c:406-449 | no thread is current on two cores, or current on one while another still leaves it |
| `SchedThms.SwapsInCleanContexts` | tinyOS3_project/tinyos3/kernel_sched.h:53-56 | a core swaps in only a thread whose context is CTX_CLEAN, and away from one that is CTX_DIRTY |
| `SchedThms.GainNeverFails` | tinyOS3_project/tinyos3/kernel_sched.c:478-490 | assert(0) in gain is unreachable |
| `SchedThms.MakeReadyNeverFails` | tinyOS3_project/tinyos3/kernel_sched.c:284-292 | at a call from wakeup, which tests for STOPPED or INIT, a thread with a wakeup time is STOPPED and in the timeout list, as the second assertion of sched_make_ready says |
| `SchedRuns.ExpiryCallsAreSafe` | tinyOS3_project/tinyos3/kernel_sched.c:308-319 | in every round of the expiry loop the thread it takes is STOPPED and has a wakeup time, and the invariant holds: both assertions of sched_make_ready hold there too |
| `SchedThms.ReleasedIsUnused` | tinyOS3_project/tinyos3/kernel_sched.c:483-485 | a TCB is released only when EXITED, and then no list and no core refers to it |
| `SchedThms.ActiveCountsThreads` | tinyOS3_project/tinyos3/kernel_sched.c:184-206 | active_threads is the number of live normal TCBs whenever no spawn or release is in progress |
| `SchedThms.IdleLeavesForGood` | tinyOS3_project/tinyos3/kernel_sched.c:508-517 | an idle thread leaves its loop only when no normal thread is left, and none appears afterwards |
| `SchedInv.NoThreadsLeft` | tinyOS3_project/tinyos3/kernel_sched.c:509 | active_threads read as 0 means that no thread exists, not even one half spawned or half released |
| `SchedThms.ReadyIsSomewhere` | tinyOS3_project/tinyos3/kernel_sched.c:294-299 | a READY normal thread is in SCHED or on its way into or out of a core: it cannot be forgotten |
| `SchedThms.WakeupDuringSwitch` | tinyOS3_project/tinyos3/kernel_sched.c:345-367 | a wakeup of a thread whose core is between yield and gain does not queue it; the gain of that core does, if it is the very next step |
| `SchedThms.WakeupBeforeYield` | tinyOS3_project/tinyos3/kernel_sched.c:396-402 | a wakeup of a thread between sleep_releasing and yield is kept: the thread is READY when its core leaves it, if that yield is the very next step |
| `SchedRuns.WakeupLands` | tinyOS3_project/tinyos3/kernel_sched.c:345-367 | a wakeup of a sleeper puts it into SCHED, or leaves it READY on its way through the core it has not left |
| `SchedRuns.StepOnTheWay` | tinyOS3_project/tinyos3/kernel_sched.c:345-501 | no step of any core takes a thread off this way, except the gain of that core, with which it is in SCHED or runs |
| `SchedRuns.WokenThreadArrives` | tinyOS3_project/tinyos3/kernel_sched.c:345-501 | over runs: a woken thread is on its way until the next gain of its core, whatever the other cores and wakeups do in between, and in SCHED or current after it |
| `SchedThms.TimeoutsAreExact` | tinyOS3_project/tinyos3/kernel_sched.c:245-319 | in every reachable state the timeout list is sorted by wakeup time and holds exactly the threads with a wakeup time, each once, all STOPPED and none of them in SCHED |
| `SchedThms.ExpiryIsExact` | tinyOS3_project/tinyos3/kernel_sched.c:308-319 | the expiry loop wakes exactly the sleepers that are due, queues those with a clean context in the order of their times, and keeps the rest in order |
| `SchedThms.InsertIsStable` | tinyOS3_project/tinyos3/kernel_sched.c:252-259 | a new sleeper goes after all entries with an earlier or equal wakeup time and before all later ones |
| `SchedThms.SleepKeepsInvIff` | tinyOS3_project/tinyos3/kernel_sched.c:245-261 | a sleep with a timeout keeps the invariant exactly if the computed wakeup time, modulo 2^64, is not NO_TIMEOUT; a sum that wraps around keeps the list intact, and wakes too early |
| `SchedRuns.ExpiresWhenDue` | tinyOS3_project/tinyos3/kernel_sched.c:245-319 | the expiry loop, run just after the sleep has begun, ends it at clock time T exactly if the wakeup time, modulo 2^64, is at most T |
| `SleepRuns.SleeperStep` | tinyOS3_project/tinyos3/kernel_sched.c:245-441 | a step takes a thread off the timeout list exactly if it is a wakeup of this thread, or a yield of any core at a clock time that has reached its wakeup time; then it is READY, else STOPPED with the same wakeup time |
| `SleepRuns.SleepsUntilDue` | tinyOS3_project/tinyos3/kernel_sched.c:245-441 | over runs: a sleeper stays in the timeout list with its wakeup time until such a wakeup or yield, whatever else happens |
| `SleepRuns.LeavesWhenDue` | tinyOS3_project/tinyos3/kernel_sched.c:245-441 | over runs: what ends a sleep is such a wakeup or yield |
| `SleepRuns.SleepsLongEnoughIff` | tinyOS3_project/tinyos3/kernel_sched.c:245-319 | over all runs from a reachable state: no run ends a sleep with a timeout by a yield at a clock time before curtime + timeout, exactly if that sum does not wrap around |
| `SleepRuns.EarlyAtOnce` | tinyOS3_project/tinyos3/kernel_sched.c:250-251 | if it does, the run in which the same core yields next ends it |
| `SchedRuns.WrappedSleepEndsAtOnce` | tinyOS3_project/tinyos3/kernel_sched.c:250-251 | a reachable state in which a sleep of 2^64 - 2 microseconds ends at once |
| `SchedRuns.NeverTimeoutBreaksTheList` | tinyOS3_project/tinyos3/kernel_sched.c:250-251 | a reachable state in which a timeout of NO_TIMEOUT - curtime puts a thread on the timeout list with the time that means never |
| `SchedThms.QueueStep` | tinyOS3_project/tinyos3/kernel_sched.c:268-340 | SCHED is a queue: only yield takes, from its head; everything else appends |
| `SchedThms.QueueIsFair` | tinyOS3_project/tinyos3/kernel_sched.c:327-340 | a thread at position p of SCHED is given a core within p + 1 yields, whichever cores make them |
| `SchedThms.IdleOnlyWhenNothingToDo` | tinyOS3_project/tinyos3/kernel_sched.c:334-335 | a core turns to its idle thread only with SCHED empty and its own thread not READY |
| `SchedLife.StepLives` | tinyOS3_project/tinyos3/kernel_sched.c:268-500 | the state and the wakeup time of a thread after any step are those of an automaton that knows of the other threads only who is current where: created INIT; READY by a wakeup, a due timeout, or a yield of its core; RUNNING by the gain; STOPPED or EXITED by its own sleep_releasing; gone by the gain that follows its exit |
| `SchedLife.ExitBegins` | tinyOS3_project/tinyos3/kernel_sched.c:380-397 | sleep_releasing(EXITED) makes its thread EXITED, on its way out of its core |
| `SchedLife.ExitedNeverRuns` | tinyOS3_project/tinyos3/kernel_sched.c:406-437 | a thread on its way out is in neither list and current on no running core |
| `SchedLife.ExitStep` | tinyOS3_project/tinyos3/kernel_sched.c:406-487 | no step of any core takes it off this way but the gain of its own, which releases it |
| `SchedLife.ExitedIsReleased` | tinyOS3_project/tinyos3/kernel_sched.c:380-487 | over runs: from its exit on a thread stays EXITED, is never in SCHED and never runs, until the gain after the next yield of its core, which releases its TCB |
| `SchedInv.GainInv` | tinyOS3_project/tinyos3/kernel_sched.c:463-501 | gain keeps the invariant when it requeues, releases or leaves the previous thread |
| `SchedInv.YieldInv` | tinyOS3_project/tinyos3/kernel_sched.c:406-437 | yield keeps the invariant |
| `SchedInv.ReadyInv` | tinyOS3_project/tinyos3/kernel_sched.c:282-300 | sched_make_ready keeps the invariant |
| `SchedInv.SleepInv` | tinyOS3_project/tinyos3/kernel_sched.c:372-394 | sleep_releasing keeps the invariant |
| `SchedInv.SelectIsReady` | tinyOS3_project/tinyos3/kernel_sched.c:327-340 | what sched_queue_select returns is READY, and clean and on no core if it is another thread |
| `SchedNodes.InsertBefore` | tinyOS3_project/tinyos3/kernel_sched.c:258-259 | splice(n->prev, k) puts a single node between the node before n and n, also if n is the sentinel |
| `SchedNodes.SchedQueueAdd` | tinyOS3_project/tinyos3/kernel_sched.c:268-272 | the node of the thread goes to the end of the ring of SCHED; TIMEOUT_LIST and all other nodes stay as they are |
| `SchedNodes.SchedMakeReady` | tinyOS3_project/tinyos3/kernel_sched.c:282-300 | on the nodes: the sched_node leaves TIMEOUT_LIST and joins SCHED as sched_make_ready says of the two lists; the assertion that it is not alone holds |
| `SchedNodes.SchedQueuePop` | tinyOS3_project/tinyos3/kernel_sched.c:327-332 | on the nodes: the head of SCHED leaves it and is returned; of an empty list the sentinel is |
| `SchedNodes.SchedRegisterTimeout` | tinyOS3_project/tinyos3/kernel_sched.c:253-259 | on the nodes: the loop stops at the first later entry and the sched_node is put before it, which is insertion by time |
| `Scheduler.Scheduler.constructor` | tinyOS3_project/tinyos3/kernel_sched.c:528-547 | all cores on their idle thread, the main thread of init queued |
| `Scheduler.Scheduler.SpawnThread` | tinyOS3_project/tinyos3/kernel_sched.c:153-171 | allocates and initialises a TCB as the step says, keeping the invariant |
| `Scheduler.Scheduler.CountSpawned` | tinyOS3_project/tinyos3/kernel_sched.c:184-189 | counts it in active_threads |
| `Scheduler.Scheduler.SchedRegisterTimeout` | tinyOS3_project/tinyos3/kernel_sched.c:245-261 | the insertion loop puts the thread before the first later entry |
| `Scheduler.Scheduler.SchedMakeReady` | tinyOS3_project/tinyos3/kernel_sched.c:282-300 | leaves the timeout list, becomes READY, and is queued exactly if its context is clean |
| `Scheduler.Scheduler.SchedWakeupExpiredTimeouts` | tinyOS3_project/tinyos3/kernel_sched.c:308-319 | the loop does what the specification of expiry says, and ends |
| `Scheduler.Scheduler.SchedQueueSelect` | tinyOS3_project/tinyos3/kernel_sched.c:327-340 | head of the queue, else the current thread if READY, else the idle thread |
| `Scheduler.Scheduler.Wakeup` | tinyOS3_project/tinyos3/kernel_sched.c:345-367 | returns 1 exactly if the thread was STOPPED or INIT, and then makes it ready |
| `Scheduler.Scheduler.SleepReleasing` | tinyOS3_project/tinyos3/kernel_sched.c:372-394 | the state change and the timeout of one section |
| `Scheduler.Scheduler.Yield` | tinyOS3_project/tinyos3/kernel_sched.c:406-443 | the section of yield takes the step of the specification |
| `Scheduler.Scheduler.Gain` | tinyOS3_project/tinyos3/kernel_sched.c:463-493 | the section of gain takes the step of the specification; its default case is dead |
| `Scheduler.Scheduler.CountReleased` | tinyOS3_project/tinyos3/kernel_sched.c:203-205 | the second half of release_TCB |
| `Scheduler.Scheduler.IdleCheck` | tinyOS3_project/tinyos3/kernel_sched.c:509 | leaves exactly if active_threads is 0, and then no thread is left |
| `CondVar.CvStepInv` | tinyOS3_project/tinyos3/kernel_cc.c:83-202 | every section of cv_wait, Cond_Signal, Cond_Broadcast and the mutexes, and every step of the scheduler under them, keeps the invariant of the wait rings |
| `CondVar.CvRunInv` | tinyOS3_project/tinyos3/kernel_cc.c:83-202 | it holds in every state of every run |
| `CondVar.InRingWhileWaiting` | tinyOS3_project/tinyos3/kernel_cc.c:124-148 | a waiter is in the ring of its condition exactly while its removed flag is 0 and it has not tidied up |
| `CondVar.NoMissedSignal` | tinyOS3_project/tinyos3/kernel_cc.c:136-138 | whoever gets to signal after the mutex was released finds the waiter in the ring and asleep, unless something else has woken it: the unlock-and-sleep gap loses no signal |
| `CondVar.SignalWakesFirst` | tinyOS3_project/tinyos3/kernel_cc.c:161-173 | Cond_Signal wakes exactly the first waiter that is still STOPPED, drops the ones before it unsignalled, and leaves those behind it alone |
| `CondVar.BroadcastWakesAll` | tinyOS3_project/tinyos3/kernel_cc.c:197-202 | after a broadcast the ring is empty and every sleeper of the condition has been woken by it |
| `CondVar.WaitReturnsSignalled` | tinyOS3_project/tinyos3/kernel_cc.c:94-152 | cv_wait returns 1 exactly if a signal or broadcast ended its sleep |
| `CondVar.WokenIsHonest` | tinyOS3_project/tinyos3/kernel_cc.c:161-173 | a wait counts as signalled only through a signal or broadcast on its own condition that found it STOPPED; this never changes again |
| `CondVar.ArrivalOrder` | tinyOS3_project/tinyos3/kernel_cc.c:127-134 | no step changes the order of arrival in a ring, and newcomers go to its end |
| `TimedWait.WaitBegins` | tinyOS3_project/tinyos3/kernel_cc.c:136-138 | cv_wait puts its thread to sleep, on the timeout list exactly if it has a timeout, with the wakeup time (curtime + timeout) mod 2^64 |
| `TimedWait.WaiterStep` | tinyOS3_project/tinyos3/kernel_cc.c:136-148 | a step ends a wait without a signal exactly if it is a wakeup of this thread or a yield at a clock time that has reached its wakeup time; with a signal only if it signals its condition; else its timer stays |
| `TimedWait.WaitEnds` | tinyOS3_project/tinyos3/kernel_cc.c:182-186 | over runs: what ends a wait; a yield does exactly if there is a timeout and the clock has reached it, so a wait without a timeout is ended by no yield |
| `TimedWait.TimedOutReturnsZero` | tinyOS3_project/tinyos3/kernel_cc.c:151 | over runs: a wait that was ended by anything but a signal returns 0 |
| `MutexRuns.HolderStep` | tinyOS3_project/tinyos3/kernel_cc.c:36-61 | a thread has a mutex after a step exactly if it has just taken it, by a lock or at the end of cv_wait, or had it and has not given it up; it is taken only when free |
| `MutexRuns.TakenOnce` | tinyOS3_project/tinyos3/kernel_cc.c:36-61 | over runs: of two threads that take a mutex the first has given it up before the second takes it |
| `MutexRuns.WaitsWithoutMutex` | tinyOS3_project/tinyos3/kernel_cc.c:102-152 | over runs: a thread in cv_wait is without the mutex for all of the wait, stays with its condition, and has the mutex when it returns |
| `WaitRing.WaitSet.Push` | tinyOS3_project/tinyos3/kernel_cc.c:127-134 | on the nodes: a new waiter goes to the end of the ring that waitset points into, or is the ring; nodes elsewhere are unchanged |
| `WaitRing.WaitSet.RemoveFromRing` | tinyOS3_project/tinyos3/kernel_cc.c:83-91 | on the nodes: the waiter leaves the ring and is alone, the others keep their order, and waitset points to the first that is left, or is NULL |
| `WaitRing.WaitSet.constructor` | tinyOS3_project/tinyos3/tinyos.h:136 | nobody waits |
| `Conditions.Conditions.MutexLock` | tinyOS3_project/tinyos3/kernel_cc.c:36-61 | taking a free mutex |
| `Conditions.Conditions.MutexUnlock` | tinyOS3_project/tinyos3/kernel_cc.c:36-61 | releasing it |
| `Conditions.Conditions.CvWaitPush` | tinyOS3_project/tinyos3/kernel_cc.c:124-137 | joins the ring at its end and releases the mutex, still holding waitset_lock |
| `Conditions.Conditions.CvWaitSleep` | tinyOS3_project/tinyos3/kernel_cc.c:138 | falls asleep and releases waitset_lock in one step |
| `Conditions.Conditions.RemoveFromRing` | tinyOS3_project/tinyos3/kernel_cc.c:83-91 | takes the waiter out of the ring, also as its head or only member |
| `Conditions.Conditions.CvWaitTidy` | tinyOS3_project/tinyos3/kernel_cc.c:141-148 | leaves the ring if nobody removed the waiter; the assertion holds |
| `Conditions.Conditions.CvWaitReturn` | tinyOS3_project/tinyos3/kernel_cc.c:150-151 | takes the mutex again; the result says if a signal ended the wait |
| `Conditions.Conditions.SignalHead` | tinyOS3_project/tinyos3/kernel_cc.c:165-171 | one round of the loop of cv_signal |
| `Conditions.Conditions.CvSignal` | tinyOS3_project/tinyos3/kernel_cc.c:161-173 | the loop of cv_signal ends and has the effect of the specification |
| `Conditions.Conditions.CondSignal` | tinyOS3_project/tinyos3/kernel_cc.c:189-194 | Cond_Signal takes its step |
| `Conditions.Conditions.CondBroadcast` | tinyOS3_project/tinyos3/kernel_cc.c:197-202 | the loop of Cond_Broadcast ends and takes its step |
| `KernelSem.KStepInv` | tinyOS3_project/tinyos3/kernel_cc.c:226-287 | every step of kernel_lock, kernel_unlock, kernel_wait and kernel_sleep keeps the invariant of the kernel semaphore, except that of a kernel_sleep without the lock that raises the semaphore |
| `KernelSem.KRunInv` | tinyOS3_project/tinyos3/kernel_cc.c:226-287 | it holds in every state of every run in which nobody has raised the semaphore without the lock |
| `KernelSem.KRunShape` | tinyOS3_project/tinyos3/kernel_cc.c:226-287 | in every run, with such sleepers too, kernel_sem plus the number of holders is 1 plus the number of these sleeps; and the rest of the invariant holds |
| `KernelSem.KernelMutualExclusion` | tinyOS3_project/tinyos3/kernel_cc.c:213-250 | in such runs at most one thread holds the kernel lock, and kernel_sem plus the number of holders is 1 |
| `KernelSem.KernelNoLostWakeup` | tinyOS3_project/tinyos3/kernel_cc.c:234-269 | in such runs, whenever kernel_sem is positive and threads queue for it, some thread that is not asleep has yet to test it |
| `KernelSem.SleepNeedsTheLock` | tinyOS3_project/tinyos3/kernel_threads.c:10-21 | over every run, with the exit of start_process_thread as steps of it: kernel_sem and the holders add up to 1 exactly as long as no thread has gone through kernel_sleep without the lock |
| `KernelWaits.WaitsInItsRing` | tinyOS3_project/tinyos3/kernel_cc.c:237-260 | a thread that has to wait for the lock goes to the end of the ring of kernel_sem_cv, one in kernel_wait to the end of the ring of its condition; no other ring changes, and kernel_mutex is free |
| `KernelWaits.WaitStep` | tinyOS3_project/tinyos3/kernel_cc.c:260-264 | it stays in this wait, on this condition, until cv_wait returns with kernel_mutex, and then tests the semaphore |
| `KernelWaits.EntersAsHolder` | tinyOS3_project/tinyos3/kernel_cc.c:234-266 | a thread on its way into the lock, by kernel_lock or at the end of kernel_wait, stays on its way or becomes a holder, and then kernel_sem was positive and is one lower |
| `KernelWaits.NoWayAroundTheLock` | tinyOS3_project/tinyos3/kernel_cc.c:252-269 | over runs: between the beginning of kernel_lock, or the wait of kernel_wait, and the next time the thread is out of it, it gets the lock |
| `KernelWaits.GivenUpByHolder` | tinyOS3_project/tinyos3/kernel_cc.c:244-258 | the lock is given up by its holder only, and kernel_sem is then one higher |
| `KernelWaits.SleepExits` | tinyOS3_project/tinyos3/kernel_cc.c:281-287 | after kernel_sleep(EXITED) the thread is EXITED, on its way out of its core, and never runs again; kernel_mutex is free |
| `StrayExit.StrayLetsAnotherIn` | tinyOS3_project/tinyos3/kernel_threads.c:20 | from any state with a holder, in which two other threads run and kernel_mutex is free: three steps of that exit and two of kernel_lock give a second holder |
| `StrayExit.CalmIsReached` | tinyOS3_project/tinyos3/kernel_cc.c:234-242 | such a state is reached from the start of the machine: three threads on three cores, the first with the kernel lock |
| `StrayExit.StrayExitBreaksExclusion` | tinyOS3_project/tinyos3/kernel_threads.c:20 | a reachable state in which two threads hold the kernel lock |
| `Conditions.KernelLock.EnterLock` | tinyOS3_project/tinyos3/kernel_cc.c:236 | kernel_lock takes kernel_mutex |
| `Conditions.KernelLock.TestSemaphore` | tinyOS3_project/tinyos3/kernel_cc.c:237-241 | one test of the loop: takes the semaphore or starts to wait |
| `Conditions.KernelLock.BeginRelease` | tinyOS3_project/tinyos3/kernel_cc.c:246 | kernel_unlock, kernel_wait and kernel_sleep take kernel_mutex |
| `Conditions.KernelLock.RaiseSemaphore` | tinyOS3_project/tinyos3/kernel_cc.c:247-248 | kernel_sem++ and the signal |
| `Conditions.KernelLock.EndUnlock` | tinyOS3_project/tinyos3/kernel_cc.c:249 | kernel_unlock ends |
| `Conditions.KernelLock.StartWait` | tinyOS3_project/tinyos3/kernel_cc.c:260 | kernel_wait starts to wait on its condition |
| `Conditions.KernelLock.BeginStrayRelease` | tinyOS3_project/tinyos3/kernel_cc.c:283 | kernel_sleep without the kernel lock takes kernel_mutex |
| `Conditions.KernelLock.RaiseStraySemaphore` | tinyOS3_project/tinyos3/kernel_cc.c:284-285 | ... and raises the semaphore: one more than before the lock was given out |
| `Conditions.KernelLock.EndWait` | tinyOS3_project/tinyos3/kernel_cc.c:260-263 | a wait on kernel_mutex ends; the result says if a signal ended it |
| `Conditions.KernelLock.SleepExited` | tinyOS3_project/tinyos3/kernel_cc.c:281-287 | kernel_sleep(EXITED) releases kernel_mutex and leaves |
| `Streams.IncRefInv` | tinyOS3_project/tinyos3/kernel_streams.c:44-48 | one more reference to an FCB in use keeps the counts exact |
| `Streams.DecRefInv` | tinyOS3_project/tinyos3/kernel_streams.c:50-61 | giving back a reference keeps the counts exact; the FCB goes to the free list exactly if it was the last |
| `Streams.InUse` | tinyOS3_project/tinyos3/kernel_streams.c:145-153 | an FCB held by a table slot or by a call in progress is not free and has a positive count |
| `Streams.AcquireInv` | tinyOS3_project/tinyos3/kernel_streams.c:27-36 | an acquired FCB is no longer free, and its count starts at 0 whatever it was |
| `Streams.UnreserveInv` | tinyOS3_project/tinyos3/kernel_streams.c:101-109 | FCB_unreserve keeps the counts of all FCBs in use exact, although the count of the freed one stays 1 |
| `Streams.PutSlotInv` | tinyOS3_project/tinyos3/kernel_streams.c:92-95 | storing a counted reference in an empty slot keeps the counts exact |
| `Streams.ClearSlotInv` | tinyOS3_project/tinyos3/kernel_streams.c:216-221 | clearing a slot puts its reference into the hand of the caller, to be given back |
| `FileTable.FileTable.constructor` | tinyOS3_project/tinyos3/kernel_streams.c:15-24 | all FCBs free, in order |
| `FileTable.FileTable.AcquireFCB` | tinyOS3_project/tinyos3/kernel_streams.c:27-36 | the first free FCB with count 0, or none |
| `FileTable.FileTable.FcbDecref` | tinyOS3_project/tinyos3/kernel_streams.c:50-61 | calls Close and frees the FCB exactly when the count reaches 0; the result is that of Close, else 0 |
| `FileTable.FileTable.BeginCall` | tinyOS3_project/tinyos3/kernel_streams.c:131-153 | takes its step: Read and Write take a reference of the FCB of a valid file id; conservation is kept |
| `FileTable.FileTable.EndCall` | tinyOS3_project/tinyos3/kernel_streams.c:154-160 | takes its step: the reference is given back; Close runs here exactly if it was the last |
| `FileTable.FileTable.SysClose` | tinyOS3_project/tinyos3/kernel_streams.c:196-208 | a file id is removed; 0 on a closed one, -1 on an invalid one, and on an open one the result of Close if its FCB loses its last reference, else 0; Close is called exactly once for such an FCB and for no other |
| `FileTable.FileTable.SysDup2` | tinyOS3_project/tinyos3/kernel_streams.c:218-238 | takes its step; 0 exactly for two valid ids of which the old one is open; then the new id holds the same FCB; Close exactly for an FCB that lost its last reference; otherwise nothing changes |
| `FileTable.FileTable.CloseAll` | tinyOS3_project/tinyos3/kernel_threads.c:231-239 | takes its step: process exit closes all its file ids, each stream exactly once and only if its last reference went |
| `FileTable.FileTable.InheritFiles` | tinyOS3_project/tinyos3/kernel_proc.c:189-195 | takes its step: the child holds the FCBs of its parent at the same ids; conservation is kept |
| `FileTable.FileTable.FindFids` | tinyOS3_project/tinyos3/kernel_streams.c:71-78 | the first num free ids, or failure exactly if there are fewer |
| `FileTable.FileTable.AcquireAll` | tinyOS3_project/tinyos3/kernel_streams.c:79-90 | num FCBs, or none: on failure all are free again |
| `FileTable.FileTable.RollBack` | tinyOS3_project/tinyos3/kernel_streams.c:83-90 | gives back what was acquired, last first |
| `FileTable.FileTable.InstallAll` | tinyOS3_project/tinyos3/kernel_streams.c:91-95 | stores every FCB at its id with count 1 |
| `FileTable.FileTable.FcbReserve` | tinyOS3_project/tinyos3/kernel_streams.c:65-97 | takes its step; succeeds exactly if there are num free ids and num free FCBs, with the first of each; on failure no id and no FCB is lost |
| `FileTable.FileTable.FcbUnreserve` | tinyOS3_project/tinyos3/kernel_streams.c:101-109 | undoes a reservation: ids free again, FCBs at the end of the free list, the assertion holds |
| `FileTable.FileTable.ReserveOne` | tinyOS3_project/tinyos3/kernel_streams.c:65-97 | FCB_reserve for one stream |
| `FileTable.FileTable.OpenStream` | tinyOS3_project/tinyos3/kernel_streams.c:251-270 | takes its step: the first free id with a fresh FCB; on failure, also of the device, the ids and the set of free FCBs are as before |
| `FileTable.FileTable.ReservePipe` | tinyOS3_project/tinyos3/kernel_pipe.c:13-14 | takes its step; both reservations of sys_Pipe: they succeed exactly if two ids and two FCBs are free; a failure changes the file table exactly if the first reservation succeeded, whose id then stays reserved |
| `StreamSteps.FreeFidsSpec` | tinyOS3_project/tinyos3/kernel_streams.c:71-78 | the search finds exactly the free ids, in increasing order |
| `StreamSteps.FreeFidsTail` | tinyOS3_project/tinyos3/kernel_pipe.c:13-14 | the second reservation sees the free ids but the first |
| `StreamRuns.StepOk` | tinyOS3_project/tinyos3/kernel_streams.c:15-270 | every system call keeps the counts exact, and what it installs, closes and unreserves accounts for which FCBs come into use and go out of use |
| `StreamRuns.AlwaysConserved` | tinyOS3_project/tinyos3/kernel_streams.c:15-270 | in every state of every run of reserve, open, pipe, begin and end of a call, close, dup2, inherit and process exit, by any processes: an FCB is free exactly if no file id and no call in progress holds it, and otherwise its count is the number of these |
| `StreamRuns.HistoryAccounts` | tinyOS3_project/tinyos3/kernel_streams.c:50-61 | over any run, the events of each FCB alternate: installed only when free, closed or unreserved only when in use |
| `StreamRuns.ClosedOnce` | tinyOS3_project/tinyos3/kernel_streams.c:50-61 | over any run, between an installation of an FCB and the next one there is exactly one end of its use: one call of Close, or one unreserve, not both |
| `StreamRuns.InstallsAndEnds` | tinyOS3_project/tinyos3/kernel_streams.c:50-61 | at any time in any run, the installations of an FCB are its closes and unreserves, and one more if it is in use |
| `StreamRuns.ClosesAreExact` | tinyOS3_project/tinyos3/kernel_streams.c:50-61 | of system calls that only close: Close is called exactly once for every FCB that loses its last reference, and for no other |
| `StreamRuns.PipeKeepsAnId` | tinyOS3_project/tinyos3/kernel_pipe.c:13-14 | tables with exactly one free FCB, and with exactly one free file id, in which sys_Pipe fails and keeps file id 0 reserved |
| `StreamRuns.UnreserveLeavesCount` | tinyOS3_project/tinyos3/kernel_streams.c:101-109 | a run of one failed open_stream after which the only FCB is free with its count at 1 |
| `ProcInv.StepInv` | tinyOS3_project/tinyos3/kernel_proc.c:81-341 | every stretch of Exec, CreateThread, ThreadExit, Exit and WaitChild under the kernel lock keeps the invariant of the process table |
| `ProcInv.ExecInv` | tinyOS3_project/tinyos3/kernel_proc.c:164-228 | Exec keeps it: the new process becomes a child of its creator, or nothing changes without a free PCB |
| `ProcInv.CleanupInv` | tinyOS3_project/tinyos3/kernel_proc.c:241-250 | reaping a zombie nobody else waits for keeps it |
| `ProcInv.DieInv` | tinyOS3_project/tinyos3/kernel_threads.c:177-202 | the end of a process keeps it: reparenting, handing over zombies, joining the parent's exited list |
| `ProcInv.ThreadExitInv` | tinyOS3_project/tinyos3/kernel_threads.c:162-247 | sys_ThreadExit keeps it |
| `ProcInv.InitHasChildren` | tinyOS3_project/tinyos3/kernel_proc.c:174-188 | if any process with pid 2 or more is in use, init has a child |
| `ProcInv.PushAllSpec` | tinyOS3_project/tinyos3/kernel_threads.c:184-189 | the reparenting loop loses and duplicates no child |
| `ProcThms.BootInv` | tinyOS3_project/tinyos3/kernel_proc.c:53-76 | the table after initialize_processes and the Exec of init has the invariant, with pids 0 and 1 |
| `ProcThms.RunInv` | tinyOS3_project/tinyos3/kernel_proc.c:81-341 | the invariant holds in every state of every run |
| `ProcThms.RootedAtInit` | tinyOS3_project/tinyos3/kernel_proc.c:174-188 | every process in use but the idle one descends from init |
| `ProcThms.ListsAreExact` | tinyOS3_project/tinyos3/kernel_proc.h:53-57 | children_list holds exactly the processes in use with this parent, exited_list exactly the zombies among them, each once; only a process that is alive has any |
| `ProcThms.ProcessCountExact` | tinyOS3_project/tinyos3/kernel_proc.c:81-105 | process_count is the number of PCBs in use |
| `ProcThms.NothingAfterInit` | tinyOS3_project/tinyos3/kernel_proc.c:334-339 | once init is a zombie, all PCBs but 0 and 1 are FREE |
| `ProcThms.InitLeavesLast` | tinyOS3_project/tinyos3/kernel_proc.c:334-340 | when the loop of sys_Exit in init ends, no process with pid 2 or more is in use, the assertions of sys_ThreadExit hold, and init becomes a zombie exactly if this was its last thread |
| `ProcThms.NoChildrenIff` | tinyOS3_project/tinyos3/kernel_proc.c:174-188 | init has no children exactly if no PCB with pid 2 or more is in use |
| `ProcThms.AssertionsHoldIff` | tinyOS3_project/tinyos3/kernel_threads.c:204-205 | when the last thread of a process leaves, the assertions hold exactly if the process is not init or no PCB with pid 2 or more is in use, which ThreadExit does not wait for |
| `ProcThms.ThreadExitPossibleIff` | tinyOS3_project/tinyos3/kernel_threads.c:162-205 | a thread may leave by ThreadExit without failing them exactly if it is not the last one of init, or no PCB with pid 2 or more is in use |
| `ProcExamples.InitLeavesTooEarly` | tinyOS3_project/tinyos3/kernel_threads.c:204 | a reachable table at which the assertion fails: init has made one Exec, and its only thread calls ThreadExit |
| `ProcThms.ExitEndsProcessIff` | tinyOS3_project/tinyos3/tinyos.h:244-256 | Exit ends the process exactly if its caller is the only thread left, against its documentation |
| `ProcExamples.ExitLeavesAThread` | tinyOS3_project/tinyos3/kernel_proc.c:326-341 | a reachable table with a process of two threads, of which one calls Exit and the other goes on |
| `ProcThms.SleepersWaitForTheLiving` | tinyOS3_project/tinyos3/kernel_proc.c:271-298 | a thread asleep in WaitChild and not signalled waits for a live child of its own, or has children none of which has exited: no exit is missed |
| `ProcThms.WaitOutcome` | tinyOS3_project/tinyos3/kernel_proc.c:252-310 | WaitChild sleeps, or finds nothing to wait for, or gives back one zombie child (the one asked for, or the front of the exited list) and changes nothing else |
| `ProcThms.ExitValueKept` | tinyOS3_project/tinyos3/kernel_proc.c:331-332 | a step changes an exit value only if it is an Exit in that process, which stores its argument; Exec does not reset it |
| `ProcExits.ExitValueIsLast` | tinyOS3_project/tinyos3/kernel_proc.c:331-332 | in every state of every run the exit value of a PCB is the argument of the last Exit by any process that has had it, or 0 |
| `ProcExits.StatusIsOwnIff` | tinyOS3_project/tinyos3/kernel_proc.c:241-245 | over runs: the exit value of a process is the argument of its own last Exit exactly if one of its threads has called Exit since acquire_PCB gave it the PCB; else it is what the PCB had then, from an earlier process |
| `ProcExits.StepLives` | tinyOS3_project/tinyos3/kernel_proc.c:81-105 | a PCB goes from FREE to ALIVE at the head of the free list, to ZOMBIE with its last thread, and back to FREE when its parent reaps it; no step does anything else |
| `ProcExits.ZombieKeepsStatus` | tinyOS3_project/tinyos3/kernel_proc.c:241-245 | over runs: what a process has as exit value when it becomes a zombie is what it has when it is reaped |
| `ProcExits.FreedByWait` | tinyOS3_project/tinyos3/kernel_proc.c:241-250 | over runs: a PCB in use is freed only as a zombie, by a WaitChild of its parent or by the loop of Exit in init |
| `ProcExamples.StaleStatus` | tinyOS3_project/tinyos3/kernel_proc.c:241-245 | a run in which a process that never calls Exit is reaped with status 7, which the earlier user of its PCB has left |
| `ProcThms.ReapIsSafeIff` | tinyOS3_project/tinyos3/kernel_proc.c:271-274 | reaping a child leaves all other waiters with a child to wait for exactly if no other thread waits for this one |
| `ProcThms.SecondReap` | tinyOS3_project/tinyos3/kernel_proc.c:241-274 | from any such state: the other waiter goes on and frees the PCB again, process_count is 2 lower, the PCB is on the free list twice, and two processes in a row get it |
| `ProcThms.TwoProcessesShare` | tinyOS3_project/tinyos3/kernel_proc.c:164-188 | after that the invariant is lost, and two processes that the parent executes are one PCB, twice among its children and with the threads of both |
| `ProcExamples.TwoToReap` | tinyOS3_project/tinyos3/kernel_proc.c:271-274 | such a table is reached: a thread of init waits for a child that has exited, and another thread of init is free to reap it |
| `ProcExamples.TwoShareAPcb` | tinyOS3_project/tinyos3/kernel_proc.c:271-274 | from that table, after both have reaped, two calls of Exec give the main threads of two processes to the same PCB |
| `ProcLife.ExecBears` | tinyOS3_project/tinyos3/kernel_proc.c:164-227 | Exec takes the first free PCB, makes it an ALIVE child of the caller at the front of its children, with one thread if it has a task, which lives there; without a free PCB and in all other PCBs nothing changes |
| `ProcLife.ThreadIsBorn` | tinyOS3_project/tinyos3/kernel_threads.c:62-66 | a new thread lives in the process of its creator |
| `ProcLife.ThreadExitSpec` | tinyOS3_project/tinyos3/kernel_threads.c:175-246 | ThreadExit of a process other than init: one thread less, or with the last one a zombie without children; its children become those of init, its zombies go behind those of init, it goes before the zombies of its parent, and those who wait there are told, and no others |
| `ProcLife.ExitSpec` | tinyOS3_project/tinyos3/kernel_proc.c:326-341 | the same of Exit, with the exit value stored |
| `ProcLife.CallLooks` | tinyOS3_project/tinyos3/kernel_proc.c:252-310 | WaitChild sleeps exactly while the child is ALIVE, or there are children and none has exited; else it takes the child, or the front of the exited list, off the lists and frees its PCB; and nothing else changes |
| `ProcLife.ResumeLooks` | tinyOS3_project/tinyos3/kernel_proc.c:271-299 | a woken waiter does the same for the child it waits for, and in the loop of Exit goes round again |
| `ProcLife.ExitLooks` | tinyOS3_project/tinyos3/kernel_proc.c:326-339 | Exit of init with children stores the value and goes into this loop |
| `ProcLife.WaitMovesNobody` | tinyOS3_project/tinyos3/kernel_proc.c:255-268 | WaitChild moves no thread, and does nothing for a pid that is not a child of the caller |
| `ProcLife.InitExitsLast` | tinyOS3_project/tinyos3/kernel_proc.c:334-340 | over runs: a thread of init that calls Exit stays in init and waits, until a step of its own finds init without children; with the first such step it leaves |
| `ProcTable.ProcTable.constructor` | tinyOS3_project/tinyos3/kernel_proc.c:55-71 | the loop links all PCBs into the free list in the order of pids |
| `ProcTable.ProcTable.Boot` | tinyOS3_project/tinyos3/kernel_proc.c:73-75 | the idle process and init get pids 0 and 1 |
| `ProcTable.ProcTable.AcquirePCB` | tinyOS3_project/tinyos3/kernel_proc.c:81-94 | the first free PCB, ALIVE, or none |
| `ProcTable.ProcTable.ReleasePCB` | tinyOS3_project/tinyos3/kernel_proc.c:99-105 | back to the front of the free list |
| `ProcTable.ProcTable.SysExec` | tinyOS3_project/tinyos3/kernel_proc.c:164-228 | takes the step of the specification and returns the new pid or NOPROC |
| `ProcTable.ProcTable.ExecStep` | tinyOS3_project/tinyos3/kernel_proc.c:164-228 | ... in a running kernel, keeping the invariant |
| `ProcTable.ProcTable.CreateThread` | tinyOS3_project/tinyos3/kernel_threads.c:62-64 | one more thread in the process |
| `ProcTable.ProcTable.CleanupZombie` | tinyOS3_project/tinyos3/kernel_proc.c:241-250 | delivers the exit value, unlinks the child, frees the PCB |
| `ProcTable.ProcTable.LoopForChild` | tinyOS3_project/tinyos3/kernel_proc.c:270-274 | one look at the child: sleep exactly while it is ALIVE, else reap it |
| `ProcTable.ProcTable.LoopForAny` | tinyOS3_project/tinyos3/kernel_proc.c:288-309 | one round: no children, sleep, or reap the front of the exited list |
| `ProcTable.ProcTable.WaitChild` | tinyOS3_project/tinyos3/kernel_proc.c:312-324 | takes its step; it waits exactly if the thread is then asleep; else the pid is the one asked for, or that of some child, NOPROC exactly without children; it was a zombie child of the caller and the status is its exit value; an illegal pid gives NOPROC |
| `ProcTable.ProcTable.Resume` | tinyOS3_project/tinyos3/kernel_proc.c:271-298 | takes its step: a woken waiter looks again, and returns with pid and status as WaitChild does, or sleeps again |
| `ProcTable.ProcTable.SysExit` | tinyOS3_project/tinyos3/kernel_proc.c:326-341 | stores the exit value; init waits for all children first |
| `ProcTable.ProcTable.SysThreadExit` | tinyOS3_project/tinyos3/kernel_threads.c:162-247 | takes its step |
| `ProcTable.ProcTable.EndProcess` | tinyOS3_project/tinyos3/kernel_threads.c:179-202 | the end of a process other than init |
| `ProcTable.ProcTable.Reparent` | tinyOS3_project/tinyos3/kernel_threads.c:184-189 | the loop moves every child to init, and ends |
| `ProcTable.ProcTable.MoveExited` | tinyOS3_project/tinyos3/kernel_threads.c:193-201 | zombies go to the end of init's exited list, the process to the front of its parent's, and both are told |
| `Threads.StepInv` | tinyOS3_project/tinyos3/kernel_threads.c:42-223 | every stretch of create, join, detach and exit under the kernel lock keeps the invariant of the PTCBs |
| `Threads.RunInv` | tinyOS3_project/tinyos3/kernel_threads.c:42-223 | it holds in every state of every run |
| `Threads.ThreadCountExact` | tinyOS3_project/tinyos3/kernel_threads.c:175-177 | thread_count is the number of PTCBs on ptcb_list that have not exited, which are those of the running threads |
| `Threads.HeldWhileJoined` | tinyOS3_project/tinyos3/kernel_threads.c:102-136 | a PTCB is allocated and on the list as long as a joiner holds it, and its refcount is the number of these joiners |
| `Threads.SleeperHasTarget` | tinyOS3_project/tinyos3/kernel_threads.c:105-108 | a thread asleep on exit_cv and not signalled has a target that has neither exited nor been detached |
| `Threads.ExitOwes` | tinyOS3_project/tinyos3/kernel_threads.c:168-173 | the exit of an undetached thread owes its value to every thread that sleeps in a join of it |
| `Threads.OwedUntilPaid` | tinyOS3_project/tinyos3/kernel_threads.c:105-154 | no step, not even a detach or other joiners, takes this away: the joiner stays owed until it runs and returns 0 with that value |
| `Threads.JoinersAreServed` | tinyOS3_project/tinyos3/tinyos.h:339-341 | in any run, every joiner that sleeps when an undetached thread exits returns 0 with its exit value when it runs |
| `Threads.JoinAgainIff` | tinyOS3_project/tinyos3/tinyos.h:336-337 | a further join of a joined thread still succeeds exactly while other joiners have not run yet |
| `ThreadExamples.JoinedTwice` | tinyOS3_project/tinyos3/kernel_threads.c:102-136 | a reachable process in which a thread joins the same exited thread twice, with success, while a second joiner has not run yet |
| `Threads.LeaksAreExact` | tinyOS3_project/tinyos3/kernel_threads.c:42-69 | the PTCBs that are allocated and on no list are exactly those created without a task |
| `ThreadExamples.LeaksAPtcb` | tinyOS3_project/tinyos3/kernel_threads.c:42-69 | a reachable process with a PTCB on no list, which is still allocated when the last thread has left |
| `Threads.LastExitFreesAll` | tinyOS3_project/tinyos3/kernel_threads.c:211-222 | the last exit frees every PTCB that was created with a task |
| `Threads.ExitInv` | tinyOS3_project/tinyos3/kernel_threads.c:162-177 | no thread sleeps in a join when the last one leaves |
| `ThreadJoins.NewThread` | tinyOS3_project/tinyos3/kernel_threads.c:42-70 | a new thread goes to the end of the list, and every join of it by another thread waits; one without a task is on no list, and every join of it fails; other PTCBs stay as they are |
| `ThreadJoins.JoinDoes` | tinyOS3_project/tinyos3/kernel_threads.c:83-139 | a join returns -1 exactly for a thread not on the list, detached, or the caller; sleeps exactly if it is none of these and has not exited; else returns its exit value and frees its PTCB exactly if nobody sleeps in a join of it |
| `ThreadJoins.ResumeDoes` | tinyOS3_project/tinyos3/kernel_threads.c:105-138 | a woken joiner returns -1 if its target is detached, sleeps again if it has not exited, and else returns its exit value, freeing the PTCB exactly as the last joiner |
| `ThreadJoins.DetachDoes` | tinyOS3_project/tinyos3/kernel_threads.c:143-155 | a detach fails exactly for a thread not on the list or exited; else it sets detached and tells all who sleep in a join of it, and no others |
| `ThreadJoins.ExitDoes` | tinyOS3_project/tinyos3/kernel_threads.c:162-177 | an exit that is not the last one stores its value and tells all who sleep in a join of the thread, and no others |
| `ThreadJoins.ExitedIsJoined` | tinyOS3_project/tinyos3/kernel_threads.c:83-139 | over runs: after the exit of an undetached thread, while others live, every join of it by any of them gives its exit value, up to and with the first one at which nobody else sleeps in one |
| `ThreadJoins.JoinedIsGone` | tinyOS3_project/tinyos3/kernel_threads.c:125-135 | over runs: after that one every join of it fails, until its address is used again |
| `ThreadJoins.DetachedIsNotJoined` | tinyOS3_project/tinyos3/kernel_threads.c:112-155 | over runs: after a successful detach, while threads are left, every join of the thread fails, also those that were asleep, which are told |
| `ThreadTable.ThreadTable.constructor` | tinyOS3_project/tinyos3/kernel_proc.c:129-159 | a process starts with the PTCB of its main thread |
| `ThreadTable.ThreadTable.CreateThread` | tinyOS3_project/tinyos3/kernel_threads.c:42-70 | a PTCB, on the list and counted exactly if there is a task |
| `ThreadTable.ThreadTable.LoopJoin` | tinyOS3_project/tinyos3/kernel_threads.c:105-138 | one look at the target by a joiner it counts: sleep, -1 if detached, else 0 and the exit value, freeing the PTCB after the last joiner |
| `ThreadTable.ThreadTable.ThreadJoin` | tinyOS3_project/tinyos3/kernel_threads.c:83-139 | -1 for a thread not on the list, detached, or the caller itself; else it joins; takes its step |
| `ThreadTable.ThreadTable.Resume` | tinyOS3_project/tinyos3/kernel_threads.c:105-138 | a woken joiner looks again |
| `ThreadTable.ThreadTable.ThreadDetach` | tinyOS3_project/tinyos3/kernel_threads.c:143-155 | 0 exactly for a thread on the list that has not exited, which is then detached |
| `ThreadTable.ThreadTable.ThreadExit` | tinyOS3_project/tinyos3/kernel_threads.c:162-177 | takes its step |
| `ThreadTable.ThreadTable.FreeList` | tinyOS3_project/tinyos3/kernel_threads.c:211-222 | the loop frees every PTCB of the list once |
| `Pipe.StepInv` | tinyOS3_project/tinyos3/kernel_pipe.c:43-178 | every stretch of a read, write or close under the kernel lock keeps the invariant of the pipe |
| `Pipe.RunInv` | tinyOS3_project/tinyos3/kernel_pipe.c:43-178 | it holds in every state of every run |
| `Pipe.FirstInFirstOut` | tinyOS3_project/tinyos3/kernel_pipe.c:43-126 | in any run of reads and writes of any sizes by any threads, the bytes written are the bytes read followed by the bytes buffered |
| `Pipe.EndOfFile` | tinyOS3_project/tinyos3/kernel_pipe.c:105-125 | a read of n > 0 ends with 0 only if the writer is closed and all bytes ever written have been read |
| `Pipe.ClosedWriterStaysClosed` | tinyOS3_project/tinyos3/kernel_pipe.c:128-152 | after the writer is closed nothing is written and no read waits |
| `Pipe.WaitersHaveCause` | tinyOS3_project/tinyos3/kernel_pipe.c:59-62 | a thread asleep on has_data and not signalled finds the pipe empty and the writer open, one on has_space finds it full and the reader open; a reader and a writer never both sleep |
| `Pipe.NoUseAfterFree` | tinyOS3_project/tinyos3/kernel_pipe.c:142-177 | the control block is freed exactly when both ends are closed, and then no thread is inside a call or can begin one |
| `Pipe.OpenWhileReferenced` | tinyOS3_project/tinyos3/kernel_streams.c:145-153 | an end is open exactly while file ids or threads inside a call refer to its FCB |
| `Pipe.StepQueue` | tinyOS3_project/tinyos3/kernel_pipe.c:43-126 | every step takes its bytes from the front and puts its bytes at the end |
| `PipeCalls.WriteDoes` | tinyOS3_project/tinyos3/kernel_pipe.c:59-87 | a write, new or resumed, waits exactly if the pipe is full and the reader open; else it puts in as many of its bytes as fit, none with the reader closed, and tells the readers |
| `PipeCalls.ReadDoes` | tinyOS3_project/tinyos3/kernel_pipe.c:105-125 | a read, new or resumed, waits exactly if the pipe is empty and the writer open; else it takes as many bytes as asked for and there are, and tells the writers |
| `PipeCalls.CloseDoes` | tinyOS3_project/tinyos3/kernel_pipe.c:128-178 | an end is closed exactly with its last reference, and then those who wait at the other end are told |
| `PipeCalls.WritesSomething` | tinyOS3_project/tinyos3/kernel_pipe.c:59-87 | in any run, a write of at least one byte that ends has written some exactly if the reader is open |
| `PipeCalls.WriteWaitsForRoom` | tinyOS3_project/tinyos3/kernel_pipe.c:59-87 | over runs: a write ends, with its own data, at the first of its own steps that finds room or the reader closed, and at no other |
| `PipeCalls.ReadWaitsForData` | tinyOS3_project/tinyos3/kernel_pipe.c:105-125 | over runs: a read ends, with its own size, at the first of its own steps that finds data or the writer closed, and at no other |
| `PipeCalls.FileIdsCounted` | tinyOS3_project/tinyos3/kernel_streams.c:145-153 | over runs: the file ids of an end are 1, plus those duplicated, less those closed |
| `PipeCb.PutByte` | tinyOS3_project/tinyos3/kernel_pipe.c:73-80 | storing at w_position appends to the stream |
| `PipeCb.TakeByte` | tinyOS3_project/tinyos3/kernel_pipe.c:114-118 | loading at r_position removes the front of the stream |
| `PipeCb.PipeCb.constructor` | tinyOS3_project/tinyos3/kernel_pipe.c:17-33 | an empty pipe with both ends open |
| `PipeCb.PipeCb.WritePosition` | tinyOS3_project/tinyos3/kernel_pipe.c:73-80 | w_position is (r_position + SIZE - empty_space) mod SIZE in every valid state |
| `PipeCb.PipeCb.Fill` | tinyOS3_project/tinyos3/kernel_pipe.c:70-83 | the loop of pipe_write appends as many bytes as fit |
| `PipeCb.PipeCb.Drain` | tinyOS3_project/tinyos3/kernel_pipe.c:110-121 | the loop of pipe_read removes and delivers as many bytes as asked for and available, in order; the rest of the caller's buffer is unchanged |
| `PipeCb.PipeCb.PipeWrite` | tinyOS3_project/tinyos3/kernel_pipe.c:43-88 | waits exactly if the pipe is full and the reader open; -1 if the reader is closed; else the count of bytes written |
| `PipeCb.PipeCb.PipeRead` | tinyOS3_project/tinyos3/kernel_pipe.c:90-126 | waits exactly if the pipe is empty and the writer open; else the count and the bytes |
| `PipeCb.PipeCb.PipeWriterClose` | tinyOS3_project/tinyos3/kernel_pipe.c:128-152 | tells the readers, or frees the pipe if the reader is closed |
| `PipeCb.PipeCb.PipeReaderClose` | tinyOS3_project/tinyos3/kernel_pipe.c:154-178 | tells the writers, or frees the pipe if the writer is closed |
| `PipeCb.PipeCb.Read` | tinyOS3_project/tinyos3/kernel_streams.c:131-160 | sys_Read on a pipe takes its step, waits exactly if the thread is then asleep, and else delivers exactly the bytes taken |
| `PipeCb.PipeCb.Write` | tinyOS3_project/tinyos3/kernel_streams.c:163-193 | sys_Write on a pipe takes its step, waits exactly if the thread is then asleep, and else reports exactly the bytes given |
| `PipeCb.PipeCb.CloseEnd` | tinyOS3_project/tinyos3/kernel_streams.c:196-208 | closing a file id of an end closes the end at its last reference |
| `Symposium.Remainders` | tinyOS3_project/tinyos3/symposium.c:50-51 | LEFT and RIGHT as remainders |
| `Symposium.Opposite` | tinyOS3_project/tinyos3/symposium.c:50-51 | LEFT and RIGHT undo each other; they agree exactly for tables of up to 2, and are oneself exactly for 1 |
| `Symposium.StepInv` | tinyOS3_project/tinyos3/symposium.c:76-130 | every monitor section keeps the invariant, for any number of philosophers |
| `Symposium.Safety` | tinyOS3_project/tinyos3/symposium.c:76-124 | at every release of the monitor in every run, with any wakeups not caused by a signal: for N >= 2 no two neighbours eat, a hungry philosopher has an eating neighbour, one blocked on its condition is hungry or has been signalled and eats; N = 2 and 3 included |
| `Symposium.StepDecreases` | tinyOS3_project/tinyos3/symposium.c:98-130 | every section but that of a waiter not signalled brings the end of the symposium nearer |
| `Symposium.UselessStep` | tinyOS3_project/tinyos3/symposium.c:109-110 | a waiter that wakes without a signal changes nothing |
| `Symposium.SomeoneCanGoOn` | tinyOS3_project/tinyos3/symposium.c:109-124 | until all have left, some philosopher can go on who does not just wait: no deadlock |
| `Symposium.RunsAreBounded` | tinyOS3_project/tinyos3/symposium.c:98-130 | no schedule has more than N * (3 * bites + 2) sections besides those of waiters not signalled |
| `Symposium.EverybodyEats` | tinyOS3_project/tinyos3/symposium.c:98-130 | every run in which nobody can do more than wait has all philosophers gone, each after starting to eat exactly bites times |
| `Symposium.MealsCounted` | tinyOS3_project/tinyos3/symposium.c:103-124 | the meals seen in the state array are the bites of the loop counter |
| `Symposium.TryState` | tinyOS3_project/tinyos3/symposium.c:76-86 | trytoeat keeps neighbours apart and leaves its philosopher eating, not hungry, or with an eating neighbour |
| `Symposium.HungryDoes` | tinyOS3_project/tinyos3/symposium.c:106-111 | a philosopher who gets hungry eats exactly if no neighbour does, and else waits |
| `Symposium.FinishDoes` | tinyOS3_project/tinyos3/symposium.c:118-123 | when a philosopher stops eating, its left neighbour starts exactly if it is hungry and its other neighbour does not eat, then the right one likewise, so that at a table of three the left one comes first; each that starts is signalled, and nothing else changes |
| `SymposiumTable.SymposiumTable.constructor` | tinyOS3_project/tinyos3/symposium.c:134-144 | nobody at the table |
| `SymposiumTable.SymposiumTable.TryToEat` | tinyOS3_project/tinyos3/symposium.c:76-86 | eats and is signalled exactly if hungry between two who do not eat |
| `SymposiumTable.SymposiumTable.Arrive` | tinyOS3_project/tinyos3/symposium.c:98-101 | takes its step |
| `SymposiumTable.SymposiumTable.GetHungry` | tinyOS3_project/tinyos3/symposium.c:106-111 | takes its step; waits exactly if it could not eat |
| `SymposiumTable.SymposiumTable.Awake` | tinyOS3_project/tinyos3/symposium.c:109-113 | a philosopher that wakes eats exactly if it was signalled, and the assertion holds; else it waits again and nothing changes |
| `SymposiumTable.SymposiumTable.Finish` | tinyOS3_project/tinyos3/symposium.c:118-123 | takes its step, giving both neighbours their chance |
| `SymposiumTable.SymposiumTable.Leave` | tinyOS3_project/tinyos3/symposium.c:126-129 | takes its step |
| `Barrier.StepInv` | tinyOS3_project/tinyos3/tinyoslib.c:172-191 | every step, also of a waiter not signalled, keeps the invariant; the assertion count < n holds at every call |
| `Barrier.UselessStep` | tinyOS3_project/tinyos3/tinyoslib.c:187-188 | a waiter that wakes without a signal changes nothing |
| `Barrier.NobodyPassesEarly` | tinyOS3_project/tinyos3/tinyoslib.c:172-191 | in any run, when some thread has returned k times every thread has made at least k calls |
| `Barrier.NobodyFallsBehind` | tinyOS3_project/tinyos3/tinyoslib.c:172-191 | no thread is ever more than one call ahead of another |
| `Barrier.SavedEpochIsRecent` | tinyOS3_project/tinyos3/tinyoslib.c:187-188 | a waiter has the present epoch saved and its round is not over, or the one before and then it is signalled and returns: the wrap-around at 2^32 traps nobody |
| `Barrier.SomeoneCanGoOn` | tinyOS3_project/tinyos3/tinyoslib.c:187-188 | some thread can always go on that does not just wait |
| `Barrier.RoundsComplete` | tinyOS3_project/tinyos3/tinyoslib.c:180-185 | under every schedule each 2n steps besides those of waiters not signalled complete a round |
| `Barrier.CallsCounted` | tinyOS3_project/tinyos3/tinyoslib.c:172-191 | the auxiliary counters are the numbers of calls and returns in the run |
| `Barrier.BarrierBlock.constructor` | tinyOS3_project/tinyos3/tinyoslib.h:83 | an unused barrier |
| `Barrier.BarrierBlock.BarrierSync` | tinyOS3_project/tinyos3/tinyoslib.c:172-188 | takes its step: the last of n opens the barrier, others wait |
| `Barrier.BarrierBlock.Awake` | tinyOS3_project/tinyos3/tinyoslib.c:187-190 | a woken thread takes its step, and returns exactly if it was signalled |

## Left out

- The state of the kernel as one value: the process table, the file tables and
  the PTCBs are three systems, and `sys_Exec` and `sys_ThreadExit` appear in
  each with their part.
- RListLoops.RlistSelect: the predicate is a function of the node alone; one
  that reads the list while it is being changed is not modelled.
- RListLoops.RlistLen: the counter is unbounded; lists of 2^32 nodes are not
  modelled.
- Argv.Argvpack: lengths are unbounded integers, where the source counts in an
  `int` or a `size_t`; and strings are values, so a vector that overlaps the
  buffer is not modelled.
- Scheduler.Scheduler.Yield: the context switch itself, preemption and the time
  slice (`its`, `rts`, causes), which no choice depends on; `cpu_core_halt` and
  the restart of cores.
- SchedThms.QueueIsFair: says nothing of the time until a core yields.
- ProcInv.StepInv, ProcTable.ProcTable.WaitChild: of two threads of a process
  that wait for the same child; `ProcThms.ReapIsSafeIff` says what happens then.
- ProcTable.ProcTable.SysThreadExit: of the last thread of init with children
  left, which stops at an assertion; `ProcThms.AssertionsHoldIff` says when.
- SchedThms.WakeupDuringSwitch, SchedThms.WakeupBeforeYield: speak of the very
  next step; `SchedRuns.WokenThreadArrives` speaks of runs.
- SchedThms.MakeReadyNeverFails: of calls from `wakeup`; the calls of the expiry
  loop are in `SchedRuns.ExpiryCallsAreSafe`.
- StreamRuns.AlwaysConserved: of `FCB_unreserve` only as `open_stream` calls it,
  which is its only caller.
- Conditions.Conditions.RemoveFromRing, Scheduler.Scheduler.SchedMakeReady: on
  sequences; the rings are in `WaitRing` and `SchedNodes`, which are not joined
  with the scheduler's class in one heap.
- SchedInv.StepInv, Scheduler.Scheduler.SleepReleasing: of a timeout that comes
  out as `NO_TIMEOUT`; `SchedThms.SleepKeepsInvIff` says what it breaks.
- KernelSem.KStepInv: of a `kernel_sleep` without the kernel lock;
  `KernelSem.SleepNeedsTheLock` and `StrayExit.StrayExitBreaksExclusion` say what
  it breaks. What that exit does to the tables of processes and files while
  another thread holds the lock is not modelled.
- Barrier.BarrierBlock.BarrierSync: all callers pass the same number of threads,
  and there are no more callers than that.
- Symposium.RunsAreBounded, Barrier.RoundsComplete: count the steps that are
  not just a look at the guard by a waiter not signalled, and say nothing of the
  time until a thread that can make such a step does so.
- Mutexes are held or free; spinning and the memory order of the atomics are
  not modelled.
- PipeCb.PipeCb.PipeRead: sizes are unbounded integers, where the source compares
  an `int` with an `unsigned int`.
- Symposium: a number of bites below 0, which the source treats as 0, and the
  burning of time in `think` and `eat`.
- ProcTable.ProcTable.SysExec: the argument bytes (see `Argv.CopyArgs`), the file
  ids (see `FileTable.FileTable.InheritFiles`) and the scheduler's thread.
- Streams without a `Read` or `Write` function, the functions of devices, and
  what `Close` does for streams other than pipes.
- Sockets (`kernel_socket.c`), whose code does not reach its documented
  behaviour; process information (`sys_OpenInfo`, `ParseProcInfo`); devices,
  terminals and the console; the machine below (`bios.c`); the shell, demos and
  tests.
