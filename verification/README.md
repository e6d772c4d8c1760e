# Verified models of ms_service_profiler

This project models the hardest parts of the ms-service-profiler repository in Dafny and proves what they are meant to
do.  `dafny verify dfyconfig.toml` checks all of it.  Values, loops and classes follow the source: what the source
updates in place is a class or an array here, and each of its methods is proved against a function on values, about which
the theorems are stated.

## The multi-process task protocol

A manager reads one queue and answers on one queue per process.  Processes are grouped in pools; each pool walks its tasks
in one global order, and a task that several pools share starts when all of them have arrived.  Inside a task the processes
meet in gathers, all-gathers and the finish barrier; an error clears the rows and turns the barrier into an error barrier.

* `Collectives` is the deque of partly filled rows, `TaskModel` the manager as a value, `TaskProtocol` the transition
  system: one step is one message taken by the manager, one receive, one contribution or one exception of a process.
* `ProtocolInvariant` states what holds in every reachable state.  `ProcessSteps` and the `Manager...` modules prove it kept
  by each kind of step, `ProtocolRuns` for whole runs.
* `ProtocolTheorems`, `ProtocolProgress`, `ProtocolOutcome`, `ProtocolReasons`, `ProtocolTermination`, `ProtocolErrors`,
  `ProtocolBarrier`, `ProtocolCalm`, `ProtocolSolo` and `ProtocolShared` hold the results: barrier safety, absence of
  deadlock, how runs end and why tasks fail, termination, the error barrier and what is taken in it, runs without errors,
  pools that share nothing, and pools that do.
* `ProtocolQueue` puts the inbound first-in-first-out queue in between and refines it.
* `TaskManagers` is the class whose fields the manager updates.  `TaskWorker` is the loop of a process with its exception
  handlers, and `ProtocolTraces` shows that every process of the transition system goes the way of that loop.
* `TaskGraph`, `TaskRegistry` and `TaskSetUp` build the graph, its order and the pools; `TaskStart` proves that this is an
  initial state of the protocol, and `TaskPipeline` puts all of it together, from the names of the exporters to the start.

One finding shapes the results.  When a predecessor failed, its followers are started by "error" instead of "go", and a
process then keeps the index it had in its previous task (task_manager.py, line 320).  If these indices do not number the
processes of the joint task one to one, the task is *misaligned*: its barrier can never complete, or filling it raises
IndexError.  `ProtocolOutcome.EndsComplete` proves that this is the only thing that can go wrong: a run that can do no more
is complete if and only if no task is misaligned.  Whether that can happen is known before the run:
`ProtocolShared.CompletesExactlyWhen` proves that all runs complete if and only if no task is shared by two pools, that is,
if no two data sources with data feed one task.  If some task is shared, a single exception in a data source is enough
(`ProtocolWitness` shows the smallest case).  Runs without errors always complete, and safety holds in all runs.

## Graphs, transport, traces, ids and counts

* `SortPlugins`: the plugin order, with exact detection of missing dependencies and of cycles.  The cycle test compares
  lengths: on lists without a cycle it is right exactly if no name without dependencies is given to two plugins, because two
  such plugins are reported as a cycle.
* `Transport`: length-prefixed frames under any partial sends and any chunking.  A message of 2^32 bytes or more wraps the
  length field, so the round trip holds exactly for shorter ones.
* `TransportQueue`: the drop-oldest queue with its put, get and second put as separate steps of many threads.  It drops only
  the oldest, but the second put can raise queue.Full and the get can block for ever; exactly when is proved.
* `PerfettoFlows`, `PerfettoJson`, `PerfettoEvents`, `PerfettoExporter`, `PerfettoRuns`, over strings of `CodePoints`: flow
  links resolved in any order, and the file of events.  `PerfettoReader` reads JSON back, and `PerfettoShown` says what it
  then finds in the file: each span, and for each link an arrow between the places of its two spans.  The class promises that the file stays a JSON array (RFC 8259,
  section 5).  The comma is written before the new events are, so an event that UTF-8 cannot encode, because a string in it
  has a surrogate, leaves the file without its closing bracket until the next export that succeeds: it is an array after
  every export if and only if no export fails once an event has been written.
* `RequestStore`: which requests the bounded store holds, said from the history alone.
* `RidText`, `RidMapping`, `RidFrame`: request ids found in and rewritten through nested values.  Ids that are not strings
  are collected but never rewritten, so collection commutes with rewriting exactly if none of them is a key of the map.
* `RunningCounts`: running requests per node and time slice.  A decode node can get an end without a start, and there the
  clamp at zero is needed.
* `ExpertHeat`: differences, sums and remapping of expert heat.  Unfilled slots of a map hold -1, which indexes the last
  expert; exactly when that does harm is proved.
* `SpecDecoding`: acceptance counts per position, before rounding.

## Model

| member | source | states |
|---|---|---|
| `Collectives.CollectivesTranspose` | ms_service_profiler/task/task_manager.py:215-237 | For any sequence of contributions by any processes in any order, no call fails, the k-th row handed out is the vector of every process's k-th contribution, as many rows are out as every process has contributed, and the deque is the staircase of the rest. |
| `Collectives.FillStaircase` | ms_service_profiler/task/task_manager.py:215-237 | One call of fill_gater_data on the staircase of the streams gives the staircase of the streams with one more contribution, and hands out a row exactly when the slowest process caught up. |
| `Collectives.StaircaseShape` | ms_service_profiler/task/task_manager.py:220-235 | No stored row is ever full, and a process whose cell is filled in a later row has its cell filled in every earlier one: each process fills a prefix of the rows. |
| `Collectives.PushMin` | ms_service_profiler/task/task_manager.py:224-226 | A contribution completes a row exactly when it fills the last open cell of the first row, and only the slowest process can do so. |
| `Collectives.FirstOpenIsFirst` | ms_service_profiler/task/task_manager.py:221-234 | The search passes exactly the rows in which the cell of this process is filled: it ends at the first row whose cell is unfilled, fails at the first row the index cannot be used on, and else reaches the end. |
| `ProtocolRuns.InitialGood` | ms_service_profiler/task/task_manager.py:356-381 | What set-up leaves when start() is entered satisfies the protocol invariant. |
| `ProtocolRuns.StepKeeps` | ms_service_profiler/task/task_manager.py:239-281 | Every step of the manager, of a process inside run(), at a receive or at an exception keeps the invariant that ties each process's place, queues and contributions to the manager's rows, owners and task states. |
| `ProtocolRuns.ReachableGood` | ms_service_profiler/task/task_manager.py:239-347 | The invariant holds in every reachable state, whatever the interleaving. |
| `ProcessSteps.RecvKeeps` | ms_service_profiler/task/task_manager.py:289-313 | A process that takes a reply, an error included, keeps the invariant. |
| `ProcessSteps.ContributeKeeps` | ms_service_profiler/task/task.py:56-69 | A process that issues its next collective, or its finish, keeps the invariant. |
| `ProcessSteps.FailKeeps` | ms_service_profiler/task/task_manager.py:345-347 | An exception raised inside run() keeps the invariant. |
| `ManagerSteps.ManageKeeps` | ms_service_profiler/task/task_manager.py:240-273 | Whatever message the manager takes next, from whichever process, the invariant is kept. |
| `ManagerAccepts.AcceptKeeps` | ms_service_profiler/task/task_manager.py:264-273 | A contribution that completes no finish barrier is stored or answered so that the invariant is kept; no pool changes hands. |
| `ManagerErrorSteps.ErrorKeeps` | ms_service_profiler/task/task_manager.py:251-257 | An "error" clears the rows at most once, is spread to every process and keeps the invariant. |
| `ManagerErrorSteps.DropKeeps` | ms_service_profiler/task/task_manager.py:217-218 | A contribution that arrives after an error is dropped, and the invariant is kept. |
| `ManagerErrorSteps.FinishAfterErrorKeeps` | ms_service_profiler/task/task_manager.py:302-306 | An after-error "finished" that does not yet complete the error barrier keeps the invariant. |
| `ManagerHandOver.HandOverAllKeeps` | ms_service_profiler/task/task_manager.py:163-182 | Handing the released pools to their next tasks in any order of the set of pairs, starting each task that has become ready, restores the invariant. |
| `ManagerHandOver.ReadyIffActive` | ms_service_profiler/task/task_manager.py:126-141 | is_all_prev_finished says yes exactly when every pool that waits for the task owns it: then all predecessors are settled by themselves. |
| `ManagerRelease.ReleaseInv` | ms_service_profiler/task/task_manager.py:242-247 | When a finish barrier completes, its task passes and its pools are free, and the invariant holds with these pools released. |
| `ProtocolTheorems.BarrierSafety` | ms_service_profiler/task/task_manager.py:126-184 | If a process is inside run() of a task then every predecessor has passed: all its processes are through its finish barrier and it finished without error, or it has no source data. |
| `ProtocolTheorems.NoRunAfterFailure` | ms_service_profiler/task/task_manager.py:169-182 | In a state in which a predecessor has failed, no process is inside run() of the task. |
| `ProtocolTheorems.NeverRunsIfFailed` | ms_service_profiler/task/task_manager.py:169-182 | If a predecessor is in error at the end of a run, no process was inside run() of the task at its start either: no process ever enters run() of a task one of whose predecessors fails. |
| `ProtocolTheorems.FailureSpreads` | ms_service_profiler/task/task_manager.py:156-161 | A task with a failed predecessor never becomes "finished". |
| `ProtocolTheorems.StatesMoveOn` | ms_service_profiler/task/task_manager.py:156-197 | Over any run no task state goes back, and a task that is finished, in error or without source data stays so. |
| `ProtocolTheorems.StartedOnce` | ms_service_profiler/task/task_manager.py:163-184 | In any run a task is started at most once, from "unstart" to "started", and a data source never, because its processes are told to go when they are created. |
| `ProtocolTheorems.RepliesTranspose` | ms_service_profiler/task/task_manager.py:264-273 | The reply a process is about to read for its k-th collective is the row of every process's k-th contribution, as these were sent. |
| `ProtocolProgress.NoDeadlock` | ms_service_profiler/task/task_manager.py:239-259 | In every reachable state in which some pool owns a task and no task is misaligned, a step other than a failure is possible. |
| `ProtocolProgress.EarliestIsOwned` | ms_service_profiler/task/task_manager.py:126-141 | In every reachable state the globally earliest owned task is owned by all pools that wait for it. |
| `ProtocolProgress.MisalignedIfClashing` | ms_service_profiler/task/task_manager.py:318-320 | In every reachable state an active task is misaligned exactly when the columns that its processes address in the rows are not distinct and in range, which takes a failed predecessor. |
| `ProtocolOutcome.EndsComplete` | ms_service_profiler/task/task_manager.py:239-259 | A run that can do no more has ended complete if and only if no task is misaligned: complete means the loop was left, every process walked all its tasks, all queues are empty and every task finished or is in error. |
| `ProtocolReasons.ErrorHasReason` | ms_service_profiler/task/task_manager.py:187-197 | In every run a task is in error only if a predecessor is, or one of its own processes raised an exception in run(). |
| `ProtocolReasons.EndsForAReason` | ms_service_profiler/task/task_manager.py:156-197 | When a run has ended complete, a task is in error if and only if a predecessor is or one of its processes raised an exception in run(); every other task finished. |
| `ProtocolReasons.ErrorTextsAreOwn` | ms_service_profiler/task/task_manager.py:336-347 | In any run, an error text that is under way to the manager, which it sends on to the whole task, is that of an exception raised by the very process that sends it: a process told of an error reports it without a text. |
| `ProtocolOutcome.StatusTellsProgress` | ms_service_profiler/task/task_manager.py:249-259 | The loop goes on exactly while some pool owns a task, is left exactly when none does, and ends by an exception only at a misaligned task. |
| `ProtocolOutcome.MisalignedForever` | ms_service_profiler/task/task_manager.py:318-342 | A misaligned task stays misaligned whatever happens, and the manager never leaves its loop. |
| `ProtocolWitness.SomeRunsNeverComplete` | ms_service_profiler/task/task_manager.py:318-320 | Two sources that each feed one joint task, the smallest such configuration: one exception in a source leads to a state in which the joint task is misaligned, because both processes reuse index 0, and no continuation leaves the loop. |
| `ProtocolTermination.RunsAreFinite` | ms_service_profiler/task/task_manager.py:239-347 | From every reachable state there is a bound on the number of steps of any run, failures included. |
| `ProtocolTermination.RunsToTheEnd` | ms_service_profiler/task/task_manager.py:239-347 | Every reachable state has a run without further exceptions to a state in which nothing more can happen. |
| `ProtocolTermination.EveryStepSpends` | ms_service_profiler/task/task_manager.py:239-347 | Every single step from a reachable state lowers one measure of messages and work left. |
| `ProtocolErrors.ErrorBarrier` | ms_service_profiler/task/task_manager.py:187-197 | From the first error of a task started by "go", every process is in one of five stages that say what it has in its outbox, queue and row, and a process that does not know of the error has contributed nothing since. |
| `ProtocolErrors.ErrorBarrierWaits` | ms_service_profiler/task/task_manager.py:308-313 | No process leaves the error barrier before every process of the task has reported its error. |
| `ProtocolErrors.StagesMoveOn` | ms_service_profiler/task/task_manager.py:340-347 | Each step moves a process on through the stages, never back; the manager takes an "error" exactly on the way from the second to the third and an after-error "finished" exactly on the way from the fourth to the fifth; a failed task releases a process only from the last stage, or as the sender from the one before. |
| `ProtocolErrors.ReleasedTogether` | ms_service_profiler/task/task_manager.py:242-247 | If a step releases one process of a failed task, it is the manager taking the last after-error "finished" of the task, everybody else's has been taken, and all processes are released by it. |
| `ProtocolBarrier.TakenByStage` | ms_service_profiler/task/task_manager.py:187-197 | While the barrier lasts, the stage of a process tells what has been taken from it since the run began: nothing, one "error", or one "error" and then one after-error "finished". |
| `ProtocolBarrier.ExactlyOneOfEach` | ms_service_profiler/task/task_manager.py:308-347 | From every process that has left a failed task exactly one "error" and then exactly one after-error "finished" was taken, in any run. |
| `ProtocolBarrier.ErrorsGathered` | ms_service_profiler/task/task_manager.py:187-197 | The row in "error_gather" is the vector of the errors taken, one from every process of the task. |
| `ProtocolErrors.NobodyDies` | ms_service_profiler/task/task_manager.py:302-306 | No process ever ends by an exception in its handler, and no "error" is read after "error_gather". |
| `ProtocolErrors.StaleIsDropped` | ms_service_profiler/task/task_manager.py:215-218 | A message sent without knowledge of the error changes nothing when it arrives after it. |
| `ProtocolCalm.ErrorFreeNoDeadlock` | ms_service_profiler/task/task_manager.py:239-249 | In a run without failures, while some pool owns a task, a step is possible: no hypothesis about indices is left. |
| `ProtocolCalm.ErrorFreeCompletes` | ms_service_profiler/task/task_manager.py:156-184 | A run without failures that can do no more is complete and every task of a pool has finished. |
| `ProtocolSolo.SoloPoolsComplete` | ms_service_profiler/task/task_manager.py:318-347 | If no two pools share a task, no task is ever misaligned, and any run that can do no more is complete, whatever fails. |
| `ProtocolShared.OneExceptionHangs` | ms_service_profiler/task/task_manager.py:318-347 | In any configuration in which each pool is what its source feeds, if two pools share a task, then raising one exception in run() of one data source leads, by a run without any other exception, to a state from which the manager never leaves its loop. |
| `ProtocolShared.CompletesExactlyWhen` | ms_service_profiler/task/task_manager.py:239-347 | So, from the pools alone: every run that can do no more is complete if and only if no task is shared by two pools. |
| `ProtocolQueue.QueueRefines` | ms_service_profiler/task/task_manager.py:62-62 | With the one inbound first-in-first-out queue written out, every state reached is a state of the protocol in which messages are taken from the senders. |
| `ProtocolQueue.QueueBarrierSafety` | ms_service_profiler/task/task_manager.py:126-184 | Barrier safety for the system with the inbound queue. |
| `ProtocolQueue.QueueNoDeadlock` | ms_service_profiler/task/task_manager.py:239-249 | Progress for the system with the inbound queue. |
| `ProtocolQueue.QueueRunsAreFinite` | ms_service_profiler/task/task_manager.py:239-281 | From every reachable state of the system with the inbound queue the length of runs is bounded: delivery steps are counted, too. |
| `ProtocolQueue.QueueEndsComplete` | ms_service_profiler/task/task_manager.py:239-259 | With the inbound queue, too, a run that can do no more is complete if and only if no task is misaligned. |
| `TaskWorker.Worker.constructor` | ms_service_profiler/task/task_manager.py:285-287 | A new process has no index and has sent nothing. |
| `TaskWorker.Worker.Recv` | ms_service_profiler/task/task_manager.py:289-293 | Takes the oldest reply; "error" raises; an empty queue blocks for ever. |
| `TaskWorker.Worker.FinishedSync` | ms_service_profiler/task/task_manager.py:302-306 | Puts one "finished" and ends by what the next reply is: normally, by the error exception, or by a ValueError. |
| `TaskWorker.Worker.ErrorSync` | ms_service_profiler/task/task_manager.py:308-313 | Puts one "error" and returns the first later reply that is not an error, having read past exactly the errors before it. |
| `TaskWorker.Worker.Collect` | ms_service_profiler/task/task.py:56-69 | Puts one message, and waits for a reply exactly for all_gather and at the destination of a gather. |
| `TaskWorker.Worker.RunTask` | ms_service_profiler/task/task.py:56-69 | run() with an exception anywhere: whichever way it ends, the messages put, the replies read and the index are those of a trace of protocol steps. |
| `TaskWorker.Worker.TryTask` | ms_service_profiler/task/task_manager.py:319-339 | The try block of one turn follows the protocol to the next task, to a receive that blocks, or to the place at which an exception is reported. |
| `TaskWorker.Worker.HandleError` | ms_service_profiler/task/task_manager.py:340-347 | The exception handlers follow the protocol through the error barrier to the next task. |
| `TaskWorker.Worker.TaskRun` | ms_service_profiler/task/task_manager.py:318-347 | The whole loop, with exceptions raised anywhere, is a trace of protocol steps that rests past the last task, at a receive nothing answers, or ended by an exception. |
| `ProtocolTraces.EveryProcessIsAWorker` | ms_service_profiler/task/task_manager.py:285-347 | In every run of the protocol each process goes through a trace of worker steps: the replies it has read and those still in its queue are, in order, what the queue held at the start and all that the manager put into it, and its messages are, in order, all that the manager took from it and those not yet taken. |
| `TaskManagers.TaskManager.constructor` | ms_service_profiler/task/task_manager.py:59-68 | A new manager knows no task and no pool. |
| `TaskManagers.TaskManager.CreatePool` | ms_service_profiler/task/task_manager.py:83-98 | One more pool, owned by its source: its new processes join the source's queues, every task of the sub-graph waits for the pool, nothing else changes, and "go" with its number is sent to each process. |
| `TaskManagers.TaskManager.SetNoSourceData` | ms_service_profiler/task/task_manager.py:100-113 | Marks the task, and of the others exactly those all of whose predecessors are marked; only marks change. It terminates on an acyclic graph. |
| `TaskManagers.TaskManager.SendToOneProcess` | ms_service_profiler/task/task_manager.py:199-202 | Puts the reply into that process's queue, if the task has one with this index. |
| `TaskManagers.TaskManager.SendToOneTask` | ms_service_profiler/task/task_manager.py:204-208 | Puts the reply into every queue of the task. |
| `TaskManagers.TaskManager.SendGo` | ms_service_profiler/task/task_manager.py:210-213 | Puts "go" with its own index, or "error", into each queue of the task. |
| `TaskManagers.TaskManager.FillGatherData` | ms_service_profiler/task/task_manager.py:215-237 | The in-place search through the rows does what the function on values does, the exception on an index that cannot be used included. |
| `TaskManagers.TaskManager.SetTaskError` | ms_service_profiler/task/task_manager.py:187-197 | The first error clears the rows, and the error is filled in whatever the state. |
| `TaskManagers.TaskManager.IsAllPrevFinished` | ms_service_profiler/task/task_manager.py:126-141 | Yes exactly when every predecessor is finished, without data or failed and every waiting pool owns the task; the flag then says whether one failed. |
| `TaskManagers.TaskManager.HandOverPool` | ms_service_profiler/task/task_manager.py:163-184 | One turn of the hand-over loop: owner, queues, start of the next task. |
| `TaskManagers.TaskManager.SetTaskFinished` | ms_service_profiler/task/task_manager.py:156-184 | The whole hand-over in some order of the set of pairs. |
| `TaskManagers.TaskManager.IsAllFinished` | ms_service_profiler/task/task_manager.py:123-124 | True exactly when no pool owns a task. |
| `TaskManagers.TaskManager.StopIfFinished` | ms_service_profiler/task/task_manager.py:249-259 | Leaves the loop exactly then. |
| `TaskManagers.TaskManager.Turn` | ms_service_profiler/task/task_manager.py:240-273 | One turn of the loop changes the fields exactly as the manager step of the protocol. |
| `ManagerFrames.PutGoEffect` | ms_service_profiler/task/task_manager.py:210-213 | Each queue of the task gets exactly one message: "go" with its own number, or "error"; no other queue changes. |
| `ManagerFrames.PutAllEffect` | ms_service_profiler/task/task_manager.py:204-208 | Each queue of the task gets exactly one message; no other queue changes. |
| `TaskGraph.GetTaskRunOrder` | ms_service_profiler/task/task_register.py:98-117 | Terminates, having made the turns of the loop, and returns each task reachable from the heads exactly once, every task after its predecessors. |
| `TaskGraph.OrderNeedsGround` | ms_service_profiler/task/task_register.py:98-117 | Such an order exists only if every predecessor of a reachable task is reachable and comes before it. |
| `TaskGraph.RunOrderEndsExactlyWhen` | ms_service_profiler/task/task_register.py:98-117 | The loop ends if and only if every predecessor of a reachable task is reachable and what is reachable has no cycle; on all other graphs of get_dag the queue never empties. |
| `TaskGraph.FilterDag` | ms_service_profiler/task/task_register.py:180-202 | Keeps exactly the tasks reachable from the source, in the inherited order. |
| `TaskGraph.ReachSet` | ms_service_profiler/task/task_register.py:185-196 | The tasks at the end of some path from the given ones. |
| `TaskRegistry.GetDataDag` | ms_service_profiler/task/task_register.py:120-145 | For every data name, the tasks that produce it, in registration order and as often as they name it. |
| `TaskRegistry.ProducersFeed` | ms_service_profiler/task/task_register.py:120-168 | The producers of a task are exactly the tasks that put out something its registration depends on. |
| `TaskRegistry.GetDag` | ms_service_profiler/task/task_register.py:148-177 | Fails exactly when an exporter is not registered; otherwise prev and next are transposes with multiplicity, the predecessors of a task are the producers of what it depends on, the tasks are the least set that holds the exporters and is closed under producers, and the heads are those that depend on prof_path alone. |
| `TaskRegistry.LinkTransposed` | ms_service_profiler/task/task_register.py:165-168 | Entering an edge on both sides keeps prev and next transposes of each other. |
| `TaskRegistry.FedByHead` | ms_service_profiler/task/task_register.py:163-173 | If the needed tasks depend on nothing but produced data or the input path, without a cycle, every task of the graph is reachable from a head. |
| `TaskRegistry.DagCanBeOrdered` | ms_service_profiler/task/task_register.py:174-175 | Under these conditions on the registry the graph of get_dag meets what get_task_run_order needs, and exactly its tasks are ordered. |
| `TaskSetUp.SetUp` | ms_service_profiler/task/task_manager.py:356-377 | For the sources in any order, creates one pool per source with data, each with the filtered sub-order and one new process for each of its inputs, so that there are as many processes as inputs, and marks exactly what the empty sources starve. |
| `TaskStart.MarkedIffInNoPool` | ms_service_profiler/task/task_manager.py:362-375 | After set-up a task is marked no_source_data if and only if it is in no created pool, whatever the order of the sources. |
| `TaskStart.SetUpIsInitial` | ms_service_profiler/task/task_manager.py:356-381 | What set-up builds from an ordered graph is a well-formed configuration in an initial state of the protocol. |
| `TaskStart.SetUpOrders` | ms_service_profiler/task/task_manager.py:370-375 | Each pool's order starts with its source and lists exactly the tasks reachable from it, in the global order. |
| `TaskPipeline.SetUpFed` | ms_service_profiler/task/task_register.py:180-202 | Every pool that is set up consists of what its data source feeds. |
| `TaskPipeline.SharedByTwo` | ms_service_profiler/task/task_manager.py:362-377 | Two pools share a task exactly when two data sources that have data feed one task. |
| `TaskPipeline.IsDagOf` | ms_service_profiler/task/task_register.py:148-177 | The tasks of the graph are exactly those that the exporters need. |
| `TaskPipeline.StartUp` | ms_service_profiler/parse.py:108-114 | From the exporter names to start(), for any registry in which the needed tasks are sound: get_dag, the run order and the set-up end in a well-formed configuration and an initial state, whose pools hold exactly what the sources with data feed, with one process per input; and all runs from there complete if and only if no two sources with data feed one task. |
| `TaskPipeline.SetUpSized` | ms_service_profiler/task/task_manager.py:91-98 | Every data source with inputs has a pool of exactly as many processes as it has inputs, and no pool is of any other kind. |
| `SortPlugins.Sort` | ms_service_profiler/plugins/sort_plugins.py:32-63 | For any list: reports a missing dependency exactly when one is missing, naming it.  If no name without dependencies occurs twice, raises the cycle error exactly when the dependencies have a cycle, and else returns the last plugin of each name, each once, with every dependency before its user.  Otherwise whatever list is returned repeats a name, and without a cycle the cycle error is raised all the same.  Plugins without dependencies come first, in the order given. |
| `SortPlugins.TwinsHaveNoCycle` | ms_service_profiler/plugins/sort_plugins.py:45-59 | Two plugins of one name without dependencies show it: nothing is missing and there is no cycle. |
| `SortPlugins.OneOfEachPermutes` | ms_service_profiler/plugins/sort_plugins.py:62-63 | If the names are distinct, the list returned is a permutation. |
| `SortPlugins.EndsBadly` | ms_service_profiler/plugins/sort_plugins.py:48-59 | If a name without dependencies occurs twice, the order repeats a name, and it is as long as the names are many only if there is a cycle. |
| `SortPlugins.BuildGraph` | ms_service_profiler/plugins/sort_plugins.py:34-42 | In-degrees and reversed edges of all plugins, those of one name merged and repeated dependencies counted, or the missing dependency. |
| `SortPlugins.FirstQueue` | ms_service_profiler/plugins/sort_plugins.py:45-45 | The names whose in-degree is 0, each as often as it has plugins, in the order of the list. |
| `SortPlugins.Visit` | ms_service_profiler/plugins/sort_plugins.py:52-55 | After the neighbours are visited every in-degree counts the dependencies not yet taken, and a name enters the queue when its in-degree falls to zero and never again. |
| `SortPlugins.Place` | ms_service_profiler/plugins/sort_plugins.py:48-55 | Ends, and every name has been taken as often as it entered the queue; if no name without dependencies occurs twice, each is taken once and after its dependencies. |
| `SortPlugins.LeftOverIsCyclic` | ms_service_profiler/plugins/sort_plugins.py:57-59 | If a plugin is left over, the dependencies have a cycle. |
| `SortPlugins.SortedHasNoCycle` | ms_service_profiler/plugins/sort_plugins.py:57-59 | One plugin of each name with all dependencies first rules out a cycle. |
| `Transport.RoundTrip` | cpp/src/ServiceTracer.cpp:80-85 | Framing any messages and decoding the stream gives exactly these messages and no rest if and only if each is shorter than 2^32 bytes: a longer one wraps the length field. |
| `Transport.Truncated` | ms_service_profiler/tracer/socket_server.py:142-157 | On any prefix of a stream the frames are the longest prefix of whole messages and the rest is what follows them. |
| `Transport.EndToEnd` | ms_service_profiler/tracer/socket_server.py:142-157 | Wherever the stream of the messages, or the first part of it, is cut into chunks, and whatever follows an empty chunk, what is decoded are the messages whose bytes arrived in full; all of them with nothing left over if the whole stream arrived. |
| `Transport.CutReceived` | ms_service_profiler/tracer/socket_server.py:144-148 | However the bytes are cut into chunks that are not empty, the bytes received are these bytes, and nothing behind an empty chunk counts. |
| `Transport.FrameAt` | cpp/src/ServiceTracer.cpp:80-85 | The frame of each message stands in the stream behind those of the messages before it: four bytes for its length, then its bytes. |
| `Transport.FieldBytes` | cpp/src/ServiceTracer.cpp:80-84 | The length field holds the number in base 256, the highest digit first. |
| `Transport.DecodeMore` | ms_service_profiler/tracer/socket_server.py:150-156 | Decoding what has arrived and later the rest with what is new gives the same as decoding it all at once. |
| `Transport.DecodeRest` | ms_service_profiler/tracer/socket_server.py:150-156 | What decoding leaves over does not start with a complete frame. |
| `Transport.DecodeLong` | cpp/src/ServiceTracer.cpp:80-82 | A message of 2^32 bytes or more comes out shorter. |
| `Transport.FromTo` | cpp/src/ServiceTracer.cpp:82-84 | Big-endian bytes of a number that fits the field give the number back. |
| `Transport.UnixSocketSender.Send` | cpp/src/ServiceTracer.cpp:68-102 | For any partial sends: true only if the whole frame is on the wire; if a send fails a proper prefix of it is, and the sender is disconnected; without connection or data nothing happens. |
| `Transport.SendPayload` | ms_service_profiler/tracer/perfetto_socket.py:125-132 | The second producer writes a frame that decodes to the payload, and raises exactly if the length does not fit. |
| `Transport.AbstractSocketServer.ProcessDataFrame` | ms_service_profiler/tracer/socket_server.py:159-168 | Splits off the first frame, if it is whole; otherwise nothing can be decoded yet. |
| `Transport.AbstractSocketServer.HandleRecv` | ms_service_profiler/tracer/socket_server.py:142-157 | For messages that fit the field, any part of their stream and any non-empty chunks it is cut into, followed by nothing or by an empty chunk, exactly the messages whose bytes arrived in full are handed over, and the buffer keeps the rest. |
| `Transport.AbstractSocketServer.ProcessFrames` | ms_service_profiler/tracer/socket_server.py:150-156 | The inner loop hands over the whole frames of the buffer and keeps the rest. |
| `Transport.AbstractSocketServer.HandleData` | ms_service_profiler/tracer/socket_server.py:170-193 | With put and get as one step the message enters, and exactly when the queue was full the oldest one is dropped. |
| `Transport.AbstractSocketServer.GetData` | ms_service_profiler/tracer/socket_server.py:221-226 | Returns the oldest message that was neither delivered nor dropped, or nothing if there is none. |
| `TransportQueue.DropsOnlyTheOldest` | ms_service_profiler/tracer/socket_server.py:170-193 | With put, get and the retry as separate steps of any number of client threads: what is queued is always the newest suffix of what entered, and each thread's messages enter in order. |
| `TransportQueue.BreaksExactlyWhen` | ms_service_profiler/tracer/socket_server.py:192-193 | The second put can raise queue.Full if and only if at least two threads send and there are at least two messages more than the queue holds. |
| `TransportQueue.SticksExactlyWhen` | ms_service_profiler/tracer/socket_server.py:192-192 | The blocking get can wait for ever on an emptied queue if and only if there are more messages than the queue holds. |
| `TransportQueue.FinalIsComplete` | ms_service_profiler/tracer/socket_server.py:170-193 | A run that ends otherwise has entered every message of every thread, each delivered or dropped. |
| `TransportQueue.Conserved` | ms_service_profiler/tracer/socket_server.py:170-193 | At every moment the messages still outside and those that entered add up to the input. |
| `PerfettoFlows.EveryLinkOnce` | ms_service_profiler/tracer/perfetto_exporter.py:119-133 | For any spans, past the limits, too: every link is counted once among the pairs emitted, the links waiting and the links refused; no link yields two pairs. |
| `PerfettoFlows.PairsAreSound` | ms_service_profiler/tracer/perfetto_exporter.py:122-133 | Every pair starts at a position of a span that arrived with the source's key. |
| `PerfettoFlows.LinksResolved` | ms_service_profiler/tracer/perfetto_exporter.py:119-133 | Within the limits a link has its pair if the source arrived, and waits if it did not. |
| `PerfettoFlows.FlowsExactly` | ms_service_profiler/tracer/perfetto_exporter.py:119-133 | Within the limits the multiset of pairs is exactly one per link whose source arrived, joining the two spans' positions, and the pending table holds exactly the other links. |
| `PerfettoFlows.OrderDoesNotMatter` | ms_service_profiler/tracer/perfetto_exporter.py:119-133 | Any two orders of the same spans with distinct keys give the same multiset of pairs and the same waiting links. |
| `PerfettoFlows.KeepsTheLatest` | ms_service_profiler/tracer/perfetto_exporter.py:163-167 | However many spans with different keys arrive, the table holds exactly the positions of the latest ones, as many as the limit allows. |
| `PerfettoFlows.EmittedAtOnceExactlyWhen` | ms_service_profiler/tracer/perfetto_exporter.py:124-133 | A link is emitted as soon as its span arrives exactly if its source is among the latest spans; otherwise it waits, or is refused exactly if as many sources are waiting as are kept. |
| `PerfettoFlows.PendingBounded` | ms_service_profiler/tracer/perfetto_exporter.py:129-131 | There are never more waiting sources than the limit. |
| `PerfettoJson.DumpsIsWhole` | ms_service_profiler/tracer/perfetto_exporter.py:170-170 | The compact text of any JSON value closes every bracket and string it opens and has no comma outside them. |
| `PerfettoJson.DumpsEncodes` | ms_service_profiler/tracer/perfetto_exporter.py:170-170 | The text of a JSON value, written without escaping other than ASCII, can be encoded in UTF-8 if and only if no string in the value has a surrogate. |
| `PerfettoJson.SplitJoin` | ms_service_profiler/tracer/perfetto_exporter.py:180-180 | Splitting the joined texts at the commas outside brackets and strings gives the texts back. |
| `PerfettoJson.ReadsBack` | ms_service_profiler/tracer/perfetto_exporter.py:176-182 | An array reader gets exactly the texts that were joined between the brackets. |
| `PerfettoJson.ReadsDumped` | ms_service_profiler/tracer/perfetto_exporter.py:170-182 | An array reader gets from the text of a list the texts of its items. |
| `PerfettoExporter.TextFile.Write` | ms_service_profiler/tracer/perfetto_exporter.py:179-181 | Overwrites from the position on and extends the file. |
| `PerfettoExporter.TextFile.Truncate` | ms_service_profiler/tracer/perfetto_exporter.py:182-182 | Cuts the file at the position. |
| `PerfettoExporter.TextFile.SeekLast` | ms_service_profiler/tracer/perfetto_exporter.py:176-177 | Moves onto the last character. |
| `PerfettoExporter.PairsInOrder` | ms_service_profiler/tracer/perfetto_exporter.py:137-161 | The k-th flow becomes the k-th pair of events, which carry one id: its start at the position of the source, its end at that of the destination. |
| `PerfettoShown.LinksAreShown` | ms_service_profiler/tracer/perfetto_exporter.py:84-161 | For every link whose source is among the spans, in any order, the file read as JSON has an "X" object for each of the two spans, with ts and dur from its times, an "s" object with the pid, tid and ts of the first, and an "f" object with those of the second; both carry the id trace:span:span. |
| `PerfettoShown.FlowShown` | ms_service_profiler/tracer/perfetto_exporter.py:137-161 | In any run, every pair of an export that succeeded is in the file: an "s" object where the pair starts and an "f" object, bound to the enclosing slice, where it ends, with one id. |
| `PerfettoShown.SpanShown` | ms_service_profiler/tracer/perfetto_exporter.py:107-118 | In any run, a span whose export succeeded is in the file: an "X" object with its names, process, thread, start, duration and arguments. |
| `PerfettoShown.ArrowsAreLinks` | ms_service_profiler/tracer/perfetto_exporter.py:122-133 | In any run, every "s" object in the file stands where a span with the key of its source does, and belongs to a link of a span that has arrived. |
| `PerfettoShown.FlowIsLink` | ms_service_profiler/tracer/perfetto_exporter.py:122-133 | Every pair emitted, past the limits too, belongs to a link of a span that has arrived to one that has, and joins their positions. |
| `PerfettoShown.FileReads` | ms_service_profiler/tracer/perfetto_exporter.py:169-184 | The file after any spans is read as the array of the events written, or, if it dangles, not at all. |
| `PerfettoShown.FlowIdsTellApart` | ms_service_profiler/tracer/perfetto_exporter.py:126-126 | Two arrows share an id exactly if their sources and the span ids of their destinations agree, provided no id of a source has a colon. |
| `PerfettoShown.ColonsConfuse` | ms_service_profiler/tracer/perfetto_exporter.py:126-126 | With colons in the ids different sources can share the id of an arrow. |
| `PerfettoEvents.ArgsMembers` | ms_service_profiler/tracer/perfetto_exporter.py:94-106 | The arguments hold exactly the identifiers of the span, every attribute of another name, and the resource attributes under their own names where these are free; no name occurs twice. |
| `PerfettoEvents.IntegerRead` | ms_service_profiler/tracer/perfetto_exporter.py:114-115 | An integer is written so that it is read as the same integer, its sign included and without leading zeros. |
| `PerfettoReader.ReadsWhatIsDumped` | ms_service_profiler/tracer/perfetto_exporter.py:170-170 | A reader of JSON gets every value back from what json.dumps writes for it: strings with their escapes, arrays, objects and literals. |
| `PerfettoReader.Unescapes` | ms_service_profiler/tracer/perfetto_exporter.py:170-170 | Reading the escapes of a string gives the string, and no control character stands in it as it is. |
| `PerfettoReader.DumpsTellsApart` | ms_service_profiler/tracer/perfetto_exporter.py:170-170 | Different values are never written alike. |
| `PerfettoEvents.CompleteEncodes` | ms_service_profiler/tracer/perfetto_exporter.py:84-118 | The event of a span in whose names, ids and attributes no surrogate occurs can be written. |
| `PerfettoEvents.FlowEncodes` | ms_service_profiler/tracer/perfetto_exporter.py:137-161 | A flow event can be written if and only if the ids in it have no surrogate. |
| `PerfettoExporter.FileIsArray` | ms_service_profiler/tracer/perfetto_exporter.py:57-67 | Between the brackets of a file of whole texts there are exactly these, unless an append was broken off after its comma; then the last bracket is missing. |
| `PerfettoExporter.PerfettoTraceExporter.constructor` | ms_service_profiler/tracer/perfetto_exporter.py:57-70 | A new file is the empty array. |
| `PerfettoExporter.PerfettoTraceExporter.AppendEvents` | ms_service_profiler/tracer/perfetto_exporter.py:169-184 | By overwriting the last character and truncating, the file becomes the array of all events so far; an event that cannot be encoded leaves the comma at the end; an empty batch and a closed exporter change nothing. |
| `PerfettoExporter.PerfettoTraceExporter.RememberPosition` | ms_service_profiler/tracer/perfetto_exporter.py:163-167 | Evicts the oldest key when the table is full, as the table of values does. |
| `PerfettoExporter.PerfettoTraceExporter.ResolveWaiting` | ms_service_profiler/tracer/perfetto_exporter.py:121-123 | Emits the pairs that waited for the span and forgets them. |
| `PerfettoExporter.PerfettoTraceExporter.AddLink` | ms_service_profiler/tracer/perfetto_exporter.py:124-133 | Emits the pair if the source is known, otherwise keeps the link or refuses it at the limit. |
| `PerfettoExporter.PerfettoTraceExporter.ConvertSpan` | ms_service_profiler/tracer/perfetto_exporter.py:84-134 | The events of one span: the complete event and its pairs. |
| `PerfettoExporter.PerfettoTraceExporter.Export` | ms_service_profiler/tracer/perfetto_exporter.py:72-82 | True exactly if all events could be encoded; the tables change either way. |
| `PerfettoExporter.PerfettoTraceExporter.Close` | ms_service_profiler/tracer/perfetto_exporter.py:186-190 | Closes the exporter and leaves the file and the tables as they are. |
| `PerfettoExporter.ExportAll` | ms_service_profiler/tracer/perfetto_exporter.py:72-184 | For any spans: the tables are those the link theorems speak about, and the file is the one that the theorems about arrays speak about. |
| `PerfettoRuns.ReadsAsWritten` | ms_service_profiler/tracer/perfetto_exporter.py:169-184 | After any spans an array reader gets from the file exactly the events of the spans that could be encoded; if the last could not and there were events before, the last bracket is missing. |
| `PerfettoRuns.FileIsJsonArray` | ms_service_profiler/tracer/perfetto_exporter.py:57-67 | Then the file is what json.dumps writes for the list of these events, and otherwise it is no JSON array. |
| `PerfettoRuns.ArrayExactlyWhen` | ms_service_profiler/tracer/perfetto_exporter.py:57-67 | The file is a JSON array after every export if and only if no export fails once an event has been written. |
| `PerfettoRuns.ExportSucceedsExactlyWhen` | ms_service_profiler/tracer/perfetto_exporter.py:72-82 | An export succeeds if and only if the event of its span and the ids of its pairs can be encoded. |
| `PerfettoRuns.CleanSpansGiveArray` | ms_service_profiler/tracer/perfetto_exporter.py:57-67 | If no span has a surrogate, the file is, after every export, what json.dumps writes for the list of all events of all spans in order. |
| `PerfettoRuns.SurrogateLeavesNoArray` | ms_service_profiler/tracer/perfetto_exporter.py:176-180 | One span whose name is a lone surrogate, after any span that was written, leaves a file that is no JSON array. |
| `PerfettoRuns.EarlierSurrogateSpreads` | ms_service_profiler/tracer/perfetto_exporter.py:119-133 | A span without surrogates is refused when an earlier span with a surrogate in its id links to it. |
| `RequestStore.StoreSurvivors` | ms_service_profiler/tracer/hook_runtime.py:80-104 | After any history of register and finish calls an id is stored exactly if it was registered, not finished since, and at no moment since its last registration were as many as the bound alive that were registered later; it has its last context, the order is by last registration, and the size is within the bound. |
| `RequestStore.RegisterStep` | ms_service_profiler/tracer/hook_runtime.py:80-85 | One registration keeps this. |
| `RequestStore.FinishStep` | ms_service_profiler/tracer/hook_runtime.py:101-104 | One finish keeps this. |
| `RequestStore.LiveIsBehind` | ms_service_profiler/tracer/hook_runtime.py:80-85 | The ids stored behind an id are exactly as many as are alive and were registered later. |
| `RequestStore.HookTraceRuntime.StoreRequest` | ms_service_profiler/tracer/hook_runtime.py:80-85 | Pop, insert and evict: the history grows by a registration. |
| `RequestStore.HookTraceRuntime.RegisterRequestContext` | ms_service_profiler/tracer/hook_runtime.py:87-95 | Registers the context of the headers, else the current one, else nothing. |
| `RequestStore.HookTraceRuntime.FinishRequest` | ms_service_profiler/tracer/hook_runtime.py:101-104 | True exactly if the id was still stored. |
| `RequestStore.HookTraceRuntime.RequestContext` | ms_service_profiler/tracer/hook_runtime.py:118-121 | The context of the last registration exactly if the id survives. |
| `RequestStore.HookTraceRuntime.RequestLinks` | ms_service_profiler/tracer/hook_runtime.py:106-116 | The stored contexts of the first 128 ids asked for, in order. |
| `RequestStore.LinksOf` | ms_service_profiler/tracer/hook_runtime.py:106-116 | A pair is there exactly for an id asked for that is stored with this context. |
| `RequestStore.LinksInOrder` | ms_service_profiler/tracer/hook_runtime.py:106-116 | The links come in the order of the ids asked for, one for each that is stored. |
| `RequestStore.HookTraceRuntime.Clear` | ms_service_profiler/tracer/hook_runtime.py:123-126 | The history starts anew. |
| `RidText.LongestOriginal` | ms_service_profiler/plugins/plugin_concat.py:133-145 | The longest part in front of a hyphen that is an original, and none exactly if no such part is one. |
| `RidText.FindOriginal` | ms_service_profiler/plugins/plugin_concat.py:125-145 | The search with its shortcut returns exactly that. |
| `RidText.ShortcutAgrees` | ms_service_profiler/plugins/plugin_concat.py:126-131 | The shortcut for a hyphen and eight hexadecimal digits never changes the answer. |
| `RidText.PiecesJoin` | ms_service_profiler/plugins/plugin_concat.py:180-186 | Splitting at commas undoes joining with commas. |
| `RidText.Strip` | ms_service_profiler/plugins/plugin_concat.py:99-105 | Stripping gives a text without white space at its ends, and the same text if there was none. |
| `RidText.StripSplits` | ms_service_profiler/plugins/plugin_concat.py:99-105 | What is taken off at both ends is white space, and the rest is left as it is. |
| `RidText.StripIs` | ms_service_profiler/plugins/plugin_concat.py:99-105 | A text between white space is what stripping leaves, if it has none at its own ends: only one text can be left. |
| `RidMapping.Collect` | ms_service_profiler/plugins/plugin_concat.py:92-122 | Adds exactly the ids of a nested value to the set. |
| `RidMapping.CollectText` | ms_service_profiler/plugins/plugin_concat.py:97-108 | Adds exactly the ids between the commas of a string; the branch without commas agrees. |
| `RidMapping.CollectsExactly` | ms_service_profiler/plugins/plugin_concat.py:92-122 | An id is collected exactly if somewhere inside the value, in lists, tuples and entries "rid", a string holds it between two commas, or another object has it as its text, up to white space round it. |
| `RidMapping.MapString` | ms_service_profiler/plugins/plugin_concat.py:172-186 | Both branches map every id between the commas and drop empty ones; a string without ids is kept. |
| `RidMapping.MapsInPlace` | ms_service_profiler/plugins/plugin_concat.py:168-201 | At every place inside the value mapping keeps the shape and rewrites exactly the strings. |
| `RidMapping.MapsEach` | ms_service_profiler/plugins/plugin_concat.py:176-186 | Each id between the commas is replaced by its image, in its place. |
| `RidMapping.SpacesDoNotMatter` | ms_service_profiler/plugins/plugin_concat.py:172-186 | White space round a piece changes neither the ids collected from the string nor, if it holds any text at all, what it is mapped to. |
| `RidMapping.BlankPieceDropped` | ms_service_profiler/plugins/plugin_concat.py:182-184 | An empty piece among others is dropped. |
| `RidMapping.BlankTextKept` | ms_service_profiler/plugins/plugin_concat.py:177-185 | A string that holds no text between its commas is kept. |
| `RidMapping.MapColumn` | ms_service_profiler/plugins/plugin_concat.py:271-283 | The string cache never changes a result. |
| `RidMapping.MappedStrings` | ms_service_profiler/plugins/plugin_concat.py:168-201 | The ids collected from the strings of a mapped value are the images of those collected from the value; the other ids stay. |
| `RidMapping.CommutesExactlyWhen` | ms_service_profiler/plugins/plugin_concat.py:168-201 | Collection commutes with mapping if and only if no id that is not in a string is to be renamed: such ids are collected but never rewritten. |
| `RidMapping.NumbersAreLeft` | ms_service_profiler/plugins/plugin_concat.py:120-122 | A number whose text is a key of the map shows that it fails otherwise. |
| `RidMapping.MappingIsIdempotent` | ms_service_profiler/plugins/plugin_concat.py:168-201 | Mapping twice equals mapping once, for every nested value. |
| `RidFrame.BuildRidHashMapping` | ms_service_profiler/plugins/plugin_concat.py:49-82 | The map sends every id seen that is no original to its original, and holds no others. |
| `RidFrame.OriginalsAre` | ms_service_profiler/plugins/plugin_concat.py:61-63 | The originals are exactly the ids of the events named httpReq and tokenize. |
| `RidFrame.ObservedAre` | ms_service_profiler/plugins/plugin_concat.py:68-74 | The ids looked at are exactly those of the three columns that are no originals. |
| `RidFrame.TryApplyMapping` | ms_service_profiler/plugins/plugin_concat.py:263-304 | Every cell of the three columns is mapped in its place, or nothing changes when the map is empty. |
| `RidFrame.BuiltMapIsGood` | ms_service_profiler/plugins/plugin_concat.py:74-82 | The map that is built meets the hypothesis of the mapping theorems: no original is renamed. |
| `RidFrame.OriginalsKept` | ms_service_profiler/plugins/plugin_concat.py:61-63 | A pass does not change which ids are originals. |
| `RidFrame.NoVariantLeft` | ms_service_profiler/plugins/plugin_concat.py:263-291 | After a pass every id in a string is an original or a variant of none. |
| `RidFrame.PassIsIdempotent` | ms_service_profiler/plugins/plugin_concat.py:294-304 | A second pass changes nothing. |
| `RunningCounts.ClampedIs` | ms_service_profiler/exporters/exporter_coordinator.py:298-304 | The clamped recurrence is the net sum minus the least of all its prefix sums and zero. |
| `RunningCounts.LowestIsLeast` | ms_service_profiler/exporters/exporter_coordinator.py:301-302 | That least value is attained by a prefix and is below every other. |
| `RunningCounts.PlainExactlyWhen` | ms_service_profiler/exporters/exporter_coordinator.py:301-302 | The clamp never fires if and only if no prefix sum is negative. |
| `RunningCounts.RunningCount` | ms_service_profiler/exporters/exporter_coordinator.py:294-304 | Row by row, the loop over all nodes gives each node the clamped sum of its own rows. |
| `RunningCounts.SliceMonotone` | ms_service_profiler/exporters/exporter_coordinator.py:214-224 | Later times never fall into earlier slices, for any interval. |
| `RunningCounts.SliceInMinute` | ms_service_profiler/exporters/exporter_coordinator.py:218-221 | The slice of a time is the last multiple of the interval, counted from the start of its minute, that is not later than the time, and no other second is. |
| `RunningCounts.SameSliceExactlyWhen` | ms_service_profiler/exporters/exporter_coordinator.py:214-224 | Two times of one minute share their slice if and only if no multiple of the interval lies after the first and up to the second. |
| `RunningCounts.BuildTimeline` | ms_service_profiler/exporters/exporter_coordinator.py:143-200 | The records of all requests, each with its at most four events; an address that is neither missing nor empty counts even if it is no text. |
| `RunningCounts.FirstOfIsFirst` | ms_service_profiler/exporters/exporter_coordinator.py:149-194 | The row looked up is the first one of the request that is of the wanted kind, and there is none exactly if no row is. |
| `RunningCounts.NetsUpTo` | ms_service_profiler/exporters/exporter_coordinator.py:286-292 | The net sum up to a row is the number of starts minus the number of ends up to its time slice. |
| `RunningCounts.PrefillCount` | ms_service_profiler/exporters/exporter_coordinator.py:157-189 | For prefill nodes, if every time can be parsed and no token comes before its dispatch, the clamp never fires and the value is the number of requests dispatched and not ended by that slice. |
| `RunningCounts.NodeCountExactlyWhen` | ms_service_profiler/exporters/exporter_coordinator.py:294-304 | For any node the value is starts minus ends if and only if at no earlier row there were more ends than starts. |
| `RunningCounts.TablePrefill` | ms_service_profiler/exporters/exporter_coordinator.py:286-306 | In the whole table, the running count of a row of a prefill node is the number of requests dispatched to that node and not ended by its slice. |
| `RunningCounts.TableExactlyWhen` | ms_service_profiler/exporters/exporter_coordinator.py:286-306 | In the whole table, the running count of a row is the starts less the ends at its node up to its slice if and only if no row of that node so far had more ends than starts up to it. |
| `RunningCounts.EndWithoutStart` | ms_service_profiler/exporters/exporter_coordinator.py:191-200 | A finished request ends at its decode node without ever having started there exactly if it has no token or no prefill address: there the clamp can fire. |
| `RunningCounts.CountDecode` | ms_service_profiler/exporters/exporter_coordinator.py:171-200 | At its decode node a request starts with its token, if it has a prefill address, and ends when it finishes. |
| `ExpertHeat.SplitExpertHot` | ms_service_profiler/processor/processor_eplb_observe.py:264-268 | In place, every row becomes its difference to the row before, and the first row stays. |
| `ExpertHeat.DifferencesSumToLast` | ms_service_profiler/processor/processor_eplb_observe.py:264-268 | The differences up to any row sum to the cumulative value of that row. |
| `ExpertHeat.CutToSameLen` | ms_service_profiler/exporters/exporter_eplb_observe.py:275-280 | Every rank is cut to the shortest; an error exactly if one is empty. |
| `ExpertHeat.SlotConserved` | ms_service_profiler/exporters/exporter_eplb_observe.py:120-122 | The sum over the common iterations is each slot's last common cumulative value. |
| `ExpertHeat.SummedSlot` | ms_service_profiler/exporters/exporter_eplb_observe.py:120-122 | In a layer put together rank by rank, slot e of rank k is at place k * perRank + e. |
| `ExpertHeat.SummedHeatIs` | ms_service_profiler/exporters/exporter_eplb_observe.py:120-125 | The sum over the iterations, transposed, reshaped to rows of layers and transposed again, gives for every layer its slots rank by rank. |
| `ExpertHeat.ReshapeFlat` | ms_service_profiler/exporters/exporter_eplb_observe.py:123-125 | Laying rows out in memory and reshaping to the old width gives the rows back. |
| `ExpertHeat.UpdateExpertMap` | ms_service_profiler/processor/processor_eplb_observe.py:226-234 | Writes the routing of every layer into its row and leaves the other rows alone. |
| `ExpertHeat.RoutedInverts` | ms_service_profiler/processor/processor_eplb_observe.py:230-232 | For a routing without repetition the map sends each routed slot back to its expert and leaves the others unfilled. |
| `ExpertHeat.Remap` | ms_service_profiler/exporters/exporter_eplb_observe.py:256-272 | Fails exactly on different shapes or a map with no expert; otherwise every column is the sum of the heat of the slots sent to it, where -1 counts from the end. |
| `ExpertHeat.LayerTotalKept` | ms_service_profiler/exporters/exporter_eplb_observe.py:267-270 | Every layer's total heat is kept by the remapping. |
| `ExpertHeat.StrayHeat` | ms_service_profiler/exporters/exporter_eplb_observe.py:269-270 | The heat of unfilled slots goes to the last expert, and nothing else is out of place. |
| `ExpertHeat.ExactHeatExactlyWhen` | ms_service_profiler/exporters/exporter_eplb_observe.py:267-270 | Every expert has exactly the heat of its own slots if and only if the unfilled slots have no heat in total. |
| `ExpertHeat.BijectiveRouting` | ms_service_profiler/exporters/exporter_eplb_observe.py:256-272 | For a bijective routing each expert gets the heat of the slot it was routed to. |
| `ExpertHeat.ExpertGetsItsHeat` | ms_service_profiler/exporters/exporter_eplb_observe.py:112-127 | From cumulative snapshots to the remapped table: each expert gets the last common cumulative heat of the slot it was routed to. |
| `SpecDecoding.Count` | ms_service_profiler/exporters/exporter_batch.py:429-459 | The totals, and per position the number of requests that reach it, accepted over proposed, for every position up to the longest proposal. |
| `SpecDecoding.Proposed` | ms_service_profiler/exporters/exporter_batch.py:441-441 | The proposed tokens count if their number is there and not zero, else the scheduled ones, else none. |
| `SpecDecoding.PerReqIs` | ms_service_profiler/exporters/exporter_batch.py:445-447 | A request is counted with the values of its last entry. |
| `SpecDecoding.DenominatorsPositive` | ms_service_profiler/exporters/exporter_batch.py:452-455 | The break on a zero denominator is never taken. |
| `SpecDecoding.NumeratorsWithin` | ms_service_profiler/exporters/exporter_batch.py:453-456 | No position has more accepting than proposing requests. |
| `SpecDecoding.PositionsSumUp` | ms_service_profiler/exporters/exporter_batch.py:452-456 | The counts per position of a dictionary add up to its values. |
| `SpecDecoding.TotalIsShownAndHidden` | ms_service_profiler/exporters/exporter_batch.py:437-447 | The total is what the dictionary shows plus what its entries hide: requests without an id and requests replaced by a later one. |
| `SpecDecoding.PositionsAddUpExactlyWhen` | ms_service_profiler/exporters/exporter_batch.py:437-456 | The positions add up to the totals if and only if every hidden request contributes nothing. |
| `SpecDecoding.NothingHidden` | ms_service_profiler/exporters/exporter_batch.py:445-447 | Nothing is hidden exactly if all ids are present and distinct. |

## Left out

Task protocol:

- `send`, `broadcast`, `all_gather_async` and `recv_until_finish`: they leave replies in a queue that the next receive takes for its own.
- Processes of one task that issue different collectives: `Config.program` gives each task one sequence, which all its processes follow.
- Crash handling, the log level `verbose`, progress counts and logging.
- What run() computes, and the results a task hands to its successors inside a process.
- `IsAllFinished`: states only that no pool owns a task; the other half of the test calls `is_alive` of no process, because line 55 names the method without calling it, so it is false as long as some pool has a process.
- Operating-system processes, signals and the queues of multiprocessing: a queue is a sequence.
- Texts of errors are numbers; that an empty one is not logged has no effect here.
- `FilterDag`: does not model the filtered copy of the edges, because nobody reads it.
- `GetDataDag`: does not model the consumers of a data name, because get_dag reads only the producers.
- `GetTaskRunOrder`: is stated for graphs on which the loop ends; `RunOrderEndsExactlyWhen` says which these are, and `DagCanBeOrdered` which registries give such graphs.
- `StartUp`: is stated for registries that give such graphs; how many inputs a data source has is a parameter.

Transport and traces:

- Sockets, peer credentials, permissions, timeouts and the interval of warnings.
- The draining in `clear_data`, and the bounded queue of PerfettoSocketSender, which drops the newest span.
- Serialisation of spans by OpenTelemetry, and OTLP.
- `ReadsWhatIsDumped`: is about a reader without white space between tokens, which takes surrogates in escapes for errors; json.dumps writes neither here.
- `SpanShown` and `LinksAreShown`: the attributes of a span come from dictionaries, so no name occurs twice among them.
- Numbers in JSON are any text without structural characters; NaN and Infinity, which json.dumps writes though RFC 8259 has no such numbers, count as such texts. How a float is written is a parameter of that type.
- The file is a text with a position; bytes per character and the buffer in front of the file are not modelled, and an event that cannot be encoded is refused as a whole.
- Packets that are no JSON, or hold no integers where integers are expected: export refuses them before the tables change.
- `FlowsExactly`: is stated for distinct keys within the limit of 100000 tracked spans; past it `EveryLinkOnce`, `PairsAreSound` and `FlowIsLink` still hold, and `EmittedAtOnceExactlyWhen` says which links are resolved.
- `RequestLinks`: does not test `is_valid` again, because only valid contexts are registered; a `Context` is a valid one.
- The lock of HookTraceRuntime: a method is one step.

Request ids:

- Entries of a dictionary other than "rid" are left as they are; the pandas columns are sequences.
- Unicode normalisation; white space is what str.strip removes.

Counts:

- Rounding, date formats other than keeping the order of times, and CSV, database and figure output.
- Grouping and sorting by pandas: the predicates `IsTable` and `Grouped` say what they give.
- `SliceInMinute`: the interval is not zero; with zero the source gives no slice to any time.
- complete_running_count_timeline, which fills gaps in the table.
- The look-up of accepted tokens that precedes the counting loop of exporter_batch.py (lines 405-421).
- The order of pods and ranks, time-stamp averages and the drawing of heat maps.

Not modelled at all, because it is foreign code or plumbing: the C++ profiler control, msprof and torch calls,
ms_service_metric, the command line, configuration and path checks.
