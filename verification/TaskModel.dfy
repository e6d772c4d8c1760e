/**
 The manager of the multi-process task protocol as a value (task_manager.py).
 Class TaskManagers.TaskManager is the same state updated in place; its methods
 are proved against the functions of this module, and the protocol proofs use
 the functions.
 */
module TaskModel {
  import opened Basics
  import opened Collectives

  type TaskName = nat
  type PoolId = nat
  /** A worker process; its receive queue has the same number. */
  type ProcId = nat

  datatype TaskState = Unstart | Started | Finished | Error | NoSourceData

  /** What one process contributes to a row: a gathered value, the pair of a finish barrier, or an error text. */
  datatype Data = Val(v: int) | Fin(pool: PoolId, next: Option<TaskName>) | Err(msg: Option<int>)

  datatype Body =
    | Gather(dst: nat, v: int)
    | AllGather(v: int)
    | FinishedMsg(pool: PoolId, next: Option<TaskName>, afterError: bool)
    | ErrorMsg(msg: Option<int>)

  /** A message to the manager: who_task_name, who_index, and the rest. */
  datatype Msg = Msg(task: TaskName, index: Option<nat>, body: Body)

  /** A message to a process. `ErrorReply` stands for every message tagged "error", whatever it carries. */
  datatype Reply =
    | Go(index: nat)
    | ErrorReply
    | ErrorGather(row: seq<Data>)
    | FinishedReply
    | Gathered(row: seq<Data>)
    | AllGathered(row: seq<Data>)

  datatype TaskInfo = TaskInfo(waitPools: seq<PoolId>, queues: seq<ProcId>, state: TaskState, deque: seq<Row<Data>>)

  /** `Stopped` is the break out of the loop; `Crashed` an exception that leaves it. */
  datatype Status = Looping | Stopped | Crashed

  /** The task graph and the processes of every pool. */
  datatype Layout = Layout(prev: map<TaskName, seq<TaskName>>, pools: seq<seq<ProcId>>)

  datatype Manager = Manager(
    info: map<TaskName, TaskInfo>,
    owner: seq<Option<TaskName>>,
    channels: seq<seq<Reply>>,
    status: Status)

  const FreshInfo := TaskInfo([], [], Unstart, [])

  /** init_task: an absent entry reads as a fresh one. */
  function InfoOf(info: map<TaskName, TaskInfo>, t: TaskName): TaskInfo {
    if t in info then info[t] else FreshInfo
  }

  function PrevOf(l: Layout, t: TaskName): seq<TaskName> {
    if t in l.prev then l.prev[t] else []
  }

  function WithInfo(m: Manager, t: TaskName, ti: TaskInfo): Manager {
    m.(info := m.info[t := ti])
  }

  // ------------------------------------------------------------ sending

  function Put(channels: seq<seq<Reply>>, q: ProcId, r: Reply): (res: seq<seq<Reply>>)
    ensures |res| == |channels|
  {
    if q < |channels| then channels[q := channels[q] + [r]] else channels
  }

  function PutAll(channels: seq<seq<Reply>>, qs: seq<ProcId>, r: Reply): (res: seq<seq<Reply>>)
    ensures |res| == |channels|
  {
    if qs == [] then channels
    else Put(PutAll(channels, qs[..|qs| - 1], r), qs[|qs| - 1], r)
  }

  /** send_go: process number i of the task is told its index i, or "error" instead of "go". */
  function PutGo(channels: seq<seq<Reply>>, qs: seq<ProcId>, failed: bool): (res: seq<seq<Reply>>)
    ensures |res| == |channels|
  {
    if qs == [] then channels
    else
      Put(PutGo(channels, qs[..|qs| - 1], failed), qs[|qs| - 1], if failed then ErrorReply else Go(|qs| - 1))
  }

  function SendToTask(m: Manager, t: TaskName, r: Reply): Manager {
    m.(channels := PutAll(m.channels, InfoOf(m.info, t).queues, r))
  }

  function SendToProcess(m: Manager, t: TaskName, index: nat, r: Reply): Manager {
    var queues := InfoOf(m.info, t).queues;
    if index < |queues| then m.(channels := Put(m.channels, queues[index], r)) else m
  }

  // ------------------------------------------------------------ gathering

  datatype Taken = Crash | NoRow(m: Manager) | FullRow(m: Manager, row: seq<Data>)

  function FillGatherData(m: Manager, t: TaskName, index: Option<nat>, d: Data, ignoreErrorState: bool): Taken {
    var ti := InfoOf(m.info, t);
    if ti.state == Error && !ignoreErrorState then NoRow(m)
    else
      match Fill(|ti.queues|, ti.deque, index, d)
      case BadIndex => Crash
      case Kept(deque) => NoRow(WithInfo(m, t, ti.(deque := deque)))
      case Returned(deque, row) => FullRow(WithInfo(m, t, ti.(deque := deque)), row)
  }

  function SetTaskError(m: Manager, t: TaskName, index: Option<nat>, err: Option<int>): Taken {
    var ti := InfoOf(m.info, t);
    var marked := WithInfo(m, t, ti.(state := Error, deque := if ti.state == Error then ti.deque else []));
    FillGatherData(marked, t, index, Err(err), true)
  }

  // ------------------------------------------------------------ finishing

  predicate Settled(s: TaskState) {
    s == Finished || s == NoSourceData || s == Error
  }

  /** is_all_prev_finished, first component. */
  predicate AllPrevFinished(l: Layout, m: Manager, t: TaskName) {
    && (forall i :: 0 <= i < |PrevOf(l, t)| ==> Settled(InfoOf(m.info, PrevOf(l, t)[i]).state))
    && (forall i :: 0 <= i < |InfoOf(m.info, t).waitPools| ==>
          var w := InfoOf(m.info, t).waitPools[i]; w < |m.owner| && m.owner[w] == Some(t))
  }

  /** is_all_prev_finished, second component once the first is true. */
  predicate SomePrevFailed(l: Layout, info: map<TaskName, TaskInfo>, t: TaskName) {
    exists i :: 0 <= i < |PrevOf(l, t)| && InfoOf(info, PrevOf(l, t)[i]).state == Error
  }

  /** Pool `i` is handed over to task `next` (or to nobody): one turn of the loop of set_task_finished. */
  function HandOver(l: Layout, m: Manager, i: PoolId, next: Option<TaskName>): Manager {
    if i >= |m.owner| || i >= |l.pools| then m.(status := Crashed)
    else
      var owned := m.(owner := m.owner[i := next]);
      if next.None? then owned
      else
        var t := next.value;
        var ti := InfoOf(owned.info, t);
        var joined := WithInfo(owned, t, ti.(queues := ti.queues + l.pools[i]));
        if ti.state == Unstart && AllPrevFinished(l, joined, t) then StartTask(l, joined, t) else joined
  }

  function StartTask(l: Layout, m: Manager, t: TaskName): Manager {
    var ti := InfoOf(m.info, t);
    WithInfo(m, t, ti.(state := Started)).(channels := PutGo(m.channels, ti.queues, SomePrevFailed(l, m.info, t)))
  }

  function HandOverAll(l: Layout, m: Manager, pairs: seq<(PoolId, Option<TaskName>)>): Manager
    decreases pairs
  {
    if pairs == [] || m.status == Crashed then m else HandOverAll(l, HandOver(l, m, pairs[0].0, pairs[0].1), pairs[1..])
  }

  function MarkFinished(m: Manager, t: TaskName): Manager {
    var ti := InfoOf(m.info, t);
    WithInfo(m, t, ti.(state := if ti.state == Error then Error else Finished))
  }

  /** set_task_finished; `pairs` is the order in which the set of pairs is iterated. */
  function SetTaskFinished(l: Layout, m: Manager, t: TaskName, pairs: seq<(PoolId, Option<TaskName>)>): Manager {
    HandOverAll(l, MarkFinished(m, t), pairs)
  }

  // ------------------------------------------------------------ the loop

  predicate AllFin(row: seq<Data>) {
    forall i :: 0 <= i < |row| ==> row[i].Fin?
  }

  /** set(gather_data) */
  function PairsOf(row: seq<Data>): set<(PoolId, Option<TaskName>)>
    requires AllFin(row)
  {
    set i | 0 <= i < |row| :: (row[i].pool, row[i].next)
  }

  /** The break after a "finished" or an "error" message. */
  function Settle(m: Manager): Manager {
    if m.status == Looping && forall i :: 0 <= i < |m.owner| ==> m.owner[i].None? then m.(status := Stopped) else m
  }

  /** The iteration order `pairs` fits the message: it lists the row's pairs when the message completes a finish barrier. */
  ghost predicate PairsFit(m: Manager, msg: Msg, pairs: seq<(PoolId, Option<TaskName>)>) {
    if !msg.body.FinishedMsg? then pairs == []
    else
      match FillGatherData(m, msg.task, msg.index, Fin(msg.body.pool, msg.body.next), msg.body.afterError)
      case FullRow(_, row) => if AllFin(row) then Lists(pairs, PairsOf(row)) else pairs == []
      case _ => pairs == []
  }

  /** One turn of the loop of start(). */
  function Handle(l: Layout, m: Manager, msg: Msg, pairs: seq<(PoolId, Option<TaskName>)>): Manager {
    match msg.body
    case FinishedMsg(pool, next, afterError) =>
      (match FillGatherData(m, msg.task, msg.index, Fin(pool, next), afterError)
       case Crash => m.(status := Crashed)
       case NoRow(m1) => Settle(m1)
       case FullRow(m1, row) =>
         if AllFin(row) then Settle(SetTaskFinished(l, SendToTask(m1, msg.task, FinishedReply), msg.task, pairs))
         else SendToTask(m1, msg.task, FinishedReply).(status := Crashed))
    case ErrorMsg(err) =>
      var told := if err.Some? then SendToTask(m, msg.task, ErrorReply) else m;
      (match SetTaskError(told, msg.task, msg.index, err)
       case Crash => told.(status := Crashed)
       case NoRow(m1) => Settle(m1)
       case FullRow(m1, row) => Settle(SendToTask(m1, msg.task, ErrorGather(row))))
    case Gather(dst, v) =>
      (match FillGatherData(m, msg.task, msg.index, Val(v), false)
       case Crash => m.(status := Crashed)
       case NoRow(m1) => m1
       case FullRow(m1, row) => SendToProcess(m1, msg.task, dst, Gathered(row)))
    case AllGather(v) =>
      (match FillGatherData(m, msg.task, msg.index, Val(v), false)
       case Crash => m.(status := Crashed)
       case NoRow(m1) => m1
       case FullRow(m1, row) => SendToTask(m1, msg.task, AllGathered(row)))
  }
}
