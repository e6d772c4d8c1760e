/**
 The task protocol as a transition system: the manager's loop (TaskModel), the
 worker processes (task_run in task_manager.py) and their collectives (task.py).
 One step is one turn of the manager's loop, one receive of a process, one
 contribution of a process, or one exception inside run().
 */
module TaskProtocol {
  import opened Basics
  import opened TaskModel

  // ------------------------------------------------------------ the configuration

  datatype Collective = GatherTo(dst: nat) | AllGatherOp

  datatype Pool = Pool(order: seq<TaskName>, procs: seq<ProcId>)

  /** `home[p]` is the pool of process p, `rank` a task's position in the ordered task list, and `program[t]`
      the collectives run() of task t issues, the same for each of its processes. */
  datatype Config = Config(
    prev: map<TaskName, seq<TaskName>>,
    pools: seq<Pool>,
    home: seq<PoolId>,
    rank: map<TaskName, nat>,
    program: map<TaskName, seq<Collective>>)

  function LayoutOf(c: Config): (l: Layout)
    ensures |l.pools| == |c.pools| && forall i :: 0 <= i < |c.pools| ==> l.pools[i] == c.pools[i].procs
    ensures l.prev == c.prev
  {
    Layout(c.prev, seq(|c.pools|, i requires 0 <= i < |c.pools| => c.pools[i].procs))
  }

  function Program(c: Config, t: TaskName): seq<Collective> {
    if t in c.program then c.program[t] else []
  }

  function Rank(c: Config, t: TaskName): nat {
    if t in c.rank then c.rank[t] else 0
  }

  function PrevTasks(c: Config, t: TaskName): seq<TaskName> {
    PrevOf(LayoutOf(c), t)
  }

  predicate InPool(c: Config, i: PoolId, t: TaskName) {
    i < |c.pools| && t in c.pools[i].order
  }

  ghost predicate InSomePool(c: Config, t: TaskName) {
    exists i :: 0 <= i < |c.pools| && InPool(c, i, t)
  }

  /** The task a pool starts with: its data source. */
  ghost predicate IsSource(c: Config, t: TaskName) {
    exists i :: 0 <= i < |c.pools| && |c.pools[i].order| > 0 && c.pools[i].order[0] == t
  }

  /** Pools hold disjoint, non-empty lists of processes. */
  ghost predicate PoolsOk(c: Config) {
    && (forall i :: 0 <= i < |c.pools| ==>
          |c.pools[i].order| > 0 && |c.pools[i].procs| > 0 && NoDup(c.pools[i].procs))
    && (forall i, p :: 0 <= i < |c.pools| && p in c.pools[i].procs ==> p < |c.home| && c.home[p] == i)
    && (forall p :: 0 <= p < |c.home| ==> c.home[p] < |c.pools| && p in c.pools[c.home[p]].procs)
  }

  /** Every pool walks its tasks in the one global order. */
  ghost predicate OrdersOk(c: Config) {
    forall i, a, b :: 0 <= i < |c.pools| && 0 <= a < b < |c.pools[i].order| ==>
                        Rank(c, c.pools[i].order[a]) < Rank(c, c.pools[i].order[b])
  }

  /** A pool that runs a task runs every later task that needs it; a data source needs nothing and has one pool. */
  ghost predicate GraphOk(c: Config) {
    && (forall i, t, u :: 0 <= i < |c.pools| && InPool(c, i, u) && u in PrevTasks(c, t) ==>
          InPool(c, i, t) && Rank(c, u) < Rank(c, t))
    && (forall i, j :: 0 <= i < |c.pools| && 0 <= j < |c.pools| && i != j && |c.pools[i].order| > 0 ==>
          !InPool(c, j, c.pools[i].order[0]))
    && (forall i :: 0 <= i < |c.pools| && |c.pools[i].order| > 0 ==> PrevTasks(c, c.pools[i].order[0]) == [])
  }

  ghost predicate WellFormed(c: Config) {
    PoolsOk(c) && OrdersOk(c) && GraphOk(c)
  }

  // ------------------------------------------------------------ processes

  /** Where a process stands in task_run: at the first receive of a task; inside run() having issued `done`
      collectives; waiting for the reply of the last of them; at the receive of finished_sync, of error_sync,
      or of the finished_sync inside the exception handler; past its last task; or ended by an exception. */
  datatype Phase =
    | WaitGo
    | Running(done: nat)
    | WaitReply(done: nat)
    | WaitFinish
    | WaitErrorGather
    | WaitFinishAfterError
    | Exited
    | Dead

  /** `out` holds what the process has put on the manager's queue and the manager has not taken yet.  `sent`
      records the contributions of this run() and its finish; no step reads it. */
  datatype Process = Process(at: nat, phase: Phase, index: Option<nat>, out: seq<Msg>, sent: seq<Data>)

  datatype State = State(m: Manager, procs: seq<Process>)

  function NextTask(order: seq<TaskName>, k: nat): Option<TaskName> {
    if k + 1 < |order| then Some(order[k + 1]) else None
  }

  function Advance(order: seq<TaskName>, pr: Process): Process {
    pr.(at := pr.at + 1, phase := if pr.at + 1 < |order| then WaitGo else Exited)
  }

  /** error_sync, up to its receive. */
  function SendError(t: TaskName, pr: Process, err: Option<int>): Process {
    pr.(phase := WaitErrorGather, out := pr.out + [Msg(t, pr.index, ErrorMsg(err))])
  }

  predicate Waiting(ph: Phase) {
    ph.WaitGo? || ph.WaitReply? || ph.WaitFinish? || ph.WaitErrorGather? || ph.WaitFinishAfterError?
  }

  /** A process takes reply `r` from its queue and goes on until it next touches a queue. */
  function Receive(i: PoolId, order: seq<TaskName>, pr: Process, r: Reply): Process
    requires pr.at < |order|
  {
    var t := order[pr.at];
    match pr.phase
    case WaitGo =>
      if r.ErrorReply? then SendError(t, pr, None)
      else pr.(phase := Running(0), index := if r.Go? then Some(r.index) else None, sent := [])
    case WaitReply(done) =>
      if r.ErrorReply? then SendError(t, pr, None) else pr.(phase := Running(done))
    case WaitFinish =>
      if r.ErrorReply? then SendError(t, pr, None)
      else if r.FinishedReply? then Advance(order, pr)
      else SendError(t, pr, Some(0))
    case WaitErrorGather =>
      if r.ErrorReply? then pr
      else
        pr.(phase := WaitFinishAfterError,
            out := pr.out + [Msg(t, pr.index, FinishedMsg(i, NextTask(order, pr.at), true))])
    case WaitFinishAfterError =>
      if r.FinishedReply? then Advance(order, pr) else pr.(phase := Dead)
    case _ => pr
  }

  /** Only the destination of a gather waits for it. */
  predicate Expects(op: Collective, index: Option<nat>) {
    op.AllGatherOp? || index == Some(op.dst)
  }

  function BodyFor(op: Collective, v: int): Body {
    match op
    case GatherTo(dst) => Gather(dst, v)
    case AllGatherOp => AllGather(v)
  }

  /** Inside run(): issue the next collective with value `v`, or finish when there is none left. */
  function Issue(c: Config, i: PoolId, order: seq<TaskName>, pr: Process, v: int): Process
    requires pr.at < |order| && pr.phase.Running?
  {
    var t := order[pr.at];
    var k := pr.phase.done;
    if k < |Program(c, t)| then
      var op := Program(c, t)[k];
      pr.(phase := if Expects(op, pr.index) then WaitReply(k + 1) else Running(k + 1),
          out := pr.out + [Msg(t, pr.index, BodyFor(op, v))],
          sent := pr.sent + [Val(v)])
    else
      var next := NextTask(order, pr.at);
      pr.(phase := WaitFinish,
          out := pr.out + [Msg(t, pr.index, FinishedMsg(i, next, false))],
          sent := pr.sent + [Fin(i, next)])
  }

  // ------------------------------------------------------------ steps and runs

  datatype Act =
    | Manage(p: ProcId, pairs: seq<(PoolId, Option<TaskName>)>)
    | Recv(p: ProcId)
    | Contribute(p: ProcId, v: int)
    | Fail(p: ProcId, e: int)

  function OrderOf(c: Config, p: ProcId): seq<TaskName> {
    if p < |c.home| && c.home[p] < |c.pools| then c.pools[c.home[p]].order else []
  }

  ghost predicate Enabled(c: Config, s: State, a: Act) {
    && a.p < |s.procs| && a.p < |c.home| && a.p < |s.m.channels|
    && var pr := s.procs[a.p];
       match a
       case Manage(p, pairs) => s.m.status == Looping && pr.out != [] && PairsFit(s.m, pr.out[0], pairs)
       case Recv(p) => Waiting(pr.phase) && pr.at < |OrderOf(c, p)| && s.m.channels[p] != []
       case Contribute(p, v) => pr.phase.Running? && pr.at < |OrderOf(c, p)|
       case Fail(p, e) => pr.phase.Running? && pr.at < |OrderOf(c, p)|
  }

  function Update(s: State, p: ProcId, pr: Process): State
    requires p < |s.procs|
  {
    s.(procs := s.procs[p := pr])
  }

  ghost function Do(c: Config, s: State, a: Act): State
    requires Enabled(c, s, a)
  {
    var pr := s.procs[a.p];
    var order := OrderOf(c, a.p);
    match a
    case Manage(p, pairs) =>
      Update(s, p, pr.(out := pr.out[1..])).(m := Handle(LayoutOf(c), s.m, pr.out[0], pairs))
    case Recv(p) =>
      var ch := s.m.channels[p];
      Update(s, p, Receive(c.home[p], order, pr, ch[0])).(m := s.m.(channels := s.m.channels[p := ch[1..]]))
    case Contribute(p, v) => Update(s, p, Issue(c, c.home[p], order, pr, v))
    case Fail(p, e) => Update(s, p, SendError(order[pr.at], pr, Some(e)))
  }

  /** `acts` leads from s to s'. */
  ghost predicate Runs(c: Config, s: State, acts: seq<Act>, s': State)
    decreases acts
  {
    if acts == [] then s' == s
    else Enabled(c, s, acts[0]) && Runs(c, Do(c, s, acts[0]), acts[1..], s')
  }

  // ------------------------------------------------------------ the start

  /** What tasks_run has set up when start() is entered: every pool is at its data source, whose processes
      have been sent "go", and a task of no pool that some pooled task needs has no source data.  start() is entered
      only if some pool was created. */
  ghost predicate InitialTask(c: Config, m: Manager, t: TaskName) {
    var ti := InfoOf(m.info, t);
    && (forall i :: i in ti.waitPools <==> InPool(c, i, t))
    && ti.deque == []
    && ti.state == Unstart
    && (forall i :: 0 <= i < |c.pools| && |c.pools[i].order| > 0 && c.pools[i].order[0] == t ==>
          ti.queues == c.pools[i].procs)
    && (!IsSource(c, t) ==> ti.queues == [])
  }

  /** New processes of one pool: number x has been sent Go(x). */
  ghost predicate AtFirstReceive(s: State, ps: seq<ProcId>) {
    forall x :: 0 <= x < |ps| ==>
                  && ps[x] < |s.procs| && ps[x] < |s.m.channels|
                  && s.m.channels[ps[x]] == [Go(x)] && s.procs[ps[x]] == Process(0, WaitGo, None, [], [])
  }

  ghost predicate Initial(c: Config, s: State) {
    && s.m.status == Looping
    && |s.m.owner| == |c.pools| > 0
    && |s.procs| == |s.m.channels| == |c.home|
    && (forall i :: 0 <= i < |c.pools| && |c.pools[i].order| > 0 ==> s.m.owner[i] == Some(c.pools[i].order[0]))
    && (forall t :: InSomePool(c, t) ==> InitialTask(c, s.m, t))
    && (forall t, u :: InSomePool(c, t) && u in PrevTasks(c, t) && !InSomePool(c, u) ==>
          InfoOf(s.m.info, u).state == NoSourceData)
    && (forall i :: 0 <= i < |c.pools| ==> AtFirstReceive(s, c.pools[i].procs))
  }

  ghost predicate Reachable(c: Config, s: State) {
    exists s0, acts :: Initial(c, s0) && Runs(c, s0, acts, s)
  }
}
