/** Runs in which no run() raises an exception: they never deadlock, and every task finishes. */
module ProtocolCalm {
  import opened Basics
  import opened TaskModel
  import opened TaskProtocol
  import opened ProtocolInvariant
  import ProcessSteps
  import ManagerFrames
  import ManagerAccepts
  import ManagerErrorSteps
  import opened ProtocolRuns
  import ProtocolTheorems
  import opened ProtocolProgress
  import opened ProtocolOutcome

  /** No task has failed, and no process is in an exception handler. */
  ghost predicate Calm(c: Config, s: State) {
    && (forall t :: InSomePool(c, t) ==> InfoOf(s.m.info, t).state != Error)
    && (forall p :: 0 <= p < |s.procs| ==> CalmPhase(s.procs[p].phase))
  }

  predicate CalmPhase(ph: Phase) {
    !ph.WaitErrorGather? && !ph.WaitFinishAfterError?
  }

  lemma CalmNoFailure(c: Config, s: State, h: History, t: TaskName)
    requires Inv(c, s, h, {}) && Calm(c, s) && InSomePool(c, t)
    ensures !SomePrevFailed(LayoutOf(c), s.m.info, t)
  {
    hide OrdersOk, PoolsOk, GraphOk, TaskOk, ProcOk;
    var prev := PrevTasks(c, t);
    forall i | 0 <= i < |prev| ensures InfoOf(s.m.info, prev[i]).state != Error {
      assert prev[i] in prev;
    }
  }

  // ------------------------------------------------------------ the manager puts no task in error by itself

  ghost predicate NoNewError(m: Manager, m': Manager) {
    forall t: TaskName :: InfoOf(m'.info, t).state == Error ==> InfoOf(m.info, t).state == Error
  }

  lemma HandOverNoError(l: Layout, m: Manager, i: PoolId, next: Option<TaskName>)
    ensures NoNewError(m, HandOver(l, m, i, next))
  {
    hide AllPrevFinished, SomePrevFailed, PutGo;
  }

  lemma {:induction false} HandOverAllNoError(l: Layout, m: Manager, pairs: seq<(PoolId, Option<TaskName>)>)
    ensures NoNewError(m, HandOverAll(l, m, pairs))
    decreases pairs
  {
    hide HandOver;
    if pairs != [] {
      HandOverNoError(l, m, pairs[0].0, pairs[0].1);
      HandOverAllNoError(l, HandOver(l, m, pairs[0].0, pairs[0].1), pairs[1..]);
    }
  }

  lemma HandleNoError(l: Layout, m: Manager, msg: Msg, pairs: seq<(PoolId, Option<TaskName>)>)
    requires !msg.body.ErrorMsg?
    ensures NoNewError(m, Handle(l, m, msg, pairs))
  {
    hide FillGatherData, HandOverAll, PutAll, Put;
    match msg.body {
      case FinishedMsg(pool, next, afterError) =>
        var d := Fin(pool, next);
        ProtocolTheorems.TakeOnwards(m, msg.task, msg.index, d, afterError);
        var taken := FillGatherData(m, msg.task, msg.index, d, afterError);
        if taken.FullRow? {
          HandOverAllNoError(l, MarkFinished(SendToTask(taken.m, msg.task, FinishedReply), msg.task), pairs);
        }
      case Gather(dst, v) => ProtocolTheorems.TakeOnwards(m, msg.task, msg.index, Val(v), false);
      case AllGather(v) => ProtocolTheorems.TakeOnwards(m, msg.task, msg.index, Val(v), false);
    }
  }

  // ------------------------------------------------------------ steps

  lemma NoErrorOnItsWay(c: Config, s: State, h: History, p: ProcId)
    requires Inv(c, s, h, {}) && Calm(c, s) && p < |s.procs| && s.procs[p].out != []
    ensures !s.procs[p].out[0].body.ErrorMsg?
  {
    hide OrdersOk, PoolsOk, GraphOk, NoSourceOk, TaskOk, ProcOk, Active, ActiveOk, ManagerFrames.SeatFine, HistShape, DequeOk,
         QueuesOk;
    ProtocolTheorems.HeadTask(c, s, h, p);
    var t := s.procs[p].out[0].task;
    var x :| 0 <= x < |InfoOf(s.m.info, t).queues| && InfoOf(s.m.info, t).queues[x] == p;
    ManagerAccepts.NormalFacts(c, s, h, p, t, x);
    if s.procs[p].out[0].body.ErrorMsg? {
      ManagerErrorSteps.HeadError(c, t, InfoOf(s.m.info, t), HistOf(h, t), x, p, s.procs[p], s.m.channels[p]);
    }
  }

  lemma ReceiveStaysCalm(c: Config, s: State, h: History, p: ProcId)
    requires Inv(c, s, h, {}) && Calm(c, s) && Enabled(c, s, Recv(p))
    ensures CalmPhase(Receive(c.home[p], OrderOf(c, p), s.procs[p], s.m.channels[p][0]).phase)
  {
    hide OrdersOk, PoolsOk, GraphOk, NoSourceOk, TaskOk, ProcOk, SeatedOk, Active, HistShape, NormalOk, SomePrevFailed, DequeOk;
    var pr, ch := s.procs[p], s.m.channels[p];
    if !Lagging(pr, ch) {
      var t, x := ProcessSteps.FindSeat(c, s, h, p);
      CalmNoFailure(c, s, h, t);
      var seat := Seat(t, c.home[p], NextTask(OrderOf(c, p), pr.at), x);
      SeatIsNormal(c, seat, InfoOf(s.m.info, t), HistOf(h, t), pr, ch);
      ProcessSteps.ReceiveNormal(c, seat, HistOf(h, t), OrderOf(c, p), pr, ch);
    }
  }

  lemma SeatIsNormal(c: Config, seat: Seat, ti: TaskInfo, hi: Hist, pr: Process, ch: seq<Reply>)
    requires SeatedOk(c, seat, ti, hi, pr.phase, ch, pr) && ti.state != Error && !hi.failed
    ensures seat.x < |hi.normal| && NormalOk(c, seat, hi, pr.phase, ch, pr)
  {
    hide NormalOk, ErrorOk;
  }

  lemma StepStaysCalm(c: Config, s: State, h: History, a: Act)
    requires Inv(c, s, h, {}) && Calm(c, s) && Enabled(c, s, a) && !a.Fail?
    ensures Calm(c, Do(c, s, a))
  {
    hide Inv, Handle, Receive, PairsFit, InSomePool;
    match a {
      case Manage(p, pairs) =>
        NoErrorOnItsWay(c, s, h, p);
        HandleNoError(LayoutOf(c), s.m, s.procs[p].out[0], pairs);
      case Recv(p) => ReceiveStaysCalm(c, s, h, p);
      case Contribute(p, v) =>
      case Fail(p, e) =>
    }
  }

  lemma {:induction false} RunStaysCalm(c: Config, s: State, h: History, acts: seq<Act>, s': State)
    requires Inv(c, s, h, {}) && Calm(c, s) && Runs(c, s, acts, s') && NoFailure(acts)
    ensures Calm(c, s')
    decreases acts
  {
    hide Inv, Do, Enabled, Calm;
    if acts != [] {
      StepStaysCalm(c, s, h, acts[0]);
      var h1 := StepKeeps(c, s, h, acts[0]);
      RunStaysCalm(c, Do(c, s, acts[0]), h1, acts[1..], s');
    }
  }

  lemma InitialCalm(c: Config, s: State)
    requires WellFormed(c) && Initial(c, s)
    ensures Calm(c, s)
  {
    hide OrdersOk, GraphOk;
    forall t | InSomePool(c, t) ensures InfoOf(s.m.info, t).state != Error {
      assert InitialTask(c, s.m, t);
    }
    forall p | 0 <= p < |s.procs| ensures CalmPhase(s.procs[p].phase) {
      var i := c.home[p];
      assert p in c.pools[i].procs;
      var x :| 0 <= x < |c.pools[i].procs| && c.pools[i].procs[x] == p;
      assert AtFirstReceive(s, c.pools[i].procs);
    }
  }

  lemma CalmNotMisaligned(c: Config, s: State, h: History, t: TaskName)
    requires Inv(c, s, h, {}) && Calm(c, s)
    ensures !Misaligned(c, s, t)
  {
    hide Inv, Numbered, SomePrevFailed, Calm;
    if Misaligned(c, s, t) {
      CalmNoFailure(c, s, h, t);
    }
  }

  lemma CalmRun(c: Config, s0: State, acts: seq<Act>, s: State) returns (h: History)
    requires WellFormed(c) && Initial(c, s0) && Runs(c, s0, acts, s) && NoFailure(acts)
    ensures Inv(c, s, h, {}) && Calm(c, s) && Reachable(c, s)
  {
    hide Inv, Do, Enabled, WellFormed, Initial, Calm;
    InitialGood(c, s0);
    InitialCalm(c, s0);
    RunStaysCalm(c, s0, StartHistory(c, s0.m), acts, s);
    h := RunKeeps(c, s0, StartHistory(c, s0.m), acts, s);
  }

  /** Error-free runs never deadlock: as long as some pool owns a task, some process or the manager can go on. */
  lemma ErrorFreeNoDeadlock(c: Config, s0: State, acts: seq<Act>, s: State) returns (a: Act)
    requires WellFormed(c) && Initial(c, s0) && Runs(c, s0, acts, s) && NoFailure(acts)
    requires exists i :: 0 <= i < |s.m.owner| && s.m.owner[i].Some?
    ensures Enabled(c, s, a) && !a.Fail?
  {
    hide Inv, Do, Enabled, WellFormed, Initial, Calm, Misaligned, Reachable;
    var h := CalmRun(c, s0, acts, s);
    forall t: TaskName ensures !Misaligned(c, s, t) {
      CalmNotMisaligned(c, s, h, t);
    }
    StatusTellsProgress(c, s);
    a := NoDeadlock(c, s);
  }

  /** And when such a run can go no further, the manager has stopped and every task has finished without an error. */
  lemma ErrorFreeCompletes(c: Config, s0: State, acts: seq<Act>, s: State)
    requires WellFormed(c) && Initial(c, s0) && Runs(c, s0, acts, s) && NoFailure(acts) && Quiescent(c, s)
    ensures Complete(c, s)
    ensures forall t :: InSomePool(c, t) ==> InfoOf(s.m.info, t).state == Finished
  {
    hide Inv, Do, Enabled, WellFormed, Initial, Misaligned, Reachable, Quiescent, CalmPhase, InSomePool, IsThrough;
    var h := CalmRun(c, s0, acts, s);
    forall t: TaskName ensures !Misaligned(c, s, t) {
      CalmNotMisaligned(c, s, h, t);
    }
    EndsComplete(c, s);
  }
}
