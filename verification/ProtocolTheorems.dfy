/** What holds in every reachable state of the task protocol, over every interleaving. */
module ProtocolTheorems {
  import opened Basics
  import opened Collectives
  import opened TaskModel
  import opened TaskProtocol
  import opened ProtocolInvariant
  import ProcessSteps
  import ManagerFrames
  import ManagerAccepts
  import ManagerErrorSteps
  import ManagerHandOver
  import ManagerSteps
  import ProtocolRuns

  // ------------------------------------------------------------ barrier safety

  /** Process p is inside run() of task t. */
  ghost predicate InsideRun(c: Config, s: State, p: ProcId, t: TaskName) {
    && p < |s.procs| && s.procs[p].at < |OrderOf(c, p)| && OrderOf(c, p)[s.procs[p].at] == t
    && (s.procs[p].phase.Running? || s.procs[p].phase.WaitReply?)
  }

  /** Process q has finished task u: it has gone on, or its "finished" is the next thing it reads. */
  ghost predicate HasFinished(c: Config, s: State, q: ProcId, u: TaskName) {
    && q < |s.procs| == |s.m.channels|
    && exists k :: 0 <= k < |OrderOf(c, q)| && OrderOf(c, q)[k] == u && k < AtOf(s.procs[q], s.m.channels[q])
  }

  ghost predicate Cleared(c: Config, s: State, u: TaskName) {
    if InSomePool(c, u)
    then InfoOf(s.m.info, u).state == Finished && forall q :: 0 <= q < |s.procs| && u in OrderOf(c, q) ==> HasFinished(c, s, q, u)
    else InfoOf(s.m.info, u).state == NoSourceData
  }

  lemma FinishedIfPassed(c: Config, s: State, h: History, u: TaskName, q: ProcId)
    requires Inv(c, s, h, {}) && Passed(c, s.m.owner, {}, u) && q < |s.procs| && u in OrderOf(c, q)
    ensures HasFinished(c, s, q, u)
  {
    hide PoolsOk, GraphOk, NoSourceOk, TaskOk, SeatedOk, Active;
    ManagerHandOver.Homes(c);
    var order := OrderOf(c, q);
    var k :| 0 <= k < |order| && order[k] == u;
    assert InPool(c, c.home[q], u);
    assert PassedBy(c, s.m.owner, {}, c.home[q], u);
    assert ProcOk(c, s.m.info, s.m.owner, h, {}, q, s.procs[q], s.m.channels[q]);
    var k' := AtOf(s.procs[q], s.m.channels[q]);
    assert PlaceOk(order, s.m.owner[c.home[q]], false, k');
  }

  /** Barrier safety: while a process is inside run() of a task, every task it needs has finished without an error
      in every one of its processes, or has no source data. */
  lemma BarrierSafety(c: Config, s: State, p: ProcId, t: TaskName)
    requires WellFormed(c) && Reachable(c, s) && InsideRun(c, s, p, t)
    ensures forall u :: u in PrevTasks(c, t) ==> Cleared(c, s, u)
  {
    hide OrdersOk, PoolsOk, GraphOk, NoSourceOk, TaskOk, ProcOk, SeatedOk, Active, Passed, Reachable, HasFinished, HistShape,
         DequeOk;
    var h := ProtocolRuns.ReachableGood(c, s);
    var t', x := ProcessSteps.FindSeat(c, s, h, p);
    assert t' == t;
    RunningNotFailed(c, s, h, p, t, x);
    forall u | u in PrevTasks(c, t) ensures Cleared(c, s, u) {
      NotFailedPrev(c, s.m.info, t, u);
      if InSomePool(c, u) {
        ManagerHandOver.PrevPassed(c, s.m.owner, {}, t, u);
        PassedState(c, s, h, u);
        forall q | 0 <= q < |s.procs| && u in OrderOf(c, q) ensures HasFinished(c, s, q, u) {
          FinishedIfPassed(c, s, h, u, q);
        }
      } else {
        NoSourceState(c, s.m.info, s.m.owner, t, u);
      }
    }
  }

  lemma RunningNotFailed(c: Config, s: State, h: History, p: ProcId, t: TaskName, x: nat)
    requires p < |s.procs| && p < |c.home| && p < |s.m.channels| && ActiveOk(c, s.m.info, h, t)
    requires s.procs[p].phase.Running? || s.procs[p].phase.WaitReply?
    requires s.procs[p].at < |OrderOf(c, p)|
    requires SeatedOk(c, Seat(t, c.home[p], NextTask(OrderOf(c, p), s.procs[p].at), x), InfoOf(s.m.info, t), HistOf(h, t),
                      s.procs[p].phase, s.m.channels[p], s.procs[p])
    ensures !SomePrevFailed(LayoutOf(c), s.m.info, t)
  {
    hide InRun, BaseOf, NothingYet, ErrorsAfter, StreamOk, HistShape, DequeOk, SomePrevFailed;
  }

  lemma NotFailedPrev(c: Config, info: Info, t: TaskName, u: TaskName)
    requires !SomePrevFailed(LayoutOf(c), info, t) && u in PrevTasks(c, t)
    ensures InfoOf(info, u).state != Error
  {
  }

  lemma PassedState(c: Config, s: State, h: History, u: TaskName)
    requires Inv(c, s, h, {}) && Passed(c, s.m.owner, {}, u)
    ensures PassedOk(c, s.m.info, u)
  {
    assert TaskOk(c, s.m.info, s.m.owner, h, {}, u);
  }

  lemma NoSourceState(c: Config, info: Info, owner: Owners, t: TaskName, u: TaskName)
    requires NoSourceOk(c, info) && Active(c, owner, {}, t) && u in PrevTasks(c, t) && !InSomePool(c, u)
    ensures InfoOf(info, u).state == NoSourceData
  {
  }

  /** A failure spreads: once its predecessor is in error, no process is inside run() of a task. */
  lemma NoRunAfterFailure(c: Config, s: State, p: ProcId, t: TaskName, u: TaskName)
    requires WellFormed(c) && Reachable(c, s)
    requires u in PrevTasks(c, t) && InfoOf(s.m.info, u).state == Error
    ensures !InsideRun(c, s, p, t)
  {
    hide Reachable, WellFormed, InsideRun;
    if InsideRun(c, s, p, t) {
      BarrierSafety(c, s, p, t);
    }
  }

  /** And a task that ends with a failed predecessor ends in error itself. */
  lemma FailureSpreads(c: Config, s: State, t: TaskName, u: TaskName)
    requires WellFormed(c) && Reachable(c, s) && InSomePool(c, t)
    requires u in PrevTasks(c, t) && InfoOf(s.m.info, u).state == Error
    ensures InfoOf(s.m.info, t).state != Finished
  {
    hide Reachable, OrdersOk, PoolsOk, GraphOk, NoSourceOk, ProcOk, Passed, Active, QueuesOk, HistShape, DequeOk;
    var h := ProtocolRuns.ReachableGood(c, s);
    assert TaskOk(c, s.m.info, s.m.owner, h, {}, t);
    var prev := PrevTasks(c, t);
    var i :| 0 <= i < |prev| && prev[i] == u;
    assert SomePrevFailed(LayoutOf(c), s.m.info, t);
  }

  // ------------------------------------------------------------ a task is started once

  function StateRank(st: TaskState): nat {
    match st
    case Unstart => 0
    case Started => 1
    case Finished => 2
    case Error => 2
    case NoSourceData => 2
  }

  /** The state of no task ever goes back, and how a task has ended never changes. */
  ghost predicate Onwards(m: Manager, m': Manager) {
    forall t: TaskName ::
      && StateRank(InfoOf(m.info, t).state) <= StateRank(InfoOf(m'.info, t).state)
      && (Settled(InfoOf(m.info, t).state) ==> InfoOf(m'.info, t).state == InfoOf(m.info, t).state)
  }

  lemma HandOverOnwards(l: Layout, m: Manager, i: PoolId, next: Option<TaskName>)
    ensures Onwards(m, HandOver(l, m, i, next))
  {
    hide AllPrevFinished, SomePrevFailed, PutGo;
  }

  lemma {:induction false} HandOverAllOnwards(l: Layout, m: Manager, pairs: seq<(PoolId, Option<TaskName>)>)
    ensures Onwards(m, HandOverAll(l, m, pairs))
    decreases pairs
  {
    hide HandOver;
    if pairs != [] {
      HandOverOnwards(l, m, pairs[0].0, pairs[0].1);
      HandOverAllOnwards(l, HandOver(l, m, pairs[0].0, pairs[0].1), pairs[1..]);
    }
  }

  lemma TakeOnwards(m: Manager, t: TaskName, index: Option<nat>, d: Data, ignore: bool)
    ensures var taken := FillGatherData(m, t, index, d, ignore);
            !taken.Crash? ==> forall u: TaskName :: InfoOf(taken.m.info, u).state == InfoOf(m.info, u).state
  {
    hide Fill;
  }

  lemma FinishOnwards(l: Layout, m: Manager, msg: Msg, pairs: seq<(PoolId, Option<TaskName>)>)
    requires InfoOf(m.info, msg.task).state != NoSourceData && InfoOf(m.info, msg.task).state != Finished
    requires msg.body.FinishedMsg?
    ensures Onwards(m, Handle(l, m, msg, pairs))
  {
    hide FillGatherData, HandOverAll, PutAll;
    var d := Fin(msg.body.pool, msg.body.next);
    TakeOnwards(m, msg.task, msg.index, d, msg.body.afterError);
    var taken := FillGatherData(m, msg.task, msg.index, d, msg.body.afterError);
    if taken.FullRow? {
      HandOverAllOnwards(l, MarkFinished(SendToTask(taken.m, msg.task, FinishedReply), msg.task), pairs);
    }
  }

  lemma ErrorOnwards(l: Layout, m: Manager, msg: Msg, pairs: seq<(PoolId, Option<TaskName>)>)
    requires InfoOf(m.info, msg.task).state != NoSourceData && InfoOf(m.info, msg.task).state != Finished
    requires msg.body.ErrorMsg?
    ensures Onwards(m, Handle(l, m, msg, pairs))
  {
    hide FillGatherData, PutAll;
    var err := msg.body.msg;
    var told := if err.Some? then SendToTask(m, msg.task, ErrorReply) else m;
    var ti := InfoOf(told.info, msg.task);
    var marked := WithInfo(told, msg.task, ti.(state := Error, deque := if ti.state == Error then ti.deque else []));
    TakeOnwards(marked, msg.task, msg.index, Err(err), true);
  }

  lemma HandleOnwards(l: Layout, m: Manager, msg: Msg, pairs: seq<(PoolId, Option<TaskName>)>)
    requires InfoOf(m.info, msg.task).state != NoSourceData && InfoOf(m.info, msg.task).state != Finished
    ensures Onwards(m, Handle(l, m, msg, pairs))
  {
    hide FillGatherData, HandOverAll, PutAll, Put, MarkFinished;
    match msg.body {
      case FinishedMsg(pool, next, afterError) => FinishOnwards(l, m, msg, pairs);
      case ErrorMsg(err) => ErrorOnwards(l, m, msg, pairs);
      case Gather(dst, v) => TakeOnwards(m, msg.task, msg.index, Val(v), false);
      case AllGather(v) => TakeOnwards(m, msg.task, msg.index, Val(v), false);
    }
  }

  /** The message the manager takes belongs to an active task. */
  lemma HeadTask(c: Config, s: State, h: History, p: ProcId)
    requires Inv(c, s, h, {}) && p < |s.procs| && s.procs[p].out != []
    ensures var t := s.procs[p].out[0].task;
            && Active(c, s.m.owner, {}, t) && ActiveOk(c, s.m.info, h, t)
            && c.home[p] < |s.m.owner| && s.m.owner[c.home[p]] == Some(t)
    ensures var t := s.procs[p].out[0].task;
            exists x :: 0 <= x < |InfoOf(s.m.info, t).queues| && InfoOf(s.m.info, t).queues[x] == p
  {
    hide OrdersOk, PoolsOk, GraphOk, NoSourceOk, TaskOk, ProcOk, Active, ActiveOk, SeatedOk, HistShape;
    ManagerSteps.NotLaggingIfBusy(c, s, h, p);
    var t, x := ProcessSteps.FindSeat(c, s, h, p);
    SeatHead(c, Seat(t, c.home[p], NextTask(OrderOf(c, p), s.procs[p].at), x), InfoOf(s.m.info, t), HistOf(h, t),
             s.procs[p].phase, s.m.channels[p], s.procs[p]);
  }

  lemma SeatHead(c: Config, seat: Seat, ti: TaskInfo, hi: Hist, ph: Phase, ch: seq<Reply>, pr: Process)
    requires SeatedOk(c, seat, ti, hi, ph, ch, pr) && pr.out != []
    ensures pr.out[0].task == seat.t
  {
    hide MinLen, InRun, BaseOf, ErrorsAfter, NothingYet, OneError, AllErrors;
    ManagerErrorSteps.HeadOfFront(pr.out);
  }

  lemma StepOnwards(c: Config, s: State, h: History, a: Act)
    requires Inv(c, s, h, {}) && Enabled(c, s, a)
    ensures Onwards(s.m, Do(c, s, a).m)
  {
    hide Inv, Handle, Onwards, PairsFit;
    if a.Manage? {
      HeadTask(c, s, h, a.p);
      ActiveState(c, s.m.info, h, s.procs[a.p].out[0].task);
      HandleOnwards(LayoutOf(c), s.m, s.procs[a.p].out[0], a.pairs);
    } else {
      SameInfoOnwards(s.m, Do(c, s, a).m);
    }
  }

  lemma SameInfoOnwards(m: Manager, m': Manager)
    requires m'.info == m.info
    ensures Onwards(m, m')
  {
  }

  lemma ActiveState(c: Config, info: Info, h: History, t: TaskName)
    requires ActiveOk(c, info, h, t)
    ensures InfoOf(info, t).state != NoSourceData && InfoOf(info, t).state != Finished
  {
  }

  /** After any run the state of a task has only moved on. */
  lemma {:induction false} StatesMoveOn(c: Config, s: State, acts: seq<Act>, s': State)
    requires WellFormed(c) && Reachable(c, s) && Runs(c, s, acts, s')
    ensures Onwards(s.m, s'.m)
  {
    hide Reachable;
    var h := ProtocolRuns.ReachableGood(c, s);
    RunOnwards(c, s, h, acts, s');
  }

  // ------------------------------------------------------------ starting once

  /** The step calls start_task for t. */
  ghost predicate Starts(c: Config, s: State, a: Act, t: TaskName)
    requires Enabled(c, s, a)
  {
    InfoOf(s.m.info, t).state == Unstart && InfoOf(Do(c, s, a).m.info, t).state == Started
  }

  ghost function StartCount(c: Config, s: State, acts: seq<Act>, t: TaskName): nat
    decreases acts
  {
    if acts == [] || !Enabled(c, s, acts[0]) then 0
    else (if Starts(c, s, acts[0], t) then 1 else 0) + StartCount(c, Do(c, s, acts[0]), acts[1..], t)
  }

  /** In any run a task is started at most once, and a data source never: its processes were told to go when they were created. */
  lemma StartedOnce(c: Config, s: State, acts: seq<Act>, s': State, t: TaskName)
    requires WellFormed(c) && Reachable(c, s) && Runs(c, s, acts, s') && InSomePool(c, t)
    ensures StartCount(c, s, acts, t) <= if IsSource(c, t) || InfoOf(s.m.info, t).state != Unstart then 0 else 1
    ensures IsSource(c, t) ==> InfoOf(s'.m.info, t).state != Started
  {
    hide Reachable, WellFormed, IsSource, InSomePool;
    var h := ProtocolRuns.ReachableGood(c, s);
    RunStartsOnce(c, s, h, acts, s', t);
  }

  lemma {:induction false} RunStartsOnce(c: Config, s: State, h: History, acts: seq<Act>, s': State, t: TaskName)
    requires Inv(c, s, h, {}) && Runs(c, s, acts, s') && InSomePool(c, t)
    ensures StartCount(c, s, acts, t) <= if IsSource(c, t) || InfoOf(s.m.info, t).state != Unstart then 0 else 1
    ensures IsSource(c, t) ==> InfoOf(s'.m.info, t).state != Started
    decreases acts
  {
    hide Inv, Do, Enabled, IsSource, InSomePool;
    SourceNotStarted(c, s, h, t);
    if acts != [] {
      var a, s1 := acts[0], Do(c, s, acts[0]);
      var h1 := ProtocolRuns.StepKeeps(c, s, h, a);
      StepOnwards(c, s, h, a);
      SourceNotStarted(c, s1, h1, t);
      RunStartsOnce(c, s1, h1, acts[1..], s', t);
    }
  }

  lemma SourceNotStarted(c: Config, s: State, h: History, t: TaskName)
    requires Inv(c, s, h, {}) && InSomePool(c, t)
    ensures IsSource(c, t) ==> InfoOf(s.m.info, t).state != Started
  {
    hide OrdersOk, PoolsOk, GraphOk, NoSourceOk, ProcOk, QueuesOk, Active, Passed, IsSource;
    assert TaskOk(c, s.m.info, s.m.owner, h, {}, t);
  }

  /** If a predecessor ever fails, no process is inside run() of the task at any time, neither after the failure nor before. */
  lemma NeverRunsIfFailed(c: Config, s: State, acts: seq<Act>, s': State, p: ProcId, t: TaskName, u: TaskName)
    requires WellFormed(c) && Reachable(c, s) && Runs(c, s, acts, s')
    requires u in PrevTasks(c, t) && InfoOf(s'.m.info, u).state == Error
    ensures !InsideRun(c, s, p, t)
  {
    hide Reachable, WellFormed, InsideRun, Runs;
    StatesMoveOn(c, s, acts, s');
    if InsideRun(c, s, p, t) {
      BarrierSafety(c, s, p, t);
    }
  }

  lemma {:induction false} RunOnwards(c: Config, s: State, h: History, acts: seq<Act>, s': State)
    requires Inv(c, s, h, {}) && Runs(c, s, acts, s')
    ensures Onwards(s.m, s'.m)
    decreases acts
  {
    hide Inv, Do, Enabled;
    if acts != [] {
      StepOnwards(c, s, h, acts[0]);
      var h1 := ProtocolRuns.StepKeeps(c, s, h, acts[0]);
      RunOnwards(c, Do(c, s, acts[0]), h1, acts[1..], s');
    }
  }

  // ------------------------------------------------------------ collectives

  /** Collectives transpose streams: whatever a process finds as the reply to its k-th collective is the vector of
      what every process of the task contributed as its k-th. */
  lemma RepliesTranspose(c: Config, s: State, p: ProcId, row: seq<Data>)
    requires WellFormed(c) && Reachable(c, s)
    requires p < |s.procs| == |s.m.channels| && s.procs[p].phase.WaitReply?
    requires s.m.channels[p] != [] && (s.m.channels[p][0] == AllGathered(row) || s.m.channels[p][0] == Gathered(row))
    ensures s.procs[p].at < |OrderOf(c, p)|
    ensures var t, k := OrderOf(c, p)[s.procs[p].at], s.procs[p].phase.done;
            var queues := InfoOf(s.m.info, t).queues;
            && p in queues && |row| == |queues| && k >= 1
            && forall y :: 0 <= y < |queues| ==>
                 queues[y] < |s.procs| && k <= |s.procs[queues[y]].sent| && row[y] == s.procs[queues[y]].sent[k - 1]
  {
    hide OrdersOk, PoolsOk, GraphOk, NoSourceOk, TaskOk, ProcOk, SeatedOk, Active, Reachable, HistShape, DequeOk,
         ManagerFrames.SeatFine, MinLen;
    var h := ProtocolRuns.ReachableGood(c, s);
    var t, x := ProcessSteps.FindSeat(c, s, h, p);
    ManagerAccepts.NormalFacts(c, s, h, p, t, x);
    var ti, hi, k := InfoOf(s.m.info, t), HistOf(h, t), s.procs[p].phase.done;
    ManagerAccepts.ShapeLengths(hi, |ti.queues|);
    ReplyIsRow(c, Seat(t, c.home[p], NextTask(OrderOf(c, p), s.procs[p].at), x), ti, hi, s.procs[p].phase, s.m.channels[p], s.procs[p], row);
    forall y | 0 <= y < |ti.queues|
      ensures && ti.queues[y] < |s.procs| && k <= |s.procs[ti.queues[y]].sent|
              && row[y] == s.procs[ti.queues[y]].sent[k - 1]
    {
      AcceptedIsSent(c, t, ti, hi, y, ti.queues[y], s.procs[ti.queues[y]], s.m.channels[ti.queues[y]]);
    }
  }

  lemma ReplyIsRow(c: Config, seat: Seat, ti: TaskInfo, hi: Hist, ph: Phase, ch: seq<Reply>, pr: Process, row: seq<Data>)
    requires SeatedOk(c, seat, ti, hi, ph, ch, pr) && ph.WaitReply? && ch != []
    requires ch[0] == AllGathered(row) || ch[0] == Gathered(row)
    ensures |hi.normal| > 0 && !hi.failed && 1 <= ph.done <= MinLen(hi.normal) && row == RowAt(hi.normal, ph.done - 1)
  {
    hide MinLen, NothingYet;
    var base := BaseOf(c, seat.t, ph, hi.normal);
    if ti.state == Error || hi.failed {
      assert ErrorsAfter(base, ch);
      assert base != [] ==> ch[..|base|][0] == ch[0];
    }
  }

  /** Whatever the manager has accepted from a process is a prefix of what it has sent. */
  lemma AcceptedIsSent(c: Config, t: TaskName, ti: TaskInfo, hi: Hist, y: nat, q: ProcId, pr: Process, ch: seq<Reply>)
    requires q < |c.home| && y < |hi.normal| && !hi.failed && ManagerFrames.SeatFine(c, t, ti, hi, y, q, pr, ch)
    ensures hi.normal[y] != [] ==> hi.normal[y] <= pr.sent
  {
    hide MinLen, InRun, BaseOf, NothingYet, ErrorsAfter;
  }
}
