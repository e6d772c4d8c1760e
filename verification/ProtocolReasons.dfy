/** A task ends in error for a reason: a predecessor did, or one of its own processes raised an exception in run(). */
module ProtocolReasons {
  import opened Basics
  import opened Collectives
  import opened TaskModel
  import opened TaskProtocol
  import opened ProtocolInvariant
  import ProcessSteps
  import ManagerSteps
  import ProtocolRuns
  import opened ProtocolTheorems
  import ProtocolOutcome
  import opened ProtocolErrors
  import ProtocolBarrier

  /** In the run some process raises an exception inside run() of task t. */
  ghost predicate Raises(c: Config, s: State, acts: seq<Act>, t: TaskName)
    decreases acts
  {
    acts != [] && Enabled(c, s, acts[0]) &&
    ((acts[0].Fail? && InsideRun(c, s, acts[0].p, t)) || Raises(c, Do(c, s, acts[0]), acts[1..], t))
  }

  /** Process p is at the receive of error_sync in task t. */
  ghost predicate Reports(c: Config, s: State, p: ProcId, t: TaskName) {
    && p < |s.procs| && s.procs[p].phase.WaitErrorGather?
    && s.procs[p].at < |OrderOf(c, p)| && OrderOf(c, p)[s.procs[p].at] == t
  }

  ghost predicate FailedAlready(c: Config, s: State, t: TaskName) {
    InfoOf(s.m.info, t).state == Error || SomePrevFailed(LayoutOf(c), s.m.info, t)
  }

  /** Every error has a reason; `raised` says whether a process has raised an exception in the task so far. */
  ghost predicate ReasonOk(c: Config, s: State, t: TaskName, raised: bool) {
    && (InfoOf(s.m.info, t).state == Error ==> raised || SomePrevFailed(LayoutOf(c), s.m.info, t))
    && forall p :: Reports(c, s, p, t) ==> raised || FailedAlready(c, s, t)
  }

  lemma StillFailedAlready(c: Config, s: State, s': State, t: TaskName)
    requires FailedAlready(c, s, t) && Onwards(s.m, s'.m)
    ensures FailedAlready(c, s', t)
  {
    hide SomePrevFailed;
    if SomePrevFailed(LayoutOf(c), s.m.info, t) {
      ProtocolOutcome.StillFailed(c, s.m, s'.m, t);
    }
  }

  /** A process starts to report an error of another only once the task has failed. */
  lemma ReportsOthers(c: Config, s: State, h: History, p: ProcId, t: TaskName)
    requires Inv(c, s, h, {}) && Enabled(c, s, Recv(p)) && Reports(c, Do(c, s, Recv(p)), p, t)
    ensures Reports(c, s, p, t) || FailedAlready(c, s, t)
  {
    hide OrdersOk, PoolsOk, GraphOk, NoSourceOk, TaskOk, ProcOk, SeatedOk, Active, HistShape, SomePrevFailed, DequeOk, QueuesOk;
    var pr, ch := s.procs[p], s.m.channels[p];
    if !Lagging(pr, ch) && !pr.phase.WaitErrorGather? {
      var u, x := ProcessSteps.FindSeat(c, s, h, p);
      StaysAt(c.home[p], OrderOf(c, p), pr, ch);
      if !FailedAlready(c, s, t) {
        ReceivedNormally(c, Seat(u, c.home[p], NextTask(OrderOf(c, p), pr.at), x), InfoOf(s.m.info, u), HistOf(h, u), OrderOf(c, p), pr, ch);
      }
    }
  }

  lemma StaysAt(i: PoolId, order: seq<TaskName>, pr: Process, ch: seq<Reply>)
    requires ch != [] && pr.at < |order| && Receive(i, order, pr, ch[0]).phase.WaitErrorGather?
    ensures Receive(i, order, pr, ch[0]).at == pr.at
  {
  }

  lemma ReceivedNormally(c: Config, seat: Seat, ti: TaskInfo, hi: Hist, order: seq<TaskName>, pr: Process, ch: seq<Reply>)
    requires pr.at < |order| && order[pr.at] == seat.t && ch != [] && Waiting(pr.phase)
    requires SeatedOk(c, seat, ti, hi, pr.phase, ch, pr) && ti.state != Error && !hi.failed
    ensures Receive(seat.pool, order, pr, ch[0]).phase.Running?
  {
    hide NormalOk;
    ProcessSteps.ReceiveNormal(c, seat, hi, order, pr, ch);
  }

  /** The message that first puts a task in error comes from a process that reports. */
  lemma ErrorIsReported(c: Config, s: State, h: History, p: ProcId)
    requires Inv(c, s, h, {}) && p < |s.procs| && s.procs[p].out != [] && s.procs[p].out[0].body.ErrorMsg?
    ensures Reports(c, s, p, s.procs[p].out[0].task)
  {
    hide Inv, Active, ActiveOk;
    StateShape(c, s, h);
    HeadOfBarrier(c, s, h, p);
    HeadTask(c, s, h, p);
    ManagerSteps.NotLaggingIfBusy(c, s, h, p);
    AtItsTask(c, s, h, s.procs[p].out[0].task, p);
  }

  lemma ReasonStep(c: Config, s: State, h: History, a: Act, t: TaskName, raised: bool)
    requires Inv(c, s, h, {}) && Enabled(c, s, a) && ReasonOk(c, s, t, raised)
    ensures ReasonOk(c, Do(c, s, a), t, raised || (a.Fail? && InsideRun(c, s, a.p, t)))
  {
    hide Inv, Handle, PairsFit, SomePrevFailed, Receive, Onwards;
    var s' := Do(c, s, a);
    var raised' := raised || (a.Fail? && InsideRun(c, s, a.p, t));
    StepOnwards(c, s, h, a);
    forall p | Reports(c, s', p, t) ensures raised' || FailedAlready(c, s', t) {
      if a.Recv? && a.p == p {
        ReportsOthers(c, s, h, p, t);
      } else if !(a.Fail? && a.p == p) {
        assert Reports(c, s, p, t);
      }
      if FailedAlready(c, s, t) {
        StillFailedAlready(c, s, s', t);
      }
    }
    if a.Manage? && InfoOf(s'.m.info, t).state == Error && !raised' {
      NewErrorHasReason(c, s, h, a, t);
      if SomePrevFailed(LayoutOf(c), s.m.info, t) {
        ProtocolOutcome.StillFailed(c, s.m, s'.m, t);
      }
    }
  }

  lemma NewErrorHasReason(c: Config, s: State, h: History, a: Act, t: TaskName)
    requires Inv(c, s, h, {}) && Enabled(c, s, a) && a.Manage? && ReasonOk(c, s, t, false)
    requires InfoOf(Do(c, s, a).m.info, t).state == Error
    ensures SomePrevFailed(LayoutOf(c), s.m.info, t)
  {
    hide Inv, Handle, PairsFit, SomePrevFailed, Reports;
    var msg := s.procs[a.p].out[0];
    if msg.body.ErrorMsg? && msg.task == t {
      ErrorIsReported(c, s, h, a.p);
    } else {
      ProtocolBarrier.ErrorOnlyByError(LayoutOf(c), s.m, msg, a.pairs, t);
    }
  }

  lemma {:induction false} ReasonRun(c: Config, s: State, h: History, acts: seq<Act>, s': State, t: TaskName, raised: bool)
    requires Inv(c, s, h, {}) && Runs(c, s, acts, s') && ReasonOk(c, s, t, raised)
    ensures ReasonOk(c, s', t, raised || Raises(c, s, acts, t))
    decreases acts
  {
    hide Inv, Do, Enabled, ReasonOk, InsideRun;
    if acts != [] {
      var h1 := ProtocolRuns.StepKeeps(c, s, h, acts[0]);
      ReasonStep(c, s, h, acts[0], t, raised);
      ReasonRun(c, Do(c, s, acts[0]), h1, acts[1..], s', t, raised || (acts[0].Fail? && InsideRun(c, s, acts[0].p, t)));
    }
  }

  lemma InitialReason(c: Config, s: State, t: TaskName)
    requires WellFormed(c) && Initial(c, s) && InSomePool(c, t)
    ensures ReasonOk(c, s, t, false)
  {
    hide OrdersOk, GraphOk, SomePrevFailed;
    assert InitialTask(c, s.m, t);
    forall p | 0 <= p < |s.procs| ensures s.procs[p].phase.WaitGo? {
      assert AtFirstReceive(s, c.pools[c.home[p]].procs);
      assert p in c.pools[c.home[p]].procs;
    }
  }

  /** A task in error has a reason. */
  lemma ErrorHasReason(c: Config, s0: State, acts: seq<Act>, s: State, t: TaskName)
    requires WellFormed(c) && Initial(c, s0) && Runs(c, s0, acts, s) && InSomePool(c, t)
    requires InfoOf(s.m.info, t).state == Error
    ensures SomePrevFailed(LayoutOf(c), s.m.info, t) || Raises(c, s0, acts, t)
  {
    hide Inv, Runs, Initial, WellFormed, Raises, SomePrevFailed;
    ProtocolRuns.InitialGood(c, s0);
    InitialReason(c, s0, t);
    ReasonRun(c, s0, ProtocolRuns.StartHistory(c, s0.m), acts, s, t, false);
  }

  // ------------------------------------------------------------ and a reason is enough

  /** A process of the task still reports, or the task is in error. */
  ghost predicate WillFail(c: Config, s: State, t: TaskName) {
    InfoOf(s.m.info, t).state == Error || exists p :: Reports(c, s, p, t)
  }

  /** error_sync ends only when the task is in error. */
  lemma ReportEnds(c: Config, s: State, h: History, p: ProcId, t: TaskName)
    requires Inv(c, s, h, {}) && Enabled(c, s, Recv(p)) && Reports(c, s, p, t) && !Reports(c, Do(c, s, Recv(p)), p, t)
    ensures InfoOf(s.m.info, t).state == Error
  {
    hide OrdersOk, PoolsOk, GraphOk, NoSourceOk, TaskOk, ProcOk, SeatedOk, Active, HistShape, SomePrevFailed, DequeOk, QueuesOk;
    var pr, ch := s.procs[p], s.m.channels[p];
    var u, x := ProcessSteps.FindSeat(c, s, h, p);
    ProcessSteps.TaskQueues(c, s, h, u);
    GatheredInError(c, Seat(u, c.home[p], NextTask(OrderOf(c, p), pr.at), x), InfoOf(s.m.info, u), HistOf(h, u), pr, ch);
  }

  lemma GatheredInError(c: Config, seat: Seat, ti: TaskInfo, hi: Hist, pr: Process, ch: seq<Reply>)
    requires SeatedOk(c, seat, ti, hi, WaitErrorGather, ch, pr) && ch != [] && !ch[0].ErrorReply?
    requires HistShape(hi, |ti.queues|) && DequeOk(c, seat.t, ti, hi)
    ensures ti.state == Error
  {
    hide MinLen, InRun, RowAt, NothingYet, OneError, Aligned;
    if ti.state != Error {
      EmptyIsShallow(hi.after);
    }
  }

  lemma EmptyIsShallow(acc: Streams<Data>)
    requires |acc| > 0 && AllEmpty(acc)
    ensures MinLen(acc) == 0
  {
    EmptyStreams(acc);
  }

  lemma WillFailStep(c: Config, s: State, h: History, a: Act, t: TaskName)
    requires Inv(c, s, h, {}) && Enabled(c, s, a)
    requires WillFail(c, s, t) || (a.Fail? && InsideRun(c, s, a.p, t))
    ensures WillFail(c, Do(c, s, a), t)
  {
    hide Inv, Handle, PairsFit, Receive;
    var s' := Do(c, s, a);
    StepOnwards(c, s, h, a);
    if a.Fail? && InsideRun(c, s, a.p, t) {
      assert Reports(c, s', a.p, t);
    } else if InfoOf(s.m.info, t).state != Error {
      var p :| Reports(c, s, p, t);
      if a.Recv? && a.p == p && !Reports(c, s', p, t) {
        ReportEnds(c, s, h, p, t);
      }
      assert Reports(c, s', p, t);
    }
  }

  lemma {:induction false} WillFailRun(c: Config, s: State, h: History, acts: seq<Act>, s': State, t: TaskName)
    requires Inv(c, s, h, {}) && Runs(c, s, acts, s')
    requires WillFail(c, s, t) || Raises(c, s, acts, t)
    ensures WillFail(c, s', t)
    decreases acts
  {
    hide Inv, Do, Enabled, WillFail, InsideRun;
    if acts != [] {
      var h1 := ProtocolRuns.StepKeeps(c, s, h, acts[0]);
      if WillFail(c, s, t) || (acts[0].Fail? && InsideRun(c, s, acts[0].p, t)) {
        WillFailStep(c, s, h, acts[0], t);
      }
      WillFailRun(c, Do(c, s, acts[0]), h1, acts[1..], s', t);
    }
  }

  /** How a complete run has ended: a task is in error exactly if a predecessor is, or one of its own processes raised an
      exception in run(); every other task of a pool has finished. */
  lemma EndsForAReason(c: Config, s0: State, acts: seq<Act>, s: State, t: TaskName)
    requires WellFormed(c) && Initial(c, s0) && Runs(c, s0, acts, s) && InSomePool(c, t) && ProtocolOutcome.Complete(c, s)
    ensures InfoOf(s.m.info, t).state == Error <==> SomePrevFailed(LayoutOf(c), s.m.info, t) || Raises(c, s0, acts, t)
    ensures InfoOf(s.m.info, t).state == Error || InfoOf(s.m.info, t).state == Finished
  {
    hide Inv, Runs, Initial, WellFormed, Raises, SomePrevFailed;
    if InfoOf(s.m.info, t).state == Error {
      ErrorHasReason(c, s0, acts, s, t);
    }
    if Raises(c, s0, acts, t) {
      ProtocolRuns.InitialGood(c, s0);
      WillFailRun(c, s0, ProtocolRuns.StartHistory(c, s0.m), acts, s, t);
      forall p: ProcId ensures !Reports(c, s, p, t) {
        assert p < |s.procs| ==> ProtocolOutcome.IsThrough(c, s, p);
      }
    }
    assert PassedOk(c, s.m.info, t);
  }

  // ------------------------------------------------------------ whose texts are told

  /** Every error text that is under way to the manager is the one of an exception told of. */
  ghost predicate TextsOf(s: State, told: set<(ProcId, int)>) {
    forall p: ProcId :: p < |s.procs| ==> OwnTexts(p, s.procs[p].out, told)
  }

  ghost predicate OwnTexts(p: ProcId, out: seq<Msg>, told: set<(ProcId, int)>) {
    forall k :: 0 <= k < |out| && out[k].body.ErrorMsg? && out[k].body.msg.Some? ==> (p, out[k].body.msg.value) in told
  }

  /** The exceptions raised in the run, each with its process. */
  ghost function Exceptions(acts: seq<Act>): set<(ProcId, int)> {
    if acts == [] then {} else (if acts[0].Fail? then {(acts[0].p, acts[0].e)} else {}) + Exceptions(acts[1..])
  }

  /** At the receive of finished_sync an error is the only reply but "finished". */
  lemma ErrorAtFinish(c: Config, seat: Seat, ti: TaskInfo, hi: Hist, order: seq<TaskName>, pr: Process, ch: seq<Reply>)
    requires HistShape(hi, |hi.cols|)
    requires pr.at < |order| && order[pr.at] == seat.t
    requires SeatedOk(c, seat, ti, hi, WaitFinish, ch, pr) && ch != [] && pr.phase.WaitFinish?
    ensures ch[0].ErrorReply?
  {
    hide NormalOk, InRun, ErrorsAfter, AllErrors, MinLen, Stale;
    if ti.state == Error || hi.failed {
      ProcessSteps.ErrorNext(ch);
    } else {
      ProcessSteps.ReceiveNormal(c, seat, hi, order, pr, ch);
      assert false;
    }
  }

  /** A process that is told of an error of another reports it without a text. */
  lemma ReceivedWithoutText(i: PoolId, order: seq<TaskName>, p: ProcId, pr: Process, r: Reply, told: set<(ProcId, int)>)
    requires pr.at < |order| && OwnTexts(p, pr.out, told)
    requires pr.phase.WaitFinish? ==> r.ErrorReply? || r.FinishedReply?
    ensures OwnTexts(p, Receive(i, order, pr, r).out, told)
  {
  }

  lemma RecvWithoutText(c: Config, s: State, h: History, p: ProcId, told: set<(ProcId, int)>)
    requires Inv(c, s, h, {}) && Enabled(c, s, Recv(p)) && TextsOf(s, told)
    ensures OwnTexts(p, Do(c, s, Recv(p)).procs[p].out, told)
  {
    hide OrdersOk, PoolsOk, GraphOk, NoSourceOk, TaskOk, ProcOk, SeatedOk, Active, HistShape, DequeOk, QueuesOk, OwnTexts, Receive;
    var pr, ch := s.procs[p], s.m.channels[p];
    if pr.phase.WaitFinish? && !ch[0].FinishedReply? {
      var u, x := ProcessSteps.FindSeat(c, s, h, p);
      ErrorAtFinish(c, Seat(u, c.home[p], NextTask(OrderOf(c, p), pr.at), x), InfoOf(s.m.info, u), HistOf(h, u), OrderOf(c, p), pr, ch);
    }
    ReceivedWithoutText(c.home[p], OrderOf(c, p), p, pr, ch[0], told);
  }

  lemma IssuedWithoutText(c: Config, i: PoolId, order: seq<TaskName>, p: ProcId, pr: Process, v: int, told: set<(ProcId, int)>)
    requires pr.at < |order| && pr.phase.Running? && OwnTexts(p, pr.out, told)
    ensures OwnTexts(p, Issue(c, i, order, pr, v).out, told)
  {
  }

  lemma MoreTold(p: ProcId, out: seq<Msg>, told: set<(ProcId, int)>, more: set<(ProcId, int)>)
    requires OwnTexts(p, out, told) && told <= more
    ensures OwnTexts(p, out, more) && (out != [] ==> OwnTexts(p, out[1..], more))
  {
  }

  lemma TextStep(c: Config, s: State, h: History, a: Act, told: set<(ProcId, int)>)
    requires Inv(c, s, h, {}) && Enabled(c, s, a) && TextsOf(s, told)
    ensures TextsOf(Do(c, s, a), told + if a.Fail? then {(a.p, a.e)} else {})
  {
    hide Inv, Handle, PairsFit, Receive, Issue, OwnTexts;
    var s' := Do(c, s, a);
    var more := told + if a.Fail? then {(a.p, a.e)} else {};
    forall p: ProcId | p < |s'.procs| ensures OwnTexts(p, s'.procs[p].out, more) {
      MoreTold(p, s.procs[p].out, told, more);
      if p == a.p {
        match a
        case Manage(_, _) =>
        case Recv(_) =>
          RecvWithoutText(c, s, h, p, told);
          MoreTold(p, s'.procs[p].out, told, more);
        case Contribute(_, v) =>
          IssuedWithoutText(c, c.home[p], OrderOf(c, p), p, s.procs[p], v, more);
        case Fail(_, e) =>
          TextTold(OrderOf(c, p)[s.procs[p].at], p, s.procs[p], e, more);
      }
    }
  }

  lemma TextTold(t: TaskName, p: ProcId, pr: Process, e: int, told: set<(ProcId, int)>)
    requires OwnTexts(p, pr.out, told) && (p, e) in told
    ensures OwnTexts(p, SendError(t, pr, Some(e)).out, told)
  {
  }

  lemma {:induction false} TextRun(c: Config, s: State, h: History, acts: seq<Act>, s': State, told: set<(ProcId, int)>)
    requires Inv(c, s, h, {}) && Runs(c, s, acts, s') && TextsOf(s, told)
    ensures TextsOf(s', told + Exceptions(acts))
    decreases acts
  {
    hide Inv, Do, Enabled, TextsOf;
    if acts == [] {
      assert told + {} == told;
    } else {
      var h1 := ProtocolRuns.StepKeeps(c, s, h, acts[0]);
      TextStep(c, s, h, acts[0], told);
      var now := if acts[0].Fail? then {(acts[0].p, acts[0].e)} else {};
      TextRun(c, Do(c, s, acts[0]), h1, acts[1..], s', told + now);
      assert told + now + Exceptions(acts[1..]) == told + Exceptions(acts);
    }
  }

  /** An error text, which the manager sends on to all processes of the task, comes only from the process that raised the exception:
      those that are told of it report it without a text, so it is not sent on again. */
  lemma ErrorTextsAreOwn(c: Config, s0: State, acts: seq<Act>, s: State)
    requires WellFormed(c) && Initial(c, s0) && Runs(c, s0, acts, s)
    ensures TextsOf(s, Exceptions(acts))
  {
    hide Inv, Runs, WellFormed, Exceptions;
    ProtocolRuns.InitialGood(c, s0);
    forall p: ProcId | p < |s0.procs| ensures s0.procs[p].out == [] {
      HomeHolds(c, p);
      assert AtFirstReceive(s0, c.pools[c.home[p]].procs);
    }
    TextRun(c, s0, ProtocolRuns.StartHistory(c, s0.m), acts, s, {});
    assert {} + Exceptions(acts) == Exceptions(acts);
  }

  lemma HomeHolds(c: Config, p: ProcId)
    requires WellFormed(c) && p < |c.home|
    ensures c.home[p] < |c.pools| && p in c.pools[c.home[p]].procs
  {
  }
}
