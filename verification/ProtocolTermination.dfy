/** Every run of the task protocol is finite, so together with ProtocolOutcome: total correctness. */
module ProtocolTermination {
  import opened Basics
  import opened Collectives
  import opened TaskModel
  import opened TaskProtocol
  import opened ProtocolInvariant
  import ProcessSteps
  import ManagerFrames
  import opened ManagerAccepts
  import ManagerErrors
  import ManagerErrorSteps
  import ManagerHandOver
  import opened ManagerSteps
  import ProtocolRuns
  import ProtocolTheorems
  import opened ProtocolOutcome

  // ------------------------------------------------------------ what one turn of the manager sends

  lemma ToTaskGrowth(m: Manager, t: TaskName, r: Reply, n: nat)
    requires |InfoOf(m.info, t).queues| <= n
    ensures Total(SendToTask(m, t, r).channels) <= Total(m.channels) + n
  {
    hide Total;
    ManagerFrames.PutAllGrowth(m.channels, InfoOf(m.info, t).queues, r);
  }

  lemma TakenKeeps(m: Manager, t: TaskName, index: Option<nat>, d: Data, ignore: bool)
    ensures var taken := FillGatherData(m, t, index, d, ignore);
            !taken.Crash? ==> taken.m.channels == m.channels && InfoOf(taken.m.info, t).queues == InfoOf(m.info, t).queues
  {
    hide Fill;
  }

  lemma ErrorGrowth(l: Layout, m: Manager, msg: Msg, n: nat)
    requires |InfoOf(m.info, msg.task).queues| <= n && msg.body.ErrorMsg?
    ensures Total(Handle(l, m, msg, []).channels) <= Total(m.channels) + 2 * n
  {
    hide Total, FillGatherData, PutAll;
    var t, err := msg.task, msg.body.msg;
    ToTaskGrowth(m, t, ErrorReply, n);
    var told := if err.Some? then SendToTask(m, t, ErrorReply) else m;
    var ti := InfoOf(told.info, t);
    var marked := WithInfo(told, t, ti.(state := Error, deque := if ti.state == Error then ti.deque else []));
    TakenKeeps(marked, t, msg.index, Err(err), true);
    var taken := SetTaskError(told, t, msg.index, err);
    if taken.FullRow? {
      ToTaskGrowth(taken.m, t, ErrorGather(taken.row), n);
    }
  }

  lemma PlainGrowth(l: Layout, m: Manager, msg: Msg, pairs: seq<(PoolId, Option<TaskName>)>, n: nat)
    requires |InfoOf(m.info, msg.task).queues| <= n && !msg.body.ErrorMsg?
    requires msg.body.FinishedMsg? ==>
               !FillGatherData(m, msg.task, msg.index, Fin(msg.body.pool, msg.body.next), msg.body.afterError).FullRow?
    ensures Total(Handle(l, m, msg, pairs).channels) <= Total(m.channels) + n
  {
    hide Total, FillGatherData, PutAll, Put;
    var t := msg.task;
    match msg.body {
      case FinishedMsg(pool, next, afterError) => TakenKeeps(m, t, msg.index, Fin(pool, next), afterError);
      case Gather(dst, v) =>
        TakenKeeps(m, t, msg.index, Val(v), false);
        var taken := FillGatherData(m, t, msg.index, Val(v), false);
        if taken.FullRow? && dst < |InfoOf(m.info, t).queues| {
          ManagerFrames.PutGrowth(m.channels, InfoOf(m.info, t).queues[dst], Gathered(taken.row));
        }
      case AllGather(v) =>
        TakenKeeps(m, t, msg.index, Val(v), false);
        var taken := FillGatherData(m, t, msg.index, Val(v), false);
        if taken.FullRow? {
          ToTaskGrowth(taken.m, t, AllGathered(taken.row), n);
        }
    }
  }

  /** A complete finish barrier. */
  lemma BarrierGrowth(c: Config, s: State, h: History, p: ProcId, pairs: seq<(PoolId, Option<TaskName>)>, t: TaskName, x: nat)
    requires Inv(c, s, h, {}) && Enabled(c, s, Manage(p, pairs)) && Active(c, s.m.owner, {}, t)
    requires x < |InfoOf(s.m.info, t).queues| && InfoOf(s.m.info, t).queues[x] == p && s.procs[p].out[0].task == t
    requires var msg := s.procs[p].out[0];
             && msg.body.FinishedMsg?
             && FillGatherData(s.m, msg.task, msg.index, Fin(msg.body.pool, msg.body.next), msg.body.afterError).FullRow?
    ensures Total(Do(c, s, Manage(p, pairs)).m.channels) <= Total(s.m.channels) + MostReplies(c)
  {
    hide WellFormed, NoSourceOk, TaskOk, ProcOk, ManagerFrames.SeatFine, HistShape, DequeOk, Active, ManagerErrors.AfterStep,
         SeatedOk, Push, MinLen, Staircase, Do, PairsFit, ActiveOk, Aligned, Fill, MostReplies, Total, RowAt;
    NotLaggingIfBusy(c, s, h, p);
    NormalFacts(c, s, h, p, t, x);
    var ti, hi, pr, ch := InfoOf(s.m.info, t), HistOf(h, t), s.procs[p], s.m.channels[p];
    ShapeLengths(hi, |ti.queues|);
    var body := pr.out[0].body;
    if ti.state == Error {
      ManagerErrorSteps.HeadFinishAfterError(c, t, ti, hi, x, p, pr, ch);
      var hi' := ManagerErrorSteps.TakeAfterError(c, s.m, t, hi, x, Fin(body.pool, body.next));
      ManagerErrors.AfterStepSame(hi, hi', x, Fin(body.pool, body.next));
      var h' := FinishAfterErrorCompletes(c, s, h, p, pairs, t, x, hi');
    } else {
      if hi.failed {
        FailedOnlyErrors(c, t, ti, hi, x, p, pr, ch);
      }
      var seat := OwnSeat(c, t, ti, hi, x, p, pr, ch);
      var d := pr.sent[|hi.normal[x]|];
      FinishIsLast(c, seat, hi.normal[x], pr.sent[|hi.normal[x]|], pr.out[0]);
      TakeNormal(c, s.m, t, hi, x, d, body.afterError);
      PushMin(hi.normal, x, d);
      assert FinishRow(c, t, hi.normal, Push(hi.normal, x, d));
      var h' := FinishKeeps(c, s, h, p, pairs, t, x);
    }
  }

  lemma FinishIsLast(c: Config, seat: Seat, acc: seq<Data>, d: Data, msg: Msg)
    requires msg == MsgFor(c, seat, Some(seat.x), |acc|, d) && msg.body.FinishedMsg? && SentOk(c, seat, acc + [d])
    ensures |acc| == |Program(c, seat.t)| && d == Fin(msg.body.pool, msg.body.next) && msg.index == Some(seat.x)
  {
    assert (acc + [d])[|acc|] == d;
  }

  /** One turn of the manager's loop sends a bounded number of messages. */
  lemma ManageGrowth(c: Config, s: State, h: History, p: ProcId, pairs: seq<(PoolId, Option<TaskName>)>)
    requires Inv(c, s, h, {}) && Enabled(c, s, Manage(p, pairs))
    ensures Total(Do(c, s, Manage(p, pairs)).m.channels) <= Total(s.m.channels) + MostReplies(c)
  {
    hide Inv, Total, FillGatherData, Handle, Active, QueuesOk, ActiveOk;
    ProtocolTheorems.HeadTask(c, s, h, p);
    var msg := s.procs[p].out[0];
    var t, queues := msg.task, InfoOf(s.m.info, msg.task).queues;
    var x :| 0 <= x < |queues| && queues[x] == p;
    ProcessSteps.TaskQueues(c, s, h, t);
    ManagerHandOver.QueueBound(c, s.m.owner, {}, t, queues);
    if msg.body.ErrorMsg? {
      ErrorGrowth(LayoutOf(c), s.m, msg, |c.home|);
    } else if msg.body.FinishedMsg? &&
              FillGatherData(s.m, t, msg.index, Fin(msg.body.pool, msg.body.next), msg.body.afterError).FullRow? {
      BarrierGrowth(c, s, h, p, pairs, t, x);
    } else {
      PlainGrowth(LayoutOf(c), s.m, msg, pairs, |c.home|);
    }
  }

  // ------------------------------------------------------------ what a process may still send

  /** The messages a process can still send for the tasks from position k on. */
  function Later(c: Config, order: seq<TaskName>, k: nat): nat
    decreases |order| - k
  {
    if k >= |order| then 0 else |Program(c, order[k])| + 3 + Later(c, order, k + 1)
  }

  /** The messages it can still send for its present task. */
  function Here(c: Config, t: TaskName, ph: Phase): nat {
    var len := |Program(c, t)|;
    match ph
    case WaitGo => len + 3
    case Running(done) => (if done <= len then len - done else 0) + 3
    case WaitReply(done) => (if done <= len then len - done else 0) + 3
    case WaitFinish => 2
    case WaitErrorGather => 1
    case _ => 0
  }

  function Potential(c: Config, order: seq<TaskName>, pr: Process): nat {
    if pr.at < |order| then Here(c, order[pr.at], pr.phase) + Later(c, order, pr.at + 1) else 0
  }

  lemma NotNegative(a: nat, b: nat)
    ensures a * b >= 0
  {
  }

  /** A message not yet taken outweighs all replies it can lead to. */
  ghost function Weight(c: Config, order: seq<TaskName>, pr: Process): nat {
    hide MostReplies, Potential;
    NotNegative(MostReplies(c) + 2, Potential(c, order, pr));
    NotNegative(MostReplies(c) + 1, |pr.out|);
    (MostReplies(c) + 2) * Potential(c, order, pr) + (MostReplies(c) + 1) * |pr.out|
  }

  ghost function Weights(c: Config, s: State): (ws: seq<nat>)
    ensures |ws| == |s.procs| && forall p :: 0 <= p < |s.procs| ==> ws[p] == Weight(c, OrderOf(c, p), s.procs[p])
  {
    seq(|s.procs|, p requires 0 <= p < |s.procs| => Weight(c, OrderOf(c, p), s.procs[p]))
  }

  /** Every step makes this smaller. */
  ghost function Measure(c: Config, s: State): nat {
    Sum(Weights(c, s)) + Total(s.m.channels)
  }

  lemma ReceiveSpends(c: Config, i: PoolId, order: seq<TaskName>, pr: Process, r: Reply)
    requires pr.at < |order|
    ensures var pr' := Receive(i, order, pr, r);
            || (Potential(c, order, pr') <= Potential(c, order, pr) && pr'.out == pr.out)
            || (Potential(c, order, pr') < Potential(c, order, pr) && |pr'.out| == |pr.out| + 1)
  {
    hide Program;
  }

  lemma IssueSpends(c: Config, i: PoolId, order: seq<TaskName>, pr: Process, v: int, e: int)
    requires pr.at < |order| && pr.phase.Running?
    ensures Potential(c, order, Issue(c, i, order, pr, v)) < Potential(c, order, pr) && |Issue(c, i, order, pr, v).out| == |pr.out| + 1
    ensures Potential(c, order, SendError(order[pr.at], pr, Some(e))) < Potential(c, order, pr)
    ensures |SendError(order[pr.at], pr, Some(e)).out| == |pr.out| + 1
  {
  }

  lemma WeightFalls(c: Config, order: seq<TaskName>, pr: Process, pr': Process)
    ensures Potential(c, order, pr') <= Potential(c, order, pr) && pr'.out == pr.out ==>
              Weight(c, order, pr') <= Weight(c, order, pr)
    ensures Potential(c, order, pr') < Potential(c, order, pr) && |pr'.out| == |pr.out| + 1 ==>
              Weight(c, order, pr') < Weight(c, order, pr)
    ensures Potential(c, order, pr') == Potential(c, order, pr) && |pr'.out| + 1 == |pr.out| ==>
              Weight(c, order, pr') + MostReplies(c) + 1 == Weight(c, order, pr)
  {
    hide MostReplies, Potential;
    var a, b, b' := MostReplies(c) + 2, Potential(c, order, pr), Potential(c, order, pr');
    if b' <= b {
      Product(a, b', b);
    }
  }

  lemma {:induction false} Product(a: nat, b: nat, b': nat)
    requires b <= b'
    ensures a * b <= a * b'
    ensures b < b' ==> a * b + a <= a * b'
    decreases b'
  {
    if b < b' {
      Product(a, b, b' - 1);
      assert a * b' == a * (b' - 1) + a;
    }
  }

  lemma OneProcess(c: Config, s: State, s': State, p: ProcId, pr: Process)
    requires p < |s.procs| && s'.procs == s.procs[p := pr]
    ensures Sum(Weights(c, s')) + Weight(c, OrderOf(c, p), s.procs[p]) == Sum(Weights(c, s)) + Weight(c, OrderOf(c, p), pr)
  {
    hide Weight, Sum;
    assert Weights(c, s') == Weights(c, s)[p := Weight(c, OrderOf(c, p), pr)];
    SumUpdate(Weights(c, s), p, Weight(c, OrderOf(c, p), pr));
  }

  /** Every step of every interleaving makes progress. */
  lemma StepSpends(c: Config, s: State, h: History, a: Act)
    requires Inv(c, s, h, {}) && Enabled(c, s, a)
    ensures Measure(c, Do(c, s, a)) < Measure(c, s)
  {
    hide Inv, Sum, Total, Weight, MostReplies, Receive, Issue, SendError, Handle, PairsFit, Potential;
    var s' := Do(c, s, a);
    var order, pr, pr' := OrderOf(c, a.p), s.procs[a.p], s'.procs[a.p];
    OneProcess(c, s, s', a.p, pr');
    WeightFalls(c, order, pr, pr');
    match a {
      case Manage(p, pairs) =>
        ManageGrowth(c, s, h, p, pairs);
        TakingIsFree(c, order, pr);
      case Recv(p) =>
        ReceiveSpends(c, c.home[p], order, pr, s.m.channels[p][0]);
        TotalUpdate(s.m.channels, p, s.m.channels[p][1..]);
      case Contribute(p, v) => IssueSpends(c, c.home[p], order, pr, v, 0);
      case Fail(p, e) => IssueSpends(c, c.home[p], order, pr, 0, e);
    }
  }

  lemma TakingIsFree(c: Config, order: seq<TaskName>, pr: Process)
    requires pr.out != []
    ensures Potential(c, order, pr.(out := pr.out[1..])) == Potential(c, order, pr)
  {
  }

  lemma {:induction false} RunSpends(c: Config, s: State, h: History, acts: seq<Act>, s': State)
    requires Inv(c, s, h, {}) && Runs(c, s, acts, s')
    ensures |acts| + Measure(c, s') <= Measure(c, s)
    decreases acts
  {
    hide Inv, Do, Enabled, Measure;
    if acts != [] {
      StepSpends(c, s, h, acts[0]);
      var h1 := ProtocolRuns.StepKeeps(c, s, h, acts[0]);
      RunSpends(c, Do(c, s, acts[0]), h1, acts[1..], s');
    }
  }

  /** No run goes on for ever: from a reachable state at most Measure(s) steps are possible, whatever the interleaving. */
  lemma RunsAreFinite(c: Config, s: State, acts: seq<Act>, s': State)
    requires WellFormed(c) && Reachable(c, s) && Runs(c, s, acts, s')
    ensures |acts| <= Measure(c, s)
  {
    hide Inv, Do, Enabled, Measure, WellFormed, Reachable;
    var h := ProtocolRuns.ReachableGood(c, s);
    RunSpends(c, s, h, acts, s');
  }

  /** Whatever step is taken in a reachable state, there is less left to do. */
  lemma EveryStepSpends(c: Config, s: State, a: Act)
    requires WellFormed(c) && Reachable(c, s) && Enabled(c, s, a)
    ensures Measure(c, Do(c, s, a)) < Measure(c, s)
  {
    hide Inv, Do, Enabled, Measure, WellFormed, Reachable;
    var h := ProtocolRuns.ReachableGood(c, s);
    StepSpends(c, s, h, a);
  }

  lemma NoNeedToFail(c: Config, s: State, a: Act) returns (b: Act)
    requires Enabled(c, s, a)
    ensures Enabled(c, s, b) && !b.Fail?
  {
    b := if a.Fail? then Contribute(a.p, 0) else a;
  }

  /** Every run extends to one that can go no further, without any more exceptions. */
  lemma {:induction false} RunsToTheEnd(c: Config, s: State) returns (acts: seq<Act>, s': State)
    requires WellFormed(c) && Reachable(c, s)
    ensures Runs(c, s, acts, s') && Quiescent(c, s') && NoFailure(acts)
    decreases Measure(c, s)
  {
    hide Inv, Do, Enabled, Measure, WellFormed, Reachable;
    if any :| Enabled(c, s, any) {
      var a := NoNeedToFail(c, s, any);
      var h := ProtocolRuns.ReachableGood(c, s);
      StepSpends(c, s, h, a);
      assert [a][1..] == [];
      StillReachable(c, s, [a], Do(c, s, a));
      var rest;
      rest, s' := RunsToTheEnd(c, Do(c, s, a));
      acts := [a] + rest;
      RunsJoin(c, s, [a], Do(c, s, a), rest, s');
    } else {
      acts, s' := [], s;
    }
  }
}
