/** The error barrier: how the processes of a failed task come together again. */
module ProtocolErrors {
  import opened Basics
  import opened Collectives
  import opened TaskModel
  import opened TaskProtocol
  import opened ProtocolInvariant
  import ProcessSteps
  import opened ManagerFrames
  import ManagerAccepts
  import ManagerErrors
  import opened ManagerErrorSteps
  import opened ManagerSteps
  import opened ProtocolRuns
  import ProtocolTheorems

  // ------------------------------------------------------------ stages

  /** How far a process has come on its way out of a failed task: it has not met the error; its "error" is on the way,
      or taken; its after-error "finished" is on the way, or taken. */
  datatype Stage = Unaware | Reporting | Reported | Leaving | Left

  function StageOf(ph: Phase, out: seq<Msg>): Stage {
    match ph
    case WaitErrorGather => if out != [] then Reporting else Reported
    case WaitFinishAfterError => if out != [] then Leaving else Left
    case _ => Unaware
  }

  function StageNumber(st: Stage): nat {
    match st
    case Unaware => 0
    case Reporting => 1
    case Reported => 2
    case Leaving => 3
    case Left => 4
  }

  /** The stage of number y of the active task t. */
  ghost function StageIn(c: Config, s: State, q: ProcId): Stage
    requires q < |s.procs| == |s.m.channels|
  {
    StageOf(PhaseOf(OrderOf(c, q), s.procs[q], s.m.channels[q]), s.procs[q].out)
  }

  /** The cells of column y, one per stored row. */
  ghost predicate ColumnIs(deque: seq<Row<Data>>, y: nat, cell: Cell<Data>) {
    forall k :: 0 <= k < |deque| ==> y < |deque[k]| && deque[k][y] == cell
  }

  /** Some reply is an "error" that the process will come to, and none is an "error_gather" yet. */
  ghost predicate WillMeetError(ch: seq<Reply>) {
    && (exists k :: 0 <= k < |ch| && ch[k].ErrorReply?)
    && (forall k :: 0 <= k < |ch| ==> !ch[k].ErrorGather?)
  }

  ghost predicate IsError(msg: Msg, t: TaskName) {
    msg.task == t && msg.body.ErrorMsg?
  }

  /** What a process of stage `st` has in its outbox, in its queue and in the rows of the deque. */
  ghost predicate StageOk(seat: Seat, st: Stage, out: seq<Msg>, ch: seq<Reply>, deque: seq<Row<Data>>) {
    match st
    case Unaware => Stale(seat, out) && WillMeetError(ch) && ColumnIs(deque, seat.x, Unfilled)
    case Reporting =>
      && out != [] && Stale(seat, out[..|out| - 1]) && IsError(out[|out| - 1], seat.t)
      && AllErrors(ch) && ColumnIs(deque, seat.x, Unfilled)
    case Reported =>
      && out == []
      && if AllErrors(ch) then exists e :: ColumnIs(deque, seat.x, Filled(Err(e)))
         else ch[|ch| - 1].ErrorGather? && AllErrors(ch[..|ch| - 1]) && ColumnIs(deque, seat.x, Unfilled)
    case Leaving =>
      && (exists index :: out == [Msg(seat.t, index, FinishedMsg(seat.pool, seat.next, true))])
      && ch == [] && ColumnIs(deque, seat.x, Unfilled)
    case Left => out == [] && ch == [] && ColumnIs(deque, seat.x, Filled(Fin(seat.pool, seat.next)))
  }

  // ------------------------------------------------------------ columns of the deque

  lemma ColumnOfStaircase(acc: Streams<Data>, y: nat, d: Data)
    requires y < |acc| && MaxLen(acc) <= MinLen(acc) + 1
    ensures |Staircase(acc)| <= 1
    ensures |acc[y]| == MinLen(acc) ==> ColumnIs(Staircase(acc), y, Unfilled)
    ensures |acc[y]| == MinLen(acc) + 1 && acc[y][MinLen(acc)] == d ==> ColumnIs(Staircase(acc), y, Filled(d))
  {
    hide MinLen, MaxLen;
    MinLeqMax(acc);
    assert forall k :: 0 <= k < |Staircase(acc)| ==> Staircase(acc)[k] == PartialRow(acc, MinLen(acc) + k);
  }

  /** Every column of a task in error has as many entries as its process has gone through halves of the barrier. */
  lemma EntriesBySeat(c: Config, seat: Seat, hi: Hist, ph: Phase, ch: seq<Reply>, pr: Process)
    requires seat.x < |hi.normal| == |hi.cols| == |hi.after| && !hi.failed
    requires Aligned(hi.cols) && ColOf(hi.cols, seat.x) == seat.x
    requires ErrorOk(c, seat, hi, ph, ch, pr) && MinLen(hi.after) <= 1
    ensures |hi.after[seat.x]| == (match StageOf(ph, pr.out)
                                   case Unaware => 0 case Reporting => 0
                                   case Reported => 1 case Leaving => 1
                                   case Left => 2)
    ensures hi.after[seat.x] != [] ==> hi.after[seat.x][0].Err?
    ensures StageOf(ph, pr.out).Left? ==> hi.after[seat.x][1] == Fin(seat.pool, seat.next)
    ensures StageNumber(StageOf(ph, pr.out)) >= 3 ==> MinLen(hi.after) == 1
    ensures |hi.after[seat.x]| <= MinLen(hi.after) + 1
    ensures MinLen(hi.after) == 0 || StageNumber(StageOf(ph, pr.out)) >= 2
  {
    hide MinLen, InRun, BaseOf, ErrorsAfter, Stale, EndsWithError, AllErrors, Aligned;
    assert MinLen(hi.after) <= |hi.after[seat.x]|;
  }

  lemma ShallowStreams(acc: Streams<Data>)
    requires |acc| > 0 && forall y :: 0 <= y < |acc| ==> |acc[y]| <= MinLen(acc) + 1
    ensures MaxLen(acc) <= MinLen(acc) + 1
  {
    hide MinLen, MaxLen;
    var y := MaxLenWitness(acc);
  }

  lemma MeetsError(base: seq<Reply>, ch: seq<Reply>)
    requires ErrorsAfter(base, ch) && forall k :: 0 <= k < |base| ==> !base[k].ErrorGather?
    ensures WillMeetError(ch)
  {
    assert ch[|base|] == ch[|base|..][0];
    forall k | 0 <= k < |ch| ensures !ch[k].ErrorGather? {
      if k < |base| {
        assert ch[k] == ch[..|base|][k];
      } else {
        assert ch[k] == ch[|base|..][k - |base|];
      }
    }
  }

  lemma UnawareMeetsError(c: Config, seat: Seat, hi: Hist, ph: Phase, ch: seq<Reply>, pr: Process)
    requires seat.x < |hi.normal| == |hi.cols| == |hi.after| && !hi.failed
    requires ErrorOk(c, seat, hi, ph, ch, pr) && StageOf(ph, pr.out).Unaware?
    ensures Stale(seat, pr.out) && WillMeetError(ch)
  {
    hide MinLen, InRun, NothingYet, Stale, RowAt;
    var base := if ph.WaitGo? then [Go(seat.x)] else BaseOf(c, seat.t, ph, hi.normal);
    assert ErrorsAfter(base, ch);
    assert Stale(seat, []) by {
      StaleNothing(seat);
    }
    MeetsError(base, ch);
  }

  lemma StaleNothing(seat: Seat)
    ensures Stale(seat, [])
  {
  }

  lemma StageBySeat(c: Config, seat: Seat, hi: Hist, ph: Phase, ch: seq<Reply>, pr: Process)
    requires seat.x < |hi.normal| == |hi.cols| == |hi.after| && !hi.failed
    requires Aligned(hi.cols) && ColOf(hi.cols, seat.x) == seat.x
    requires ErrorOk(c, seat, hi, ph, ch, pr) && MinLen(hi.after) <= 1 && MaxLen(hi.after) <= MinLen(hi.after) + 1
    ensures StageOk(seat, StageOf(ph, pr.out), pr.out, ch, Staircase(hi.after))
  {
    hide MinLen, MaxLen, InRun, BaseOf, Aligned, ErrorsAfter, Stale, Staircase, ColumnIs, NothingYet;
    EntriesBySeat(c, seat, hi, ph, ch, pr);
    var x := seat.x;
    match StageOf(ph, pr.out) {
      case Unaware =>
        ColumnOfStaircase(hi.after, x, Err(None));
        UnawareMeetsError(c, seat, hi, ph, ch, pr);
      case Reporting => ColumnOfStaircase(hi.after, x, Err(None));
      case Reported =>
        ColumnOfStaircase(hi.after, x, hi.after[x][0]);
        if MinLen(hi.after) == 0 {
          assert ColumnIs(Staircase(hi.after), x, Filled(Err(hi.after[x][0].msg)));
        }
      case Leaving => ColumnOfStaircase(hi.after, x, Err(None));
      case Left => ColumnOfStaircase(hi.after, x, hi.after[x][1]);
    }
  }

  // ------------------------------------------------------------ the barrier

  ghost predicate InErrorBarrier(c: Config, s: State, t: TaskName) {
    && Active(c, s.m.owner, {}, t) && InfoOf(s.m.info, t).state == Error
    && !SomePrevFailed(LayoutOf(c), s.m.info, t)
    && |s.procs| == |s.m.channels| == |c.home|
    && forall y :: 0 <= y < |InfoOf(s.m.info, t).queues| ==> InfoOf(s.m.info, t).queues[y] < |s.procs|
  }

  lemma BarrierSeat(c: Config, t: TaskName, ti: TaskInfo, hi: Hist, y: nat, q: ProcId, pr: Process, ch: seq<Reply>)
    requires q < |c.home| && HistShape(hi, |ti.queues|) && DequeOk(c, t, ti, hi) && y < |ti.queues|
    requires SeatFine(c, t, ti, hi, y, q, pr, ch) && ti.state == Error && !hi.failed
    ensures Aligned(hi.cols) && ColOf(hi.cols, y) == y && MinLen(hi.after) <= 1
    ensures ErrorOk(c, SeatOf(c, t, y, q, pr, ch), hi, PhaseOf(OrderOf(c, q), pr, ch), RestOf(pr, ch), pr)
  {
    hide MinLen, Staircase, ErrorOk;
    IdentityAligned(hi, |ti.queues|);
  }

  /** The error barrier, in every reachable state of a task started with "go" that has failed.  At most one row is stored.
      A process that has not met the error has nothing in it, and everything it has on the way will be dropped; a process
      contributes one "error", then one after-error "finished", each with its queue empty of "error" messages from
      the moment it has read its "error_gather". */
  lemma ErrorBarrier(c: Config, s: State, t: TaskName, y: nat)
    requires WellFormed(c) && Reachable(c, s) && InErrorBarrier(c, s, t) && y < |InfoOf(s.m.info, t).queues|
    ensures |InfoOf(s.m.info, t).deque| <= 1
    ensures var q := InfoOf(s.m.info, t).queues[y];
            var pr, ch := s.procs[q], s.m.channels[q];
            && q < |c.home|
            && StageOk(SeatOf(c, t, y, q, pr, ch), StageIn(c, s, q), pr.out, RestOf(pr, ch), InfoOf(s.m.info, t).deque)
  {
    hide OrdersOk, PoolsOk, GraphOk, NoSourceOk, TaskOk, ProcOk, SeatFine, Active, Reachable, HistShape, DequeOk, MinLen, MaxLen,
         ErrorOk, StageOf, StageOk, SomePrevFailed, Staircase, Aligned;
    var h := ReachableGood(c, s);
    SeatsOf(c, s, h, t);
    var ti, hi := InfoOf(s.m.info, t), HistOf(h, t);
    ManagerAccepts.ShapeLengths(hi, |ti.queues|);
    DequeInError(c, t, ti, hi);
    forall z | 0 <= z < |ti.queues| ensures |hi.after[z]| <= MinLen(hi.after) + 1 {
      var q := ti.queues[z];
      BarrierSeat(c, t, ti, hi, z, q, s.procs[q], s.m.channels[q]);
      EntriesBySeat(c, SeatOf(c, t, z, q, s.procs[q], s.m.channels[q]), hi,
                    PhaseOf(OrderOf(c, q), s.procs[q], s.m.channels[q]), RestOf(s.procs[q], s.m.channels[q]), s.procs[q]);
    }
    ShallowStreams(hi.after);
    ColumnOfStaircase(hi.after, y, Err(None));
    var q := ti.queues[y];
    BarrierSeat(c, t, ti, hi, y, q, s.procs[q], s.m.channels[q]);
    StageBySeat(c, SeatOf(c, t, y, q, s.procs[q], s.m.channels[q]), hi,
                PhaseOf(OrderOf(c, q), s.procs[q], s.m.channels[q]), RestOf(s.procs[q], s.m.channels[q]), s.procs[q]);
  }

  lemma DequeInError(c: Config, t: TaskName, ti: TaskInfo, hi: Hist)
    requires HistShape(hi, |ti.queues|) && DequeOk(c, t, ti, hi) && ti.state == Error
    ensures |hi.after| > 0 && ti.deque == Staircase(hi.after) && MinLen(hi.after) <= 1
  {
  }

  /** It is a barrier: once one process has read its "error_gather", the "error" of every process has been taken. */
  lemma ErrorBarrierWaits(c: Config, s: State, t: TaskName, y: nat, z: nat)
    requires WellFormed(c) && Reachable(c, s) && InErrorBarrier(c, s, t)
    requires y < |InfoOf(s.m.info, t).queues| && z < |InfoOf(s.m.info, t).queues|
    requires StageNumber(StageIn(c, s, InfoOf(s.m.info, t).queues[y])) >= StageNumber(Leaving)
    ensures StageNumber(StageIn(c, s, InfoOf(s.m.info, t).queues[z])) >= StageNumber(Reported)
  {
    hide OrdersOk, PoolsOk, GraphOk, NoSourceOk, TaskOk, ProcOk, SeatFine, Active, Reachable, HistShape, DequeOk, MinLen,
         ErrorOk, StageOf, SomePrevFailed, Staircase, Aligned;
    var h := ReachableGood(c, s);
    SeatsOf(c, s, h, t);
    var ti, hi := InfoOf(s.m.info, t), HistOf(h, t);
    ManagerAccepts.ShapeLengths(hi, |ti.queues|);
    forall v | v == y || v == z
      ensures var st := StageIn(c, s, ti.queues[v]);
              && (StageNumber(st) >= 3 ==> MinLen(hi.after) == 1)
              && (MinLen(hi.after) == 0 || StageNumber(st) >= 2)
    {
      var q := ti.queues[v];
      BarrierSeat(c, t, ti, hi, v, q, s.procs[q], s.m.channels[q]);
      EntriesBySeat(c, SeatOf(c, t, v, q, s.procs[q], s.m.channels[q]), hi,
                    PhaseOf(OrderOf(c, q), s.procs[q], s.m.channels[q]), RestOf(s.procs[q], s.m.channels[q]), s.procs[q]);
    }
  }

  /** Whatever a process still had on the way when it met the error changes nothing when the manager takes it. */
  lemma StaleIsDropped(c: Config, s: State, p: ProcId, pairs: seq<(PoolId, Option<TaskName>)>)
    requires WellFormed(c) && Reachable(c, s) && Enabled(c, s, Manage(p, pairs))
    requires InfoOf(s.m.info, s.procs[p].out[0].task).state == Error
    requires var body := s.procs[p].out[0].body; !body.ErrorMsg? && (body.FinishedMsg? ==> !body.afterError)
    ensures Do(c, s, Manage(p, pairs)).m == s.m
  {
    hide Inv, Do, PairsFit, Reachable, Active, ActiveOk, WellFormed;
    var h := ReachableGood(c, s);
    ProtocolTheorems.HeadTask(c, s, h, p);
    var t := s.procs[p].out[0].task;
    var x :| 0 <= x < |InfoOf(s.m.info, t).queues| && InfoOf(s.m.info, t).queues[x] == p;
    DropKeeps(c, s, h, p, pairs, t, x);
  }

  // ------------------------------------------------------------ no process is lost

  lemma SeatedNotDead(c: Config, seat: Seat, ti: TaskInfo, hi: Hist, ph: Phase, ch: seq<Reply>, pr: Process)
    requires SeatedOk(c, seat, ti, hi, ph, ch, pr)
    ensures !ph.Dead?
    ensures ph.WaitFinishAfterError? ==> ch == []
  {
    hide MinLen, NothingYet, Aligned, OneError, ErrorThenFinish, BaseOf, ErrorsAfter;
  }

  /** No process ever ends by an exception: the only reply that reaches it in the finish after an error is "finished". */
  lemma NobodyDies(c: Config, s: State, p: ProcId)
    requires WellFormed(c) && Reachable(c, s) && p < |s.procs|
    ensures p < |s.m.channels| && !s.procs[p].phase.Dead?
    ensures s.procs[p].phase.WaitFinishAfterError? && s.m.channels[p] != [] ==> s.m.channels[p][0].FinishedReply?
  {
    hide OrdersOk, PoolsOk, GraphOk, NoSourceOk, TaskOk, ProcOk, SeatedOk, Active, Reachable, ActiveOk, HistShape;
    var h := ReachableGood(c, s);
    var pr, ch := s.procs[p], s.m.channels[p];
    if !Lagging(pr, ch) && (pr.phase.Dead? || pr.phase.WaitFinishAfterError?) {
      var t, x := ProcessSteps.FindSeat(c, s, h, p);
      SeatedNotDead(c, Seat(t, c.home[p], NextTask(OrderOf(c, p), pr.at), x), InfoOf(s.m.info, t), HistOf(h, t),
                    pr.phase, ch, pr);
    }
  }

  // ------------------------------------------------------------ stages only go forward

  ghost predicate Extends(channels: seq<seq<Reply>>, channels': seq<seq<Reply>>) {
    |channels'| == |channels| && forall q :: 0 <= q < |channels| ==> channels[q] <= channels'[q]
  }

  lemma {:induction false} PutAllExtends(channels: seq<seq<Reply>>, qs: seq<ProcId>, r: Reply)
    ensures Extends(channels, PutAll(channels, qs, r))
  {
    if qs != [] {
      PutAllExtends(channels, qs[..|qs| - 1], r);
    }
  }

  lemma {:induction false} PutGoExtends(channels: seq<seq<Reply>>, qs: seq<ProcId>, failed: bool)
    ensures Extends(channels, PutGo(channels, qs, failed))
  {
    if qs != [] {
      PutGoExtends(channels, qs[..|qs| - 1], failed);
    }
  }

  lemma {:induction false} HandOverAllExtends(l: Layout, m: Manager, pairs: seq<(PoolId, Option<TaskName>)>)
    ensures Extends(m.channels, HandOverAll(l, m, pairs).channels)
    decreases pairs
  {
    hide AllPrevFinished, SomePrevFailed, PutGo;
    if pairs != [] {
      var m1 := HandOver(l, m, pairs[0].0, pairs[0].1);
      assert Extends(m.channels, m1.channels) by {
        HandOverExtends(l, m, pairs[0].0, pairs[0].1);
      }
      HandOverAllExtends(l, m1, pairs[1..]);
    }
  }

  lemma HandOverExtends(l: Layout, m: Manager, i: PoolId, next: Option<TaskName>)
    ensures Extends(m.channels, HandOver(l, m, i, next).channels)
  {
    hide AllPrevFinished, SomePrevFailed, PutGo;
    if next.Some? && i < |l.pools| {
      var queues := InfoOf(m.info, next.value).queues + l.pools[i];
      PutGoExtends(m.channels, queues, true);
      PutGoExtends(m.channels, queues, false);
    }
  }

  lemma ExtendsTrans(a: seq<seq<Reply>>, b: seq<seq<Reply>>, d: seq<seq<Reply>>)
    requires Extends(a, b) && Extends(b, d)
    ensures Extends(a, d)
  {
  }

  lemma SendExtends(m: Manager, t: TaskName, r: Reply)
    ensures Extends(m.channels, SendToTask(m, t, r).channels)
    ensures forall index :: Extends(m.channels, SendToProcess(m, t, index, r).channels)
  {
    hide PutAll;
    PutAllExtends(m.channels, InfoOf(m.info, t).queues, r);
  }

  /** The manager only ever appends to the queue of a process. */
  lemma HandleExtends(l: Layout, m: Manager, msg: Msg, pairs: seq<(PoolId, Option<TaskName>)>)
    ensures Extends(m.channels, Handle(l, m, msg, pairs).channels)
  {
    hide FillGatherData, HandOverAll, SendToTask, SendToProcess, Extends;
    SameExtends(m.channels);
    match msg.body {
      case FinishedMsg(pool, next, afterError) => FinishExtends(l, m, msg, pairs);
      case ErrorMsg(err) => ErrorExtends(l, m, msg);
      case Gather(dst, v) =>
        TakenChannels(m, msg.task, msg.index, Val(v), false);
        var taken := FillGatherData(m, msg.task, msg.index, Val(v), false);
        if taken.FullRow? {
          SendExtends(taken.m, msg.task, Gathered(taken.row));
        }
      case AllGather(v) =>
        TakenChannels(m, msg.task, msg.index, Val(v), false);
        var taken := FillGatherData(m, msg.task, msg.index, Val(v), false);
        if taken.FullRow? {
          SendExtends(taken.m, msg.task, AllGathered(taken.row));
        }
    }
  }

  lemma SameExtends(channels: seq<seq<Reply>>)
    ensures Extends(channels, channels)
  {
  }

  lemma TakenChannels(m: Manager, t: TaskName, index: Option<nat>, d: Data, ignore: bool)
    ensures var taken := FillGatherData(m, t, index, d, ignore); !taken.Crash? ==> taken.m.channels == m.channels
  {
    hide Fill;
  }

  lemma FinishExtends(l: Layout, m: Manager, msg: Msg, pairs: seq<(PoolId, Option<TaskName>)>)
    requires msg.body.FinishedMsg?
    ensures Extends(m.channels, Handle(l, m, msg, pairs).channels)
  {
    hide FillGatherData, HandOverAll, SendToTask, Extends;
    var d := Fin(msg.body.pool, msg.body.next);
    SameExtends(m.channels);
    TakenChannels(m, msg.task, msg.index, d, msg.body.afterError);
    var taken := FillGatherData(m, msg.task, msg.index, d, msg.body.afterError);
    if taken.FullRow? {
      var sent := SendToTask(taken.m, msg.task, FinishedReply);
      SendExtends(taken.m, msg.task, FinishedReply);
      HandOverAllExtends(l, MarkFinished(sent, msg.task), pairs);
      ExtendsTrans(m.channels, sent.channels, HandOverAll(l, MarkFinished(sent, msg.task), pairs).channels);
    }
  }

  lemma ErrorExtends(l: Layout, m: Manager, msg: Msg)
    requires msg.body.ErrorMsg?
    ensures Extends(m.channels, Handle(l, m, msg, []).channels)
  {
    hide FillGatherData, SendToTask, Extends;
    var t, err := msg.task, msg.body.msg;
    SameExtends(m.channels);
    SendExtends(m, t, ErrorReply);
    var told := if err.Some? then SendToTask(m, t, ErrorReply) else m;
    var ti := InfoOf(told.info, t);
    TakenChannels(WithInfo(told, t, ti.(state := Error, deque := if ti.state == Error then ti.deque else [])), t, msg.index, Err(err), true);
    var taken := SetTaskError(told, t, msg.index, err);
    if taken.FullRow? {
      SendExtends(taken.m, t, ErrorGather(taken.row));
      ExtendsTrans(m.channels, told.channels, SendToTask(taken.m, t, ErrorGather(taken.row)).channels);
    }
  }

  /** What the process is about to do can only become: released, if more arrives in its queue. */
  lemma ViewExtends(order: seq<TaskName>, pr: Process, ch: seq<Reply>, ch': seq<Reply>)
    requires ch <= ch'
    ensures AtOf(pr, ch') > AtOf(pr, ch) || (AtOf(pr, ch') == AtOf(pr, ch) && PhaseOf(order, pr, ch') == PhaseOf(order, pr, ch))
  {
    if ch != [] {
      assert ch'[0] == ch[0];
    }
  }

  ghost function TaskAt(s: State, q: ProcId): nat
    requires q < |s.procs| == |s.m.channels|
  {
    AtOf(s.procs[q], s.m.channels[q])
  }

  /** Action `a` is the manager taking an after-error "finished" of task t. */
  ghost predicate TakesFinish(s: State, a: Act, t: TaskName) {
    && a.Manage? && a.p < |s.procs| && s.procs[a.p].out != []
    && var msg := s.procs[a.p].out[0];
       msg.task == t && msg.body.FinishedMsg? && msg.body.afterError
  }

  /** Action `a` completes the error barrier of task t: its sender is on the way out, and everybody else is already there. */
  ghost predicate CompletesBarrier(c: Config, s: State, a: Act, t: TaskName) {
    var queues := InfoOf(s.m.info, t).queues;
    && TakesFinish(s, a, t) && a.p in queues && |s.procs| == |s.m.channels|
    && forall y :: 0 <= y < |queues| ==>
         && queues[y] < |s.procs|
         && StageIn(c, s, queues[y]) == if queues[y] == a.p then Leaving else Left
  }

  /** Two contributions after the error: the process is through. */
  lemma TwiceIsThrough(c: Config, seat: Seat, hi: Hist, ph: Phase, ch: seq<Reply>, pr: Process)
    requires seat.x < |hi.normal| == |hi.cols| == |hi.after| && ErrorOk(c, seat, hi, ph, ch, pr)
    requires Aligned(hi.cols) && ColOf(hi.cols, seat.x) < |hi.after| && |hi.after[ColOf(hi.cols, seat.x)]| >= 2
    ensures StageOf(ph, pr.out).Left?
  {
    hide MinLen, InRun, BaseOf, ErrorsAfter, Stale, EndsWithError, AllErrors, Aligned, RowAt;
  }

  /** A turn about another task leaves the pools of a task where they are. */
  lemma OthersStay(c: Config, m: Manager, m': Manager, t: TaskName, u: TaskName)
    requires Active(c, m.owner, {}, t) && t != u
    requires m'.owner == m.owner || StepHandsOver(c, m, m', u)
    ensures Active(c, m'.owner, {}, t)
  {
    forall i | 0 <= i < |c.pools| && InPool(c, i, t) ensures Owns(m'.owner, {}, i, t) {
      assert Owns(m.owner, {}, i, t);
      assert m'.owner != m.owner ==> Hands(c, m.owner, m'.owner, u, i);
    }
  }

  lemma SameOwner(c: Config, s: State, h: History, p: ProcId, t: TaskName)
    requires Inv(c, s, h, {}) && p < |s.procs| && s.procs[p].out != []
    requires Active(c, s.m.owner, {}, t) && p in InfoOf(s.m.info, t).queues
    ensures s.procs[p].out[0].task == t
  {
    hide WellFormed, OwnersOk, NoSourceOk, TaskOk, ProcOk, Active, ActiveOk;
    ProtocolTheorems.HeadTask(c, s, h, p);
    ProcessSteps.TaskQueues(c, s, h, t);
    assert Owns(s.m.owner, {}, c.home[p], t);
  }

  /** A failed task is released only by the last after-error "finished" of its processes. */
  lemma ReleaseStep(c: Config, s: State, h: History, a: Act, t: TaskName)
    requires Inv(c, s, h, {}) && Enabled(c, s, a) && Active(c, s.m.owner, {}, t) && InfoOf(s.m.info, t).state == Error
    requires !Active(c, Do(c, s, a).m.owner, {}, t)
    ensures CompletesBarrier(c, s, a, t)
  {
    hide Inv, PairsFit, Handle, Receive, Issue, SendError, Active, Aligned, OneError, MinLen, Push, StageOf, PhaseOf, AtOf, RestOf,
         StepHandsOver, SeatFine, ActiveOk, HistShape, DequeOk, ErrorOk, QueuesOk;
    StateShape(c, s, h);
    var h', u, x := ManageKeeps(c, s, h, a.p, a.pairs);
    if u != t {
      OthersStay(c, s.m, Do(c, s, a).m, t, u);
    }
    var ti, hi := InfoOf(s.m.info, t), HistOf(h, t);
    SeatsOf(c, s, h, t);
    ShapeOf(c, s, h, t);
    SameOwner(c, s, h, a.p, t);
    HeadOfBarrier(c, s, h, a.p);
    QueueFacts(c, s.m.owner, t, ti.queues);
    var body := s.procs[a.p].out[0].body;
    assert body.FinishedMsg? && body.afterError;
    var after := Push(hi.after, ColOf(hi.cols, x), Fin(body.pool, body.next));
    assert MinLen(after) == 2;
    forall y | 0 <= y < |ti.queues|
      ensures ti.queues[y] < |s.procs| && StageIn(c, s, ti.queues[y]) == if ti.queues[y] == a.p then Leaving else Left
    {
      var q := ti.queues[y];
      if y == x {
        LeavingStage(c, s, q);
      } else {
        OtherIsThrough(c, t, ti, hi, x, body, y, q, s.procs[q], s.m.channels[q]);
      }
    }
  }

  lemma ShapeOf(c: Config, s: State, h: History, t: TaskName)
    requires ActiveOk(c, s.m.info, h, t)
    ensures var hi := HistOf(h, t); |hi.cols| == |hi.normal| == |hi.after| == |InfoOf(s.m.info, t).queues| > 0
  {
  }

  lemma LeavingStage(c: Config, s: State, q: ProcId)
    requires q < |s.procs| == |s.m.channels| && |s.procs[q].out| == 1 && s.procs[q].phase.WaitFinishAfterError? && s.m.channels[q] == []
    ensures StageIn(c, s, q).Leaving?
  {
  }

  lemma OtherIsThrough(c: Config, t: TaskName, ti: TaskInfo, hi: Hist, x: nat, body: Body, y: nat, q: ProcId, pr: Process, ch: seq<Reply>)
    requires q < |c.home| && x < |hi.cols| == |hi.normal| == |hi.after| && y < |hi.cols| && y != x && body.FinishedMsg?
    requires SeatFine(c, t, ti, hi, y, q, pr, ch) && ti.state == Error && Aligned(hi.cols) && ColOf(hi.cols, x) < |hi.after|
    requires MinLen(Push(hi.after, ColOf(hi.cols, x), Fin(body.pool, body.next))) == 2
    ensures StageOf(PhaseOf(OrderOf(c, q), pr, ch), pr.out).Left?
  {
    hide Aligned, ErrorOk, StageOf, PhaseOf, AtOf, RestOf;
    ManagerErrors.ColsDistinct(hi.cols, x, y);
    ManagerErrors.ColsDistinct(hi.cols, y, y);
    assert Push(hi.after, ColOf(hi.cols, x), Fin(body.pool, body.next))[ColOf(hi.cols, y)] == hi.after[ColOf(hi.cols, y)];
    TwiceIsThrough(c, SeatOf(c, t, y, q, pr, ch), hi, PhaseOf(OrderOf(c, q), pr, ch), RestOf(pr, ch), pr);
  }

  /** The task a process is at, once it has read the "finished" of the one before. */
  ghost predicate AtTask(c: Config, s: State, q: ProcId, t: TaskName) {
    && q < |s.procs| == |s.m.channels|
    && TaskAt(s, q) < |OrderOf(c, q)| && OrderOf(c, q)[TaskAt(s, q)] == t
  }

  /** A process leaves a failed task only when its after-error "finished" has been taken, or is being taken. */
  ghost predicate MayLeave(c: Config, s: State, a: Act, q: ProcId)
    requires q < |s.procs| == |s.m.channels|
  {
    TaskAt(s, q) < |OrderOf(c, q)| && InfoOf(s.m.info, OrderOf(c, q)[TaskAt(s, q)]).state == Error ==>
      StageIn(c, s, q).Left? || (a.Manage? && a.p == q && StageIn(c, s, q).Leaving?)
  }

  /** The stage moves on, or the process is released from its task; a failed task releases it only at the end of the barrier. */
  ghost predicate StageMoves(c: Config, s: State, a: Act, s': State, q: ProcId)
    requires q < |s.procs| == |s.m.channels| && q < |s'.procs| == |s'.m.channels|
  {
    || (TaskAt(s', q) > TaskAt(s, q) && MayLeave(c, s, a, q))
    || (TaskAt(s', q) == TaskAt(s, q) && StageNumber(StageIn(c, s, q)) <= StageNumber(StageIn(c, s', q)))
  }

  ghost predicate StageGoes(c: Config, s: State, s': State, q: ProcId)
    requires q < |s.procs| == |s.m.channels| && q < |s'.procs| == |s'.m.channels|
  {
    || TaskAt(s', q) > TaskAt(s, q)
    || (TaskAt(s', q) == TaskAt(s, q) && StageNumber(StageIn(c, s, q)) <= StageNumber(StageIn(c, s', q)))
  }

  lemma OwnerAt(c: Config, s: State, h: History, q: ProcId)
    requires Inv(c, s, h, {}) && q < |s.procs|
    ensures q < |s.m.channels| && q < |c.home| && c.home[q] < |s.m.owner|
    ensures PlaceOk(OrderOf(c, q), s.m.owner[c.home[q]], false, TaskAt(s, q))
  {
    hide OrdersOk, GraphOk, NoSourceOk, TaskOk, IdleOk, SeatedOk, Active;
    assert ProcOk(c, s.m.info, s.m.owner, h, {}, q, s.procs[q], s.m.channels[q]);
  }

  /** The owner of a task in error: all its pools. */
  lemma ErrorIsActive(c: Config, s: State, h: History, q: ProcId, t: TaskName)
    requires Inv(c, s, h, {}) && q < |s.procs| && AtTask(c, s, q, t) && InfoOf(s.m.info, t).state == Error
    ensures Active(c, s.m.owner, {}, t) && q in InfoOf(s.m.info, t).queues
  {
    hide OrdersOk, PoolsOk, GraphOk, NoSourceOk, ProcOk, Active, PassedOk, ActiveOk;
    OwnerAt(c, s, h, q);
    var i := c.home[q];
    assert InPool(c, i, t) && InSomePool(c, t) && Owns(s.m.owner, {}, i, t) && !PassedBy(c, s.m.owner, {}, i, t);
    assert TaskOk(c, s.m.info, s.m.owner, h, {}, t);
  }

  /** A process that has gone on is no longer at its task. */
  lemma GoneIsReleased(c: Config, s': State, h': History, q: ProcId, t: TaskName, at: nat)
    requires Inv(c, s', h', {}) && q < |s'.procs| == |s'.m.channels| && at < |OrderOf(c, q)| && OrderOf(c, q)[at] == t && TaskAt(s', q) > at
    ensures !Active(c, s'.m.owner, {}, t)
  {
    hide PoolsOk, GraphOk, NoSourceOk, ProcOk, TaskOk;
    OwnerAt(c, s', h', q);
    var i := c.home[q];
    assert InPool(c, i, t);
    assert Active(c, s'.m.owner, {}, t) ==> Owns(s'.m.owner, {}, i, t);
  }

  lemma LeavesRightly(c: Config, s: State, h: History, a: Act, q: ProcId)
    requires Inv(c, s, h, {}) && Enabled(c, s, a) && q < |s.procs| == |s.m.channels|
    requires var s' := Do(c, s, a); q < |s'.procs| == |s'.m.channels| && TaskAt(s', q) > TaskAt(s, q)
    ensures MayLeave(c, s, a, q)
  {
    hide Inv, Do, Enabled, Active, CompletesBarrier, StageOf, PhaseOf, AtOf, TaskAt;
    if TaskAt(s, q) < |OrderOf(c, q)| {
      var t := OrderOf(c, q)[TaskAt(s, q)];
      if InfoOf(s.m.info, t).state == Error {
        ErrorIsActive(c, s, h, q, t);
        var h' := StepKeeps(c, s, h, a);
        GoneIsReleased(c, Do(c, s, a), h', q, t, TaskAt(s, q));
        ReleaseStep(c, s, h, a, t);
        ThroughOrSender(c, s, a, t, q);
      }
    }
  }

  lemma ThroughOrSender(c: Config, s: State, a: Act, t: TaskName, q: ProcId)
    requires CompletesBarrier(c, s, a, t) && q in InfoOf(s.m.info, t).queues
    ensures q < |s.procs| == |s.m.channels| && a.Manage?
    ensures StageIn(c, s, q).Left? || (a.p == q && StageIn(c, s, q).Leaving?)
  {
    hide StageOf, PhaseOf, AtOf;
  }

  /** All processes of a failed task are released together, and only by the step that takes the last of their after-error
      "finished": everybody else's has been taken by then. */
  lemma ReleasedTogether(c: Config, s: State, a: Act, t: TaskName, q: ProcId)
    requires WellFormed(c) && Reachable(c, s) && InErrorBarrier(c, s, t) && Enabled(c, s, a)
    requires q in InfoOf(s.m.info, t).queues && q < |s.procs|
    requires var s' := Do(c, s, a); q < |s'.procs| == |s'.m.channels| && TaskAt(s', q) > TaskAt(s, q)
    ensures CompletesBarrier(c, s, a, t)
    ensures forall z: ProcId :: z in InfoOf(s.m.info, t).queues ==>
              z < |s.procs| && z < |Do(c, s, a).procs| && TaskAt(Do(c, s, a), z) > TaskAt(s, z)
  {
    hide Inv, Do, Enabled, Active, CompletesBarrier, StageOf, PhaseOf, AtOf, WellFormed, Reachable, SomePrevFailed;
    var h := ReachableGood(c, s);
    var h' := StepKeeps(c, s, h, a);
    var s' := Do(c, s, a);
    AtItsTask(c, s, h, t, q);
    GoneIsReleased(c, s', h', q, t, TaskAt(s, q));
    ReleaseStep(c, s, h, a, t);
    ProtocolTheorems.StepOnwards(c, s, h, a);
    assert InfoOf(s'.m.info, t).state == Error;
    forall z: ProcId | z in InfoOf(s.m.info, t).queues
      ensures z < |s.procs| && z < |s'.procs| && TaskAt(s', z) > TaskAt(s, z)
    {
      AtItsTask(c, s, h, t, z);
      ProcsKept(c, s, a);
      GoesOn(c, s', h', t, z, TaskAt(s, z));
    }
  }

  lemma AtItsTask(c: Config, s: State, h: History, t: TaskName, z: ProcId)
    requires Inv(c, s, h, {}) && Active(c, s.m.owner, {}, t) && z in InfoOf(s.m.info, t).queues
    ensures AtTask(c, s, z, t)
  {
    hide OrdersOk, PoolsOk, GraphOk, NoSourceOk, ProcOk, TaskOk, ActiveOk, SeatedOk, Active;
    StateShape(c, s, h);
    SeatsOf(c, s, h, t);
    var y :| 0 <= y < |InfoOf(s.m.info, t).queues| && InfoOf(s.m.info, t).queues[y] == z;
  }

  /** A process whose pool is past a task has gone on. */
  lemma GoesOn(c: Config, s': State, h': History, t: TaskName, z: ProcId, at: nat)
    requires Inv(c, s', h', {}) && InfoOf(s'.m.info, t).state == Error && !Active(c, s'.m.owner, {}, t)
    requires z < |s'.procs| == |s'.m.channels| && at < |OrderOf(c, z)| && OrderOf(c, z)[at] == t
    ensures TaskAt(s', z) > at
  {
    hide PoolsOk, GraphOk, NoSourceOk, ProcOk, Active, PassedOk, ActiveOk, QueuesOk;
    OwnerAt(c, s', h', z);
    var i := c.home[z];
    assert InPool(c, i, t) && InSomePool(c, t);
    assert TaskOk(c, s'.m.info, s'.m.owner, h', {}, t);
    assert PassedBy(c, s'.m.owner, {}, i, t);
  }

  lemma ReceiveMoves(i: PoolId, order: seq<TaskName>, pr: Process, ch: seq<Reply>)
    requires ch != [] && pr.at < |order|
    requires pr.phase.WaitFinishAfterError? ==> ch[0].FinishedReply?
    ensures var pr', ch' := Receive(i, order, pr, ch[0]), ch[1..];
            || AtOf(pr', ch') > AtOf(pr, ch)
            || (AtOf(pr', ch') == AtOf(pr, ch)
                && StageNumber(StageOf(PhaseOf(order, pr, ch), pr.out)) <= StageNumber(StageOf(PhaseOf(order, pr', ch'), pr'.out)))
  {
  }

  lemma OwnStep(c: Config, s: State, a: Act)
    requires Enabled(c, s, a) && !a.Manage? && |s.procs| == |s.m.channels|
    requires a.Recv? && s.procs[a.p].phase.WaitFinishAfterError? ==> s.m.channels[a.p][0].FinishedReply?
    ensures StageGoes(c, s, Do(c, s, a), a.p)
  {
    hide Receive, PairsFit, Handle, Program;
    if a.Recv? {
      ReceiveMoves(c.home[a.p], OrderOf(c, a.p), s.procs[a.p], s.m.channels[a.p]);
    }
  }

  lemma TakenStep(order: seq<TaskName>, pr: Process, ch: seq<Reply>, ch': seq<Reply>)
    requires pr.out != [] && ch <= ch'
    ensures var pr' := pr.(out := pr.out[1..]);
            || AtOf(pr', ch') > AtOf(pr, ch)
            || (AtOf(pr', ch') == AtOf(pr, ch)
                && StageNumber(StageOf(PhaseOf(order, pr, ch), pr.out)) <= StageNumber(StageOf(PhaseOf(order, pr', ch'), pr'.out)))
    ensures var pr' := pr.(out := pr.out[1..]);
            |pr.out| == 1 && pr.phase.WaitErrorGather? ==>
              StageOf(PhaseOf(order, pr, ch), pr.out).Reporting? && StageOf(PhaseOf(order, pr', ch'), pr'.out).Reported?
    ensures var pr' := pr.(out := pr.out[1..]);
            |pr.out| == 1 && pr.phase.WaitFinishAfterError? && ch == [] ==>
              StageOf(PhaseOf(order, pr, ch), pr.out).Leaving? &&
              (AtOf(pr', ch') > AtOf(pr, ch) || StageOf(PhaseOf(order, pr', ch'), pr'.out).Left?)
  {
    ViewExtends(order, pr, ch, ch');
  }

  lemma HeadOfBarrier(c: Config, s: State, h: History, p: ProcId)
    requires Inv(c, s, h, {}) && p < |s.procs| && s.procs[p].out != []
    ensures s.procs[p].out[0].body.ErrorMsg? ==> |s.procs[p].out| == 1 && s.procs[p].phase.WaitErrorGather?
    ensures var body := s.procs[p].out[0].body;
            body.FinishedMsg? && body.afterError ==>
              |s.procs[p].out| == 1 && s.procs[p].phase.WaitFinishAfterError? && s.m.channels[p] == []
  {
    hide OrdersOk, PoolsOk, GraphOk, NoSourceOk, TaskOk, ProcOk, Active, ActiveOk, SeatFine, HistShape, DequeOk, QueuesOk;
    ProtocolTheorems.HeadTask(c, s, h, p);
    var t := s.procs[p].out[0].task;
    var x :| 0 <= x < |InfoOf(s.m.info, t).queues| && InfoOf(s.m.info, t).queues[x] == p;
    ManagerAccepts.NormalFacts(c, s, h, p, t, x);
    var ti, hi, pr, ch := InfoOf(s.m.info, t), HistOf(h, t), s.procs[p], s.m.channels[p];
    if pr.out[0].body.ErrorMsg? {
      HeadError(c, t, ti, hi, x, p, pr, ch);
    } else if pr.out[0].body.FinishedMsg? && pr.out[0].body.afterError {
      HeadFinishAfterError(c, t, ti, hi, x, p, pr, ch);
    }
  }

  /** Over every step: stages only move on, an "error" is taken exactly on the way from Reporting to Reported, an after-error
      "finished" exactly on the way from Leaving to Left, and a failed task releases a process only after both. */
  lemma StagesMoveOn(c: Config, s: State, a: Act, q: ProcId)
    requires WellFormed(c) && Reachable(c, s) && Enabled(c, s, a) && q < |s.procs|
    ensures var s' := Do(c, s, a);
            && |s.procs| == |s.m.channels| == |s'.procs| == |s'.m.channels|
            && StageMoves(c, s, a, s', q)
            && (a.Manage? && a.p == q && s.procs[q].out[0].body.ErrorMsg? ==>
                  StageIn(c, s, q).Reporting? && StageIn(c, s', q).Reported?)
            && (a.Manage? && a.p == q && s.procs[q].out[0].body.FinishedMsg? && s.procs[q].out[0].body.afterError ==>
                  StageIn(c, s, q).Leaving? && (TaskAt(s', q) > TaskAt(s, q) || StageIn(c, s', q).Left?))
  {
    hide Inv, PairsFit, Reachable, WellFormed, Handle, Receive, Issue, SendError, StageOf, PhaseOf, AtOf, MayLeave;
    var h := ReachableGood(c, s);
    StateShape(c, s, h);
    var s' := Do(c, s, a);
    ProcsKept(c, s, a);
    if a.Manage? {
      HandleExtends(LayoutOf(c), s.m, s.procs[a.p].out[0], a.pairs);
      if a.p == q {
        HeadOfBarrier(c, s, h, q);
        TakenStep(OrderOf(c, q), s.procs[q], s.m.channels[q], s'.m.channels[q]);
      } else {
        ViewExtends(OrderOf(c, q), s.procs[q], s.m.channels[q], s'.m.channels[q]);
      }
    } else if a.p == q {
      NobodyDies(c, s, q);
      OwnStep(c, s, a);
    }
    if TaskAt(s', q) > TaskAt(s, q) {
      LeavesRightly(c, s, h, a, q);
    }
  }

  lemma ProcsKept(c: Config, s: State, a: Act)
    requires Enabled(c, s, a) && |s.procs| == |s.m.channels|
    ensures |Do(c, s, a).procs| == |s.procs| == |Do(c, s, a).m.channels|
  {
    hide Handle, Receive, Issue, PairsFit;
    if a.Manage? {
      HandleExtends(LayoutOf(c), s.m, s.procs[a.p].out[0], a.pairs);
    }
  }

  lemma StateShape(c: Config, s: State, h: History)
    requires Inv(c, s, h, {})
    ensures |s.procs| == |s.m.channels| == |c.home|
  {
    hide WellFormed, OwnersOk, NoSourceOk, TaskOk, ProcOk;
  }
}
