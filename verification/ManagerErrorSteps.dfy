/** The manager's steps on a task in error keep the protocol invariant. */
module ManagerErrorSteps {
  import opened Basics
  import opened Collectives
  import opened TaskModel
  import opened TaskProtocol
  import opened ProtocolInvariant
  import ProcessSteps
  import opened ManagerFrames
  import opened ManagerAccepts
  import opened ManagerErrors

  // ------------------------------------------------------------ an error message

  lemma IdentityAligned(hi: Hist, n: nat)
    requires HistShape(hi, n) && !hi.failed
    ensures Aligned(hi.cols)
  {
    assert forall x :: 0 <= x < n ==> hi.cols[x] == Some(x);
  }

  lemma NothingAnywhere(hi: Hist, n: nat, x: nat)
    requires HistShape(hi, n) && AllEmpty(hi.after) && x < n
    ensures NothingYet(hi, x)
  {
    if Aligned(hi.cols) {
      ColsDistinct(hi.cols, x, x);
    }
  }

  lemma NoRowYet(hi: Hist, n: nat, x: nat)
    requires HistShape(hi, n) && x < n && NothingYet(hi, x)
    ensures MinLen(hi.after) == 0
  {
    if Aligned(hi.cols) {
      MinLenIs(hi.after, 0, ColOf(hi.cols, x));
    } else {
      var col :| Orphan(hi, col);
      MinLenIs(hi.after, 0, col);
    }
  }

  /** A process whose next message is an error has nothing else in flight. */
  lemma HeadError(c: Config, t: TaskName, ti: TaskInfo, hi: Hist, x: nat, p: ProcId, pr: Process, ch: seq<Reply>)
    requires p < |c.home| && HistShape(hi, |ti.queues|) && DequeOk(c, t, ti, hi) && x < |ti.queues|
    requires SeatFine(c, t, ti, hi, x, p, pr, ch) && pr.out != [] && pr.out[0].body.ErrorMsg?
    ensures !Lagging(pr, ch) && pr.phase.WaitErrorGather?
    ensures pr.out == [Msg(t, hi.cols[x], ErrorMsg(pr.out[0].body.msg))] && pr.index == hi.cols[x]
    ensures NothingYet(hi, x) && AllErrors(ch) && MinLen(hi.after) == 0
    ensures hi.failed || hi.normal[x] <= pr.sent
  {
    hide MinLen, InRun, BaseOf, NothingYet, Aligned, AllErrors, ErrorsAfter, Staircase;
    var seat, ph := SeatOf(c, t, x, p, pr, ch), PhaseOf(OrderOf(c, p), pr, ch);
    if ti.state == Error || hi.failed {
      ErrorHead(c, seat, hi, ph, RestOf(pr, ch), pr);
    } else {
      NothingAnywhere(hi, |ti.queues|, x);
      NormalHead(c, seat, hi, ph, RestOf(pr, ch), pr);
      EmptyErrors();
    }
    NoRowYet(hi, |ti.queues|, x);
  }

  lemma HeadOfFront<T>(s: seq<T>)
    requires s != []
    ensures |s| > 1 ==> s[..|s| - 1] != [] && s[..|s| - 1][0] == s[0]
  {
  }

  lemma EmptyErrors()
    ensures AllErrors([])
  {
  }

  lemma ErrorHead(c: Config, seat: Seat, hi: Hist, ph: Phase, ch: seq<Reply>, pr: Process)
    requires seat.x < |hi.normal| == |hi.cols| == |hi.after|
    requires ErrorOk(c, seat, hi, ph, ch, pr) && pr.out != [] && pr.out[0].body.ErrorMsg?
    ensures ph.WaitErrorGather? && |pr.out| == 1 && EndsWithError(seat, pr.index, pr.out)
    ensures NothingYet(hi, seat.x) && AllErrors(ch) && pr.index == hi.cols[seat.x]
  {
    hide MinLen, InRun, BaseOf, NothingYet, Aligned, AllErrors, ErrorsAfter;
    HeadOfFront(pr.out);
  }

  lemma NormalHead(c: Config, seat: Seat, hi: Hist, ph: Phase, ch: seq<Reply>, pr: Process)
    requires seat.x < |hi.normal|
    requires NormalOk(c, seat, hi, ph, ch, pr) && pr.out != [] && pr.out[0].body.ErrorMsg?
    ensures ph.WaitErrorGather? && |pr.out| == 1 && EndsWithError(seat, pr.index, pr.out) && ch == []
    ensures pr.index == Some(seat.x) && pr.out[0].body.msg.Some? && hi.normal[seat.x] <= pr.sent
  {
    hide MinLen, BaseOf;
    var out := if ph.WaitErrorGather? then pr.out[..|pr.out| - 1] else pr.out;
    StreamStale(c, seat, pr.index, out, pr.sent, hi.normal[seat.x]);
    HeadOfFront(pr.out);
  }

  /** Process y of the task after the manager has handled an error message of process x. */
  lemma ErrorSeat(c: Config, t: TaskName, ti: TaskInfo, ti': TaskInfo, hi: Hist, hi': Hist, x: nat, err: Option<int>,
                  eg: seq<Reply>, y: nat, q: ProcId, pr: Process, ch: seq<Reply>)
    requires q < |c.home| && HistShape(hi, |ti.queues|) && DequeOk(c, t, ti, hi) && x < |ti.queues| && y < |ti.queues|
    requires MinLen(hi.after) == 0 && AfterStep(hi, hi', x, Err(err))
    requires eg == ErrorsTold(hi'.after)
    requires SeatFine(c, t, ti, hi, y, q, pr, ch)
    requires ti'.state == Error || hi.failed
    requires ti.state == Error || hi.failed || err.Some?
    requires y == x ==> pr.out != [] && pr.out[0].body.ErrorMsg?
    ensures SeatFine(c, t, ti', hi', y, q, if y == x then pr.(out := []) else pr, ch + (ToldFor(err) + eg))
  {
    hide MinLen, InRun, BaseOf, NothingYet, Aligned, AfterStep, NormalOk, ErrorOk, HistShape, DequeOk;
    var told, order := ToldFor(err), OrderOf(c, q);
    ViewAppend(order, pr, ch, told + eg);
    ShapeLengths(hi, |ti.queues|);
    AfterStepKeeps(hi, hi', x, Err(err));
    var seat, ph, rest := SeatOf(c, t, y, q, pr, ch), PhaseOf(order, pr, ch), RestOf(pr, ch);
    assert rest + told + eg == rest + (told + eg);
    if y == x {
      HeadError(c, t, ti, hi, x, q, pr, ch);
      ErrorSeenBySender(c, seat, hi, hi', err, ch, pr, told, eg);
    } else if ti.state == Error || hi.failed {
      ErrorSeenByOther(c, seat, hi, hi', x, Err(err), ph, rest, pr, told, eg);
    } else {
      StillNormal(c, t, ti, hi, y);
      FirstErrorSeenByOther(c, seat, hi, hi', x, Err(err), ph, rest, pr);
      assert rest + [ErrorReply] == rest + (told + eg);
    }
  }

  lemma StillNormal(c: Config, t: TaskName, ti: TaskInfo, hi: Hist, y: nat)
    requires HistShape(hi, |ti.queues|) && DequeOk(c, t, ti, hi) && ti.state != Error && !hi.failed && y < |ti.queues|
    ensures hi.cols[y] == Some(y) && NothingYet(hi, y)
  {
    NothingAnywhere(hi, |ti.queues|, y);
  }

  lemma DequeAfterError(c: Config, t: TaskName, ti: TaskInfo, hi: Hist, hi': Hist)
    requires HistShape(hi', |ti.queues|) && ti.state == Error && ti.deque == Staircase(hi'.after) && MinLen(hi'.after) <= 1
    ensures DequeOk(c, t, ti, hi')
  {
  }

  /** The manager takes an error message of p. */
  lemma ErrorKeeps(c: Config, s: State, h: History, p: ProcId, pairs: seq<(PoolId, Option<TaskName>)>, t: TaskName, x: nat)
      returns (h': History)
    requires Inv(c, s, h, {}) && Enabled(c, s, Manage(p, pairs)) && Active(c, s.m.owner, {}, t)
    requires var ti := InfoOf(s.m.info, t); x < |ti.queues| && ti.queues[x] == p
    requires s.procs[p].out[0].body.ErrorMsg?
    ensures Inv(c, Do(c, s, Manage(p, pairs)), h', {})
    ensures Do(c, s, Manage(p, pairs)).m.owner == s.m.owner
    ensures var status := Do(c, s, Manage(p, pairs)).m.status;
            status == s.m.status || (status == Crashed && !Aligned(HistOf(h, t).cols))
    ensures h' == NewHist(h, t, HistOf(h', t)) && AfterStep(HistOf(h, t), HistOf(h', t), x, Err(s.procs[p].out[0].body.msg))
  {
    hide WellFormed, OwnersOk, NoSourceOk, TaskOk, ProcOk, SeatFine, Handle, HistShape, DequeOk, Active,
         FinishRow, NormalOk, ErrorOk, SeatedOk, Push, MinLen, Staircase, AfterStep, Aligned, NothingYet, AllErrors, ToldFor;
    NormalFacts(c, s, h, p, t, x);
    var ti, hi, pr, ch := InfoOf(s.m.info, t), HistOf(h, t), s.procs[p], s.m.channels[p];
    ShapeLengths(hi, |ti.queues|);
    HeadError(c, t, ti, hi, x, p, pr, ch);
    var err := pr.out[0].body.msg;
    FirstErrorIsSpoken(c, t, ti, hi, x, p, pr, ch);
    var hi', bad, eg := HandleError(c, s.m, t, hi, x, err);
    h' := NewHist(h, t, hi');
    var s' := Do(c, s, Manage(p, pairs));
    assert pr.out[1..] == [];
    var ti' := InfoOf(s'.m.info, t);
    if bad {
      BadOnlyIfFailed(hi, |ti.queues|);
    } else {
      DequeAfterError(c, t, ti', hi, hi');
    }
    AfterStepKeeps(hi, hi', x, Err(err));
    assert p == ti.queues[x] && p in ti.queues;
    forall y | 0 <= y < |ti'.queues|
      ensures ti'.queues[y] < |s'.procs| &&
              SeatFine(c, t, ti', hi', y, ti'.queues[y], s'.procs[ti'.queues[y]], s'.m.channels[ti'.queues[y]])
    {
      var q := ti.queues[y];
      ErrorSeat(c, t, ti, ti', hi, hi', x, err, eg, y, q, s.procs[q], s.m.channels[q]);
    }
    InTask(c, s, h, t, s', h');
  }

  lemma BadOnlyIfFailed(hi: Hist, n: nat)
    requires HistShape(hi, n) && !Aligned(hi.cols)
    ensures hi.failed
  {
    if !hi.failed {
      IdentityAligned(hi, n);
    }
  }

  /** The first error of a task that was started with "go" carries a text, so it is broadcast. */
  lemma FirstErrorIsSpoken(c: Config, t: TaskName, ti: TaskInfo, hi: Hist, x: nat, p: ProcId, pr: Process, ch: seq<Reply>)
    requires p < |c.home| && x < |hi.normal|
    requires SeatFine(c, t, ti, hi, x, p, pr, ch) && pr.out != [] && pr.out[0].body.ErrorMsg?
    ensures ti.state == Error || hi.failed || pr.out[0].body.msg.Some?
  {
    hide MinLen, InRun, BaseOf, ErrorOk, NormalOk;
    if ti.state != Error && !hi.failed {
      NormalHead(c, SeatOf(c, t, x, p, pr, ch), hi, PhaseOf(OrderOf(c, p), pr, ch), RestOf(pr, ch), pr);
    }
  }

  // ------------------------------------------------------------ a stale contribution

  lemma StaleTail(seat: Seat, out: seq<Msg>)
    requires Stale(seat, out) && out != []
    ensures Stale(seat, out[1..])
  {
  }

  lemma DropSeat(c: Config, seat: Seat, hi: Hist, ph: Phase, ch: seq<Reply>, pr: Process)
    requires seat.x < |hi.normal| == |hi.cols| == |hi.after|
    requires ErrorOk(c, seat, hi, ph, ch, pr) && pr.out != [] && !pr.out[0].body.ErrorMsg?
    requires pr.out[0].body.FinishedMsg? ==> !pr.out[0].body.afterError
    ensures ErrorOk(c, seat, hi, ph, ch, pr.(out := pr.out[1..])) && pr.out[0].task == seat.t
  {
    hide MinLen, InRun, BaseOf, NothingYet, Aligned, AllErrors, ErrorsAfter, OneError, ErrorThenFinish;
    if ph.WaitErrorGather? {
      var stale := pr.out[..|pr.out| - 1];
      assert stale != [] && stale[0] == pr.out[0];
      StaleTail(seat, stale);
      assert pr.out[1..][..|pr.out[1..]| - 1] == stale[1..];
    } else {
      StaleTail(seat, pr.out);
    }
  }

  /** In its error state a task drops every contribution made without knowledge of the error. */
  lemma DropKeeps(c: Config, s: State, h: History, p: ProcId, pairs: seq<(PoolId, Option<TaskName>)>, t: TaskName, x: nat)
    requires Inv(c, s, h, {}) && Enabled(c, s, Manage(p, pairs)) && Active(c, s.m.owner, {}, t)
    requires var ti := InfoOf(s.m.info, t); x < |ti.queues| && ti.queues[x] == p && ti.state == Error
    requires s.m.owner[c.home[p]].Some?
    requires var body := s.procs[p].out[0].body; !body.ErrorMsg? && (body.FinishedMsg? ==> !body.afterError)
    ensures Do(c, s, Manage(p, pairs)).m == s.m
    ensures Inv(c, Do(c, s, Manage(p, pairs)), h, {})
  {
    hide OrdersOk, GraphOk, NoSourceOk, TaskOk, ProcOk, SeatFine, HistShape, DequeOk, Active, ErrorOk, NormalOk, ActiveOk;
    SeatsOf(c, s, h, t);
    var ti, hi, pr, ch := InfoOf(s.m.info, t), HistOf(h, t), s.procs[p], s.m.channels[p];
    DropFine(c, t, ti, hi, x, p, pr, ch);
    var pr' := pr.(out := pr.out[1..]);
    OwnedBy(c, s, t, p);
    SeatedProcOk(c, s.m.info, s.m.owner, h, t, x, pr', ch);
    ProcessSteps.LocalStep(c, s, h, p, pr', ch);
    assert Do(c, s, Manage(p, pairs)) == ProcessSteps.WithProc(s, p, pr', ch);
  }

  lemma OwnedBy(c: Config, s: State, t: TaskName, p: ProcId)
    requires PoolsOk(c) && OwnersOk(c, s.m.owner, {}) && QueuesOk(c, s.m.owner, {}, t, InfoOf(s.m.info, t).queues)
    requires p in InfoOf(s.m.info, t).queues
    ensures p < |c.home| && c.home[p] < |c.pools| == |s.m.owner| && s.m.owner[c.home[p]] == Some(t)
  {
  }

  lemma DropFine(c: Config, t: TaskName, ti: TaskInfo, hi: Hist, x: nat, p: ProcId, pr: Process, ch: seq<Reply>)
    requires p < |c.home| && ti.state == Error && SeatFine(c, t, ti, hi, x, p, pr, ch) && pr.out != []
    requires !pr.out[0].body.ErrorMsg? && (pr.out[0].body.FinishedMsg? ==> !pr.out[0].body.afterError)
    ensures SeatFine(c, t, ti, hi, x, p, pr.(out := pr.out[1..]), ch) && pr.out[0].task == t
  {
    hide ErrorOk, NormalOk;
    DropSeat(c, SeatOf(c, t, x, p, pr, ch), hi, PhaseOf(OrderOf(c, p), pr, ch), RestOf(pr, ch), pr);
  }

  // ------------------------------------------------------------ a finish after the error

  /** A finish sent after the error: its process has received the gathered errors, and has nothing else in flight. */
  lemma HeadFinishAfterError(c: Config, t: TaskName, ti: TaskInfo, hi: Hist, x: nat, p: ProcId, pr: Process, ch: seq<Reply>)
    requires p < |c.home| && HistShape(hi, |ti.queues|) && x < |ti.queues|
    requires SeatFine(c, t, ti, hi, x, p, pr, ch) && pr.out != []
    requires pr.out[0].body.FinishedMsg? && pr.out[0].body.afterError
    ensures ti.state == Error || hi.failed
    ensures !Lagging(pr, ch) && pr.phase.WaitFinishAfterError? && ch == [] && MinLen(hi.after) > 0
    ensures var seat := SeatOf(c, t, x, p, pr, ch);
            && pr.out == [Msg(t, hi.cols[x], FinishedMsg(seat.pool, seat.next, true))]
            && OneError(hi, x) && Aligned(hi.cols)
  {
    hide MinLen, InRun, BaseOf, NothingYet, Aligned, AllErrors, ErrorsAfter, OneError, HistShape;
    ShapeLengths(hi, |ti.queues|);
    var seat, ph, rest := SeatOf(c, t, x, p, pr, ch), PhaseOf(OrderOf(c, p), pr, ch), RestOf(pr, ch);
    if ti.state == Error || hi.failed {
      AfterErrorHead(c, seat, hi, ph, rest, pr);
      AlignedOnceFull(hi, |ti.queues|);
    } else {
      HeadMessage(c, seat, hi, ph, rest, pr);
    }
  }

  lemma AfterErrorHead(c: Config, seat: Seat, hi: Hist, ph: Phase, ch: seq<Reply>, pr: Process)
    requires seat.x < |hi.normal| == |hi.cols| == |hi.after|
    requires ErrorOk(c, seat, hi, ph, ch, pr) && pr.out != []
    requires pr.out[0].body.FinishedMsg? && pr.out[0].body.afterError
    ensures ph.WaitFinishAfterError? && ch == [] && MinLen(hi.after) > 0
    ensures pr.out == [Msg(seat.t, pr.index, FinishedMsg(seat.pool, seat.next, true))] && OneError(hi, seat.x)
    ensures pr.index == hi.cols[seat.x]
  {
    hide MinLen, InRun, BaseOf, NothingYet, Aligned, AllErrors, ErrorsAfter, OneError;
    HeadOfFront(pr.out);
  }

  /** Gathered errors were handed out only if every column was contributed to. */
  lemma AlignedOnceFull(hi: Hist, n: nat)
    requires HistShape(hi, n) && MinLen(hi.after) > 0
    ensures Aligned(hi.cols)
  {
  }

  /** What completes a later row leaves the first row alone. */
  lemma SameFirstRow(hi: Hist, hi': Hist, x: nat, d: Data)
    requires AfterStep(hi, hi', x, d) && Aligned(hi.cols) && MinLen(hi.after) > 0
    ensures MinLen(hi'.after) > 0 && RowAt(hi'.after, 0) == RowAt(hi.after, 0)
  {
    hide MinLen, Aligned, RowAt;
    PushMin(hi.after, ColOf(hi.cols, x), d);
    RowAtPush(hi.after, ColOf(hi.cols, x), d, 0);
  }

  lemma FinishSeatOther(c: Config, seat: Seat, hi: Hist, hi': Hist, x: nat, d: Data, ph: Phase, ch: seq<Reply>, pr: Process)
    requires AfterStep(hi, hi', x, d) && Aligned(hi.cols) && seat.x < |hi.normal| == |hi.cols| && seat.x != x
    requires MinLen(hi.after) > 0 && MinLen(hi'.after) > 0
    requires ErrorOk(c, seat, hi, ph, ch, pr)
    ensures ErrorOk(c, seat, hi', ph, ch, pr)
  {
    hide MinLen, InRun, BaseOf, ErrorsAfter, NothingYet, OneError, ErrorThenFinish, Aligned, EndsWithError, Stale, AllErrors,
         AfterStep, RowAt;
    OtherColumn(hi, hi', x, d, seat.x);
    SameFirstRow(hi, hi', x, d);
    AfterStepKeeps(hi, hi', x, d);
  }

  lemma FinishSeatOwn(c: Config, seat: Seat, hi: Hist, hi': Hist, ph: Phase, ch: seq<Reply>, pr: Process)
    requires AfterStep(hi, hi', seat.x, Fin(seat.pool, seat.next)) && Aligned(hi.cols) && seat.x < |hi.normal| == |hi.cols|
    requires MinLen(hi'.after) > 0 && ph.WaitFinishAfterError? && OneError(hi, seat.x)
    requires ErrorOk(c, seat, hi, ph, ch, pr)
    ensures ErrorOk(c, seat, hi', ph, ch, pr.(out := []))
  {
    hide MinLen;
    ColsDistinct(hi.cols, seat.x, seat.x);
  }

  /** Every seat once the manager has filled in a finish of process x after the error, complete barrier or not. */
  lemma FinishSeat(c: Config, t: TaskName, ti: TaskInfo, ti': TaskInfo, hi: Hist, hi': Hist, x: nat, d: Data,
                   y: nat, q: ProcId, pr: Process, ch: seq<Reply>)
    requires q < |c.home| && HistShape(hi, |ti.queues|) && x < |ti.queues| && y < |ti.queues|
    requires AfterStep(hi, hi', x, d) && Aligned(hi.cols) && MinLen(hi.after) > 0 && MinLen(hi'.after) > 0
    requires SeatFine(c, t, ti, hi, y, q, pr, ch)
    requires (ti.state == Error || hi.failed) && (ti'.state == Error || hi.failed)
    requires y == x ==> && pr.out != [] && pr.out[0].body.FinishedMsg? && pr.out[0].body.afterError
                        && d == Fin(pr.out[0].body.pool, pr.out[0].body.next)
    ensures SeatFine(c, t, ti', hi', y, q, if y == x then pr.(out := []) else pr, ch)
  {
    hide MinLen, AfterStep, NormalOk, ErrorOk, HistShape, Aligned, OneError;
    ShapeLengths(hi, |ti.queues|);
    AfterStepKeeps(hi, hi', x, d);
    var seat, ph, rest := SeatOf(c, t, y, q, pr, ch), PhaseOf(OrderOf(c, q), pr, ch), RestOf(pr, ch);
    if y == x {
      HeadFinishAfterError(c, t, ti, hi, x, q, pr, ch);
      FinishSeatOwn(c, seat, hi, hi', ph, rest, pr);
    } else {
      FinishSeatOther(c, seat, hi, hi', x, d, ph, rest, pr);
    }
  }

  /** fill_gater_data for a finish after the error. */
  lemma TakeAfterError(c: Config, m: Manager, t: TaskName, hi: Hist, x: nat, d: Data) returns (hi': Hist)
    requires var ti := InfoOf(m.info, t);
             HistShape(hi, |ti.queues|) && DequeOk(c, t, ti, hi) && ti.state == Error && x < |ti.queues|
    requires Aligned(hi.cols) && MinLen(hi.after) > 0
    ensures AfterStep(hi, hi', x, d) && HistShape(hi', |hi.cols|)
    ensures MinLen(hi'.after) == 1 || MinLen(hi'.after) == 2
    ensures var ti := InfoOf(m.info, t);
            var m' := WithInfo(m, t, ti.(deque := Staircase(hi'.after)));
            FillGatherData(m, t, hi.cols[x], d, true)
            == if MinLen(hi'.after) == 2 then FullRow(m', RowAt(hi'.after, 1)) else NoRow(m')
  {
    hide Fill, Staircase, MinLen, RowAt, Push, Aligned, AfterStep, HistShape;
    ShapeLengths(hi, |InfoOf(m.info, t).queues|);
    var bad;
    hi', bad := FillAfter(hi, x, d);
    GrowsAfter(hi, hi', x, d);
  }

  lemma GrowsAfter(hi: Hist, hi': Hist, x: nat, d: Data)
    requires AfterStep(hi, hi', x, d) && Aligned(hi.cols)
    ensures MinLen(hi.after) <= MinLen(hi'.after)
  {
    PushMin(hi.after, ColOf(hi.cols, x), d);
  }

  /** The manager takes a finish after the error that leaves the barrier incomplete. */
  lemma FinishAfterErrorKeeps(c: Config, s: State, h: History, p: ProcId, pairs: seq<(PoolId, Option<TaskName>)>,
                              t: TaskName, x: nat, hi': Hist)
    requires Inv(c, s, h, {}) && Enabled(c, s, Manage(p, pairs)) && Active(c, s.m.owner, {}, t)
    requires var ti := InfoOf(s.m.info, t); x < |ti.queues| && ti.queues[x] == p && ti.state == Error
    requires s.m.owner[c.home[p]].Some? && c.home[p] < |s.m.owner|
    requires var body := s.procs[p].out[0].body; body.FinishedMsg? && body.afterError
    requires var m, hi, body := s.m, HistOf(h, t), s.procs[p].out[0].body;
             var ti := InfoOf(m.info, t);
             && AfterStep(hi, hi', x, Fin(body.pool, body.next)) && HistShape(hi', |hi.cols|)
             && MinLen(hi'.after) == 1
             && FillGatherData(m, t, hi.cols[x], Fin(body.pool, body.next), true)
                == NoRow(WithInfo(m, t, ti.(deque := Staircase(hi'.after))))
    ensures Inv(c, Do(c, s, Manage(p, pairs)), NewHist(h, t, hi'), {})
    ensures Do(c, s, Manage(p, pairs)).m.owner == s.m.owner && Do(c, s, Manage(p, pairs)).m.status == s.m.status
  {
    hide WellFormed, OwnersOk, NoSourceOk, TaskOk, ProcOk, SeatFine, HistShape, DequeOk, Active, FillGatherData,
         FinishRow, NormalOk, ErrorOk, SeatedOk, Push, MinLen, Staircase, AfterStep, Aligned, NothingYet, AllErrors, PairsFit;
    NormalFacts(c, s, h, p, t, x);
    var ti, hi, pr, ch := InfoOf(s.m.info, t), HistOf(h, t), s.procs[p], s.m.channels[p];
    ShapeLengths(hi, |ti.queues|);
    HeadFinishAfterError(c, t, ti, hi, x, p, pr, ch);
    AfterStepKeeps(hi, hi', x, Fin(pr.out[0].body.pool, pr.out[0].body.next));
    var s' := Do(c, s, Manage(p, pairs));
    assert pr.out[1..] == [];
    var ti' := InfoOf(s'.m.info, t);
    assert ti' == ti.(deque := Staircase(hi'.after));
    DequeAfterError(c, t, ti', hi, hi');
    assert p == ti.queues[x] && p in ti.queues;
    forall y | 0 <= y < |ti'.queues|
      ensures ti'.queues[y] < |s'.procs| &&
              SeatFine(c, t, ti', hi', y, ti'.queues[y], s'.procs[ti'.queues[y]], s'.m.channels[ti'.queues[y]])
    {
      var q := ti.queues[y];
      FinishSeat(c, t, ti, ti', hi, hi', x, Fin(pr.out[0].body.pool, pr.out[0].body.next), y, q, s.procs[q], s.m.channels[q]);
    }
    InTask(c, s, h, t, s', NewHist(h, t, hi'));
  }
}
