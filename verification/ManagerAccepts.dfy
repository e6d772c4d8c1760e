/** A contribution to a collective, taken by the manager while the task has no error. */
module ManagerAccepts {
  import opened Basics
  import opened Collectives
  import opened TaskModel
  import opened TaskProtocol
  import opened ProtocolInvariant
  import opened ManagerFrames

  /** What process number y is sent when the row `MinLen(acc)` of the streams becomes complete. */
  ghost function Extra(c: Config, t: TaskName, acc: Streams<Data>, acc': Streams<Data>, y: nat): seq<Reply>
    requires |acc| > 0 && |acc'| > 0
  {
    var r := MinLen(acc);
    if r < MinLen(acc') && r < |Program(c, t)| && Expects(Program(c, t)[r], Some(y))
    then [ReplyTo(Program(c, t)[r], RowAt(acc', r))]
    else []
  }

  ghost predicate Grows(acc: Streams<Data>, acc': Streams<Data>) {
    && |acc'| == |acc| > 0
    && (MinLen(acc') == MinLen(acc) || MinLen(acc') == MinLen(acc) + 1)
    && forall k :: 0 <= k < MinLen(acc) ==> RowAt(acc', k) == RowAt(acc, k)
  }

  lemma PushGrows(acc: Streams<Data>, j: nat, d: Data)
    requires j < |acc|
    ensures Grows(acc, Push(acc, j, d))
  {
    hide Push, RowAt;
    PushMin(acc, j, d);
    forall k | 0 <= k < MinLen(acc) ensures RowAt(Push(acc, j, d), k) == RowAt(acc, k) {
      RowAtPush(acc, j, d, k);
    }
  }

  /** Of the processes that have contributed to the completed row, exactly those that wait for it are answered. */
  lemma BaseGrows(c: Config, seat: Seat, acc: Streams<Data>, acc': Streams<Data>, ph: Phase, pr: Process)
    requires Grows(acc, acc') && InRun(c, seat, MinLen(acc), ph, pr.index, pr.sent)
    requires MinLen(acc') <= |pr.sent| && MinLen(acc') <= |Program(c, seat.t)|
    ensures InRun(c, seat, MinLen(acc'), ph, pr.index, pr.sent)
    ensures BaseOf(c, seat.t, ph, acc') == BaseOf(c, seat.t, ph, acc) + Extra(c, seat.t, acc, acc', seat.x)
  {
    hide MinLen, RowAt;
    var r := MinLen(acc);
    if MinLen(acc') > r && Expects(Program(c, seat.t)[r], Some(seat.x)) {
      assert ph.WaitReply? && ph.done == r + 1;
    }
  }

  /** A process other than the contributor. */
  lemma AcceptOther(c: Config, seat: Seat, hi: Hist, x: nat, d: Data, ph: Phase, ch: seq<Reply>, pr: Process)
    requires x < |hi.normal| && seat.x < |hi.normal| && x != seat.x
    requires MinLen(Push(hi.normal, x, d)) <= |Program(c, seat.t)|
    requires NormalOk(c, seat, hi, ph, ch, pr)
    ensures NormalOk(c, seat, hi.(normal := Push(hi.normal, x, d)), ph,
                     ch + Extra(c, seat.t, hi.normal, Push(hi.normal, x, d), seat.x), pr)
  {
    hide MinLen, InRun, StreamOk, BaseOf, Extra;
    var acc, acc' := hi.normal, Push(hi.normal, x, d);
    PushGrows(acc, x, d);
    assert acc'[seat.x] == acc[seat.x];
    assert MinLen(acc') <= |acc'[seat.x]|;
    if ph.WaitGo? {
      NoExtra(c, seat.t, acc, acc', seat.x);
    } else {
      SentCovers(c, seat, hi, ph, ch, pr);
      BaseGrows(c, seat, acc, acc', ph, pr);
      BaseEmpty(c, seat.t, acc, acc', ph);
    }
  }

  lemma NoExtra(c: Config, t: TaskName, acc: Streams<Data>, acc': Streams<Data>, y: nat)
    requires |acc| > 0 && |acc'| > 0 && MinLen(acc') == 0
    ensures Extra(c, t, acc, acc', y) == []
  {
  }

  lemma BaseEmpty(c: Config, t: TaskName, acc: Streams<Data>, acc': Streams<Data>, ph: Phase)
    requires |acc| > 0 && |acc'| > 0
    ensures !ph.WaitReply? ==> BaseOf(c, t, ph, acc) == BaseOf(c, t, ph, acc') == []
  {
  }

  lemma SentCovers(c: Config, seat: Seat, hi: Hist, ph: Phase, ch: seq<Reply>, pr: Process)
    requires seat.x < |hi.normal| && NormalOk(c, seat, hi, ph, ch, pr) && !ph.WaitGo?
    ensures |hi.normal[seat.x]| <= |pr.sent|
  {
  }

  /** The contributor: its message is the next one of its stream. */
  lemma AcceptOwn(c: Config, seat: Seat, hi: Hist, d: Data, ph: Phase, ch: seq<Reply>, pr: Process)
    requires seat.x < |hi.normal| && pr.out != [] && !pr.out[0].body.ErrorMsg?
    requires NormalOk(c, seat, hi, ph, ch, pr)
    requires |hi.normal[seat.x]| < |pr.sent| ==> d == pr.sent[|hi.normal[seat.x]|]
    requires MinLen(Push(hi.normal, seat.x, d)) <= |Program(c, seat.t)|
    ensures NormalOk(c, seat, hi.(normal := Push(hi.normal, seat.x, d)), ph,
                     ch + Extra(c, seat.t, hi.normal, Push(hi.normal, seat.x, d), seat.x), pr.(out := pr.out[1..]))
  {
    hide MinLen, InRun, BaseOf, Extra;
    var acc, acc' := hi.normal, Push(hi.normal, seat.x, d);
    PushGrows(acc, seat.x, d);
    var out := if ph.WaitErrorGather? then pr.out[..|pr.out| - 1] else pr.out;
    assert StreamOk(c, seat, pr.index, out, pr.sent, acc[seat.x]);
    assert out != [] by {
      assert ph.WaitErrorGather? ==> pr.out[|pr.out| - 1].body.ErrorMsg?;
    }
    StreamTaken(c, seat, pr.index, out, pr.sent, acc[seat.x], d);
    assert acc'[seat.x] == acc[seat.x] + [d];
    assert MinLen(acc') <= |acc'[seat.x]|;
    BaseGrows(c, seat, acc, acc', ph, pr);
    BaseEmpty(c, seat.t, acc, acc', ph);
    if ph.WaitErrorGather? {
      assert pr.out[1..][..|pr.out[1..]| - 1] == out[1..];
    }
  }

  lemma StreamTaken(c: Config, seat: Seat, index: Option<nat>, out: seq<Msg>, sent: seq<Data>, acc: seq<Data>, d: Data)
    requires StreamOk(c, seat, index, out, sent, acc) && out != [] && d == sent[|acc|]
    ensures StreamOk(c, seat, index, out[1..], sent, acc + [d])
  {
    assert sent[..|acc| + 1] == sent[..|acc|] + [d];
  }

  /** Which contribution a message at the head of a normal outbox carries. */
  lemma HeadMessage(c: Config, seat: Seat, hi: Hist, ph: Phase, ch: seq<Reply>, pr: Process)
    requires seat.x < |hi.normal| && NormalOk(c, seat, hi, ph, ch, pr)
    requires pr.out != [] && !pr.out[0].body.ErrorMsg?
    ensures var q := |hi.normal[seat.x]|;
            && q < |pr.sent| && SentOk(c, seat, pr.sent)
            && pr.out[0] == MsgFor(c, seat, Some(seat.x), q, pr.sent[q])
  {
    hide MinLen, BaseOf;
    var out := if ph.WaitErrorGather? then pr.out[..|pr.out| - 1] else pr.out;
    assert StreamOk(c, seat, pr.index, out, pr.sent, hi.normal[seat.x]);
    assert out != [] && out[0] == pr.out[0] by {
      assert ph.WaitErrorGather? ==> pr.out[|pr.out| - 1].body.ErrorMsg?;
    }
    assert out[0] == MsgFor(c, seat, pr.index, |hi.normal[seat.x]| + 0, pr.sent[|hi.normal[seat.x]| + 0]);
  }

  // ------------------------------------------------------------ the manager's side

  /** While the task has no error, fill_gater_data follows the staircase of the streams. */
  lemma TakeNormal(c: Config, m: Manager, t: TaskName, hi: Hist, x: nat, d: Data, ignore: bool)
    requires var ti := InfoOf(m.info, t);
             HistShape(hi, |ti.queues|) && DequeOk(c, t, ti, hi) && ti.state != Error && x < |ti.queues|
    ensures var ti, acc' := InfoOf(m.info, t), Push(hi.normal, x, d);
            var m' := WithInfo(m, t, ti.(deque := Staircase(acc')));
            FillGatherData(m, t, Some(x), d, ignore)
            == if MinLen(acc') > MinLen(hi.normal) then FullRow(m', RowAt(acc', MinLen(hi.normal))) else NoRow(m')
  {
    hide Fill, Staircase, MinLen, RowAt, Push;
    FillStaircase(hi.normal, x, d);
  }

  ghost predicate ExtraSent(c: Config, t: TaskName, queues: seq<ProcId>, acc: Streams<Data>, acc': Streams<Data>,
                            channels: seq<seq<Reply>>, channels': seq<seq<Reply>>)
    requires |acc| > 0 && |acc'| > 0
  {
    && |channels'| == |channels|
    && (forall q :: 0 <= q < |channels| && q !in queues ==> channels'[q] == channels[q])
    && (forall y :: 0 <= y < |queues| ==>
          queues[y] < |channels| && channels'[queues[y]] == channels[queues[y]] + Extra(c, t, acc, acc', y))
  }

  lemma NothingSent(c: Config, t: TaskName, queues: seq<ProcId>, acc: Streams<Data>, acc': Streams<Data>, channels: seq<seq<Reply>>)
    requires |acc| > 0 && |acc'| > 0 && MinLen(acc') == MinLen(acc)
    requires forall y :: 0 <= y < |queues| ==> queues[y] < |channels|
    ensures ExtraSent(c, t, queues, acc, acc', channels, channels)
  {
  }

  lemma ToAllSent(c: Config, t: TaskName, queues: seq<ProcId>, acc: Streams<Data>, acc': Streams<Data>, channels: seq<seq<Reply>>)
    requires |acc| > 0 && |acc'| > 0 && NoDup(queues)
    requires forall y :: 0 <= y < |queues| ==> queues[y] < |channels|
    requires var r := MinLen(acc); r < MinLen(acc') && r < |Program(c, t)| && Program(c, t)[r] == AllGatherOp
    ensures ExtraSent(c, t, queues, acc, acc', channels, PutAll(channels, queues, AllGathered(RowAt(acc', MinLen(acc)))))
  {
    hide MinLen, RowAt, PutAll, Extra, Program, Expects, ReplyTo;
    var r := AllGathered(RowAt(acc', MinLen(acc)));
    PutAllEffect(channels, queues, r);
    ExtraIs(c, t, acc, acc', r);
    forall y | 0 <= y < |queues|
      ensures PutAll(channels, queues, r)[queues[y]] == channels[queues[y]] + Extra(c, t, acc, acc', y)
    {
      assert queues[y] in queues;
    }
  }

  lemma ExtraIs(c: Config, t: TaskName, acc: Streams<Data>, acc': Streams<Data>, r: Reply)
    requires |acc| > 0 && |acc'| > 0
    requires var k := MinLen(acc);
             k < MinLen(acc') && k < |Program(c, t)| && Program(c, t)[k] == AllGatherOp && r == AllGathered(RowAt(acc', k))
    ensures forall y: nat :: Extra(c, t, acc, acc', y) == [r]
  {
  }

  lemma ToOneSent(c: Config, t: TaskName, queues: seq<ProcId>, acc: Streams<Data>, acc': Streams<Data>,
                  channels: seq<seq<Reply>>, dst: nat)
    requires |acc| > 0 && |acc'| > 0 && NoDup(queues)
    requires forall y :: 0 <= y < |queues| ==> queues[y] < |channels|
    requires var r := MinLen(acc); r < MinLen(acc') && r < |Program(c, t)| && Program(c, t)[r] == GatherTo(dst)
    ensures ExtraSent(c, t, queues, acc, acc', channels,
                      if dst < |queues| then Put(channels, queues[dst], Gathered(RowAt(acc', MinLen(acc)))) else channels)
  {
    hide MinLen, RowAt;
    var ch := if dst < |queues| then Put(channels, queues[dst], Gathered(RowAt(acc', MinLen(acc)))) else channels;
    forall y | 0 <= y < |queues|
      ensures ch[queues[y]] == channels[queues[y]] + Extra(c, t, acc, acc', y)
    {
      assert y != dst && dst < |queues| ==> queues[y] != queues[dst];
    }
  }

  /** The finish barrier is complete exactly when the row after the last collective is. */
  ghost predicate FinishRow(c: Config, t: TaskName, acc: Streams<Data>, acc': Streams<Data>)
    requires |acc| > 0 && |acc'| > 0
  {
    MinLen(acc) < MinLen(acc') && MinLen(acc) == |Program(c, t)|
  }

  lemma HandleNormal(c: Config, m: Manager, seat: Seat, hi: Hist, d: Data, pairs: seq<(PoolId, Option<TaskName>)>)
    requires var ti := InfoOf(m.info, seat.t);
             && HistShape(hi, |ti.queues|) && DequeOk(c, seat.t, ti, hi) && ti.state != Error && seat.x < |ti.queues|
             && NoDup(ti.queues) && forall y :: 0 <= y < |ti.queues| ==> ti.queues[y] < |m.channels|
    requires exists i :: 0 <= i < |m.owner| && m.owner[i].Some?
    requires SentOk(c, seat, hi.normal[seat.x] + [d])
    requires !FinishRow(c, seat.t, hi.normal, Push(hi.normal, seat.x, d))
    ensures var msg := MsgFor(c, seat, Some(seat.x), |hi.normal[seat.x]|, d);
            var acc' := Push(hi.normal, seat.x, d);
            var m' := Handle(LayoutOf(c), m, msg, pairs);
            var ti := InfoOf(m.info, seat.t);
            && m'.info == m.info[seat.t := ti.(deque := Staircase(acc'))] && m'.owner == m.owner && m'.status == m.status
            && ExtraSent(c, seat.t, ti.queues, hi.normal, acc', m.channels, m'.channels)
  {
    hide Staircase, MinLen, RowAt, FillGatherData, HistShape, DequeOk, ExtraSent, PutAll, Put;
    var ti, acc := InfoOf(m.info, seat.t), hi.normal;
    ShapeLengths(hi, |ti.queues|);
    var q := |acc[seat.x]|;
    var acc' := Push(acc, seat.x, d);
    PushMin(acc, seat.x, d);
    TakeNormal(c, m, seat.t, hi, seat.x, d, false);
    assert (hi.normal[seat.x] + [d])[q] == d;
    if MinLen(acc') == MinLen(acc) {
      NothingSent(c, seat.t, ti.queues, acc, acc', m.channels);
    } else {
      assert q == MinLen(acc) < |Program(c, seat.t)|;
      if Program(c, seat.t)[q].AllGatherOp? {
        ToAllSent(c, seat.t, ti.queues, acc, acc', m.channels);
      } else {
        ToOneSent(c, seat.t, ti.queues, acc, acc', m.channels, Program(c, seat.t)[q].dst);
      }
    }
  }

  lemma ShapeLengths(hi: Hist, n: nat)
    requires HistShape(hi, n)
    ensures |hi.cols| == |hi.normal| == |hi.after| == n > 0
  {
  }

  // ------------------------------------------------------------ the step

  lemma NormalFacts(c: Config, s: State, h: History, p: ProcId, t: TaskName, x: nat)
    requires Inv(c, s, h, {}) && p < |s.procs| && Active(c, s.m.owner, {}, t)
    requires x < |InfoOf(s.m.info, t).queues| && InfoOf(s.m.info, t).queues[x] == p
    ensures var ti := InfoOf(s.m.info, t);
            && HistShape(HistOf(h, t), |ti.queues|) && DequeOk(c, t, ti, HistOf(h, t)) && NoDup(ti.queues)
            && (forall y :: 0 <= y < |ti.queues| ==> ti.queues[y] < |s.m.channels|)
            && AllSeated(c, t, ti, HistOf(h, t), s.procs, s.m.channels)
            && exists i :: 0 <= i < |s.m.owner| && s.m.owner[i].Some?
  {
    hide SeatFine, TaskOk, ProcOk, OrdersOk, GraphOk, NoSourceOk, HistShape, DequeOk;
    SeatsOf(c, s, h, t);
    var i :| 0 <= i < |c.pools| && InPool(c, i, t);
    assert Owns(s.m.owner, {}, i, t);
  }

  lemma AcceptSeat(c: Config, t: TaskName, ti: TaskInfo, ti': TaskInfo, hi: Hist, x: nat, d: Data, y: nat, q: ProcId,
                   pr: Process, ch: seq<Reply>)
    requires q < |c.home| && x < |hi.normal| && y < |hi.normal| && !hi.failed
    requires ti.state != Error && ti'.state != Error
    requires SeatFine(c, t, ti, hi, y, q, pr, ch)
    requires MinLen(Push(hi.normal, x, d)) <= |Program(c, t)|
    requires y == x ==> && pr.out != [] && !pr.out[0].body.ErrorMsg?
                        && (|hi.normal[x]| < |pr.sent| ==> d == pr.sent[|hi.normal[x]|])
    ensures SeatFine(c, t, ti', hi.(normal := Push(hi.normal, x, d)), y, q,
                     if y == x then pr.(out := pr.out[1..]) else pr,
                     ch + Extra(c, t, hi.normal, Push(hi.normal, x, d), y))
  {
    hide NormalOk, ErrorOk, MinLen;
    var order := OrderOf(c, q);
    var extra := Extra(c, t, hi.normal, Push(hi.normal, x, d), y);
    ViewAppend(order, pr, ch, extra);
    var seat := SeatOf(c, t, y, q, pr, ch);
    if y == x {
      AcceptOwn(c, seat, hi, d, PhaseOf(order, pr, ch), RestOf(pr, ch), pr);
    } else {
      AcceptOther(c, seat, hi, x, d, PhaseOf(order, pr, ch), RestOf(pr, ch), pr);
    }
  }

  ghost function NewHist(h: History, t: TaskName, hi: Hist): History {
    h[t := hi]
  }

  lemma ShapeAfterPush(hi: Hist, n: nat, x: nat, d: Data)
    requires HistShape(hi, n) && x < n && !hi.failed
    ensures HistShape(hi.(normal := Push(hi.normal, x, d)), n)
  {
    if !Aligned(hi.cols) {
      var col :| Orphan(hi, col);
      assert Orphan(hi.(normal := Push(hi.normal, x, d)), col);
    }
  }

  lemma DequeAfterPush(c: Config, t: TaskName, ti: TaskInfo, hi: Hist, x: nat, d: Data)
    requires HistShape(hi, |ti.queues|) && DequeOk(c, t, ti, hi) && ti.state != Error && x < |ti.queues| && !hi.failed
    requires !FinishRow(c, t, hi.normal, Push(hi.normal, x, d))
    ensures var hi' := hi.(normal := Push(hi.normal, x, d));
            && HistShape(hi', |ti.queues|)
            && DequeOk(c, t, ti.(deque := Staircase(hi'.normal)), hi')
            && MinLen(hi'.normal) <= |Program(c, t)|
  {
    hide MinLen, MaxLen, HistShape, Staircase;
    ShapeLengths(hi, |ti.queues|);
    ShapeAfterPush(hi, |ti.queues|, x, d);
    PushMin(hi.normal, x, d);
  }

  /** The manager takes a contribution of p to a collective, or to a finish barrier that stays incomplete. */
  lemma AcceptKeeps(c: Config, s: State, h: History, p: ProcId, pairs: seq<(PoolId, Option<TaskName>)>, t: TaskName, x: nat)
      returns (h': History)
    requires Inv(c, s, h, {}) && Enabled(c, s, Manage(p, pairs)) && Active(c, s.m.owner, {}, t)
    requires var ti := InfoOf(s.m.info, t); x < |ti.queues| && ti.queues[x] == p && ti.state != Error
    requires !HistOf(h, t).failed && !s.procs[p].out[0].body.ErrorMsg?
    requires x < |HistOf(h, t).normal| && |HistOf(h, t).normal[x]| < |s.procs[p].sent| ==>
               !FinishRow(c, t, HistOf(h, t).normal,
                          Push(HistOf(h, t).normal, x, s.procs[p].sent[|HistOf(h, t).normal[x]|]))
    ensures Inv(c, Do(c, s, Manage(p, pairs)), h', {})
    ensures Do(c, s, Manage(p, pairs)).m.owner == s.m.owner && Do(c, s, Manage(p, pairs)).m.status == s.m.status
    ensures h' == NewHist(h, t, HistOf(h', t)) && HistOf(h', t).after == HistOf(h, t).after
  {
    hide WellFormed, OwnersOk, NoSourceOk, TaskOk, ProcOk, SeatFine, Handle, HistShape, DequeOk, Active, PairsFit,
         FinishRow, NormalOk, ErrorOk, SeatedOk, Push, MinLen, Extra, Staircase;
    NormalFacts(c, s, h, p, t, x);
    var ti, hi, pr, ch := InfoOf(s.m.info, t), HistOf(h, t), s.procs[p], s.m.channels[p];
    ShapeLengths(hi, |ti.queues|);
    var seat := OwnSeat(c, t, ti, hi, x, p, pr, ch);
    var d := pr.sent[|hi.normal[x]|];
    HandleNormal(c, s.m, seat, hi, d, pairs);
    DequeAfterPush(c, t, ti, hi, x, d);
    var hi' := hi.(normal := Push(hi.normal, x, d));
    h' := NewHist(h, t, hi');
    var s' := Do(c, s, Manage(p, pairs));
    var ti' := InfoOf(s'.m.info, t);
    assert p == ti.queues[x] && p in ti.queues;
    forall y | 0 <= y < |ti'.queues|
      ensures ti'.queues[y] < |s'.procs| &&
              SeatFine(c, t, ti', hi', y, ti'.queues[y], s'.procs[ti'.queues[y]], s'.m.channels[ti'.queues[y]])
    {
      var q := ti.queues[y];
      AcceptSeat(c, t, ti, ti', hi, x, d, y, q, s.procs[q], s.m.channels[q]);
    }
    InTask(c, s, h, t, s', h');
  }

  /** The seat of the process whose message is taken. */
  lemma OwnSeat(c: Config, t: TaskName, ti: TaskInfo, hi: Hist, x: nat, p: ProcId, pr: Process, ch: seq<Reply>) returns (seat: Seat)
    requires p < |c.home| && x < |hi.normal| && ti.state != Error && !hi.failed
    requires SeatFine(c, t, ti, hi, x, p, pr, ch) && pr.out != [] && !pr.out[0].body.ErrorMsg?
    ensures seat.t == t && seat.x == x
    ensures var q := |hi.normal[x]|;
            && q < |pr.sent| && pr.out[0] == MsgFor(c, seat, Some(x), q, pr.sent[q])
            && SentOk(c, seat, hi.normal[x] + [pr.sent[q]])
  {
    hide MinLen, BaseOf;
    seat := SeatOf(c, t, x, p, pr, ch);
    HeadMessage(c, seat, hi, PhaseOf(OrderOf(c, p), pr, ch), RestOf(pr, ch), pr);
    assert hi.normal[x] == pr.sent[..|hi.normal[x]|];
  }
}
