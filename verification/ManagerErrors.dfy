/** Error messages, and everything else the manager takes once a task is in error. */
module ManagerErrors {
  import opened Basics
  import opened Collectives
  import opened TaskModel
  import opened TaskProtocol
  import opened ProtocolInvariant
  import ManagerFrames
  import ManagerAccepts

  // ------------------------------------------------------------ columns

  lemma ColsDistinct(cols: seq<Option<nat>>, x: nat, y: nat)
    requires Aligned(cols) && x < |cols| && y < |cols|
    ensures ColOf(cols, x) < |cols|
    ensures x != y ==> ColOf(cols, x) != ColOf(cols, y)
  {
    if x < y && |cols| > 1 {
      assert cols[x] != cols[y];
    } else if y < x && |cols| > 1 {
      assert cols[y] != cols[x];
    }
  }

  /** With aligned indices, fill_gater_data follows the staircase of the columns. */
  lemma FillAligned(cols: seq<Option<nat>>, acc: Streams<Data>, x: nat, d: Data)
    requires Aligned(cols) && x < |cols| == |acc|
    ensures ColOf(cols, x) < |acc|
    ensures Fill(|acc|, Staircase(acc), cols[x], d) == AfterPush(acc, ColOf(cols, x), d)
  {
    hide AfterPush;
    ColsDistinct(cols, x, x);
    FillStaircase(acc, ColOf(cols, x), d);
    if |acc| == 1 {
      MinLenIs(acc, |acc[0]|, 0);
      MaxLenIs(acc, |acc[0]|, 0);
      assert Staircase(acc) == [];
    }
  }

  lemma FillOrphaned(hi: Hist, acc: Streams<Data>, index: Option<nat>, col: nat, d: Data) returns (acc': Streams<Data>)
    requires |acc| >= 2 && col < |acc| && acc[col] == [] && index != Some(col)
    ensures |acc'| == |acc| && acc'[col] == [] && MinLen(acc') == 0
    ensures var r := Fill(|acc|, Staircase(acc), index, d);
            (r.BadIndex? && acc' == acc) || r == Kept(Staircase(acc'))
  {
    if index.Some? && index.value < |acc| {
      acc' := Push(acc, index.value, d);
      FillStaircase(acc, index.value, d);
      MinLenIs(acc', 0, col);
      MinLenIs(acc, 0, col);
    } else {
      acc' := acc;
      MinLenIs(acc, 0, col);
      FirstOpenBad(acc, index);
    }
  }

  lemma FirstOpenBad<D>(acc: Streams<D>, index: Option<nat>)
    requires |acc| >= 2 && (index.None? || index.value >= |acc|)
    ensures forall d :: Fill(|acc|, Staircase(acc), index, d).BadIndex?
  {
    var dq := Staircase(acc);
    if dq != [] {
      assert |dq[0]| == |acc|;
    }
  }

  // ------------------------------------------------------------ seats

  /** What every process is sent when a row of errors is full. */
  ghost function ErrorsTold(after: Streams<Data>): seq<Reply> {
    if |after| == 0 || MinLen(after) == 0 then [] else [ErrorGather(RowAt(after, 0))]
  }

  lemma AllErrorsAppend(a: seq<Reply>, b: seq<Reply>)
    requires AllErrors(a) && AllErrors(b)
    ensures AllErrors(a + b)
  {
  }

  lemma ErrorsAfterAppend(base: seq<Reply>, ch: seq<Reply>, more: seq<Reply>)
    requires ErrorsAfter(base, ch) && AllErrors(more)
    ensures ErrorsAfter(base, ch + more)
  {
    assert (ch + more)[..|base|] == ch[..|base|];
    assert (ch + more)[|base|..] == ch[|base|..] + more;
  }

  /** The columns after one more contribution of process x (with aligned indices); all that is needed otherwise. */
  ghost predicate AfterStep(hi: Hist, hi': Hist, x: nat, d: Data) {
    && x < |hi.cols| == |hi.after| == |hi'.after| && |hi.after| > 0
    && hi' == hi.(after := hi'.after)
    && if Aligned(hi.cols)
       then ColOf(hi.cols, x) < |hi.after| && hi'.after == Push(hi.after, ColOf(hi.cols, x), d)
       else MinLen(hi'.after) == 0
  }

  lemma OtherColumn(hi: Hist, hi': Hist, x: nat, d: Data, y: nat)
    requires AfterStep(hi, hi', x, d) && y < |hi.cols| && y != x
    ensures NothingYet(hi', y) == NothingYet(hi, y)
    ensures OneError(hi', y) == OneError(hi, y)
    ensures forall f :: ErrorThenFinish(hi', y, f) == ErrorThenFinish(hi, y, f)
    ensures NothingYet(hi, y) ==> MinLen(hi'.after) == 0
  {
    if Aligned(hi.cols) {
      ColsDistinct(hi.cols, x, y);
      assert hi'.after[ColOf(hi.cols, y)] == hi.after[ColOf(hi.cols, y)];
      if NothingYet(hi, y) {
        MinLenIs(hi'.after, 0, ColOf(hi.cols, y));
      }
    }
  }

  /** A process, other than the sender, of a task that was already in error. */
  lemma ErrorSeenByOther(c: Config, seat: Seat, hi: Hist, hi': Hist, x: nat, d: Data, ph: Phase, ch: seq<Reply>, pr: Process,
                         told: seq<Reply>, eg: seq<Reply>)
    requires AfterStep(hi, hi', x, d) && seat.x < |hi.normal| == |hi.cols| && seat.x != x
    requires MinLen(hi.after) == 0 && AllErrors(told)
    requires eg == ErrorsTold(hi'.after)
    requires ErrorOk(c, seat, hi, ph, ch, pr)
    ensures ErrorOk(c, seat, hi', ph, ch + told + eg, pr)
  {
    hide MinLen, InRun, BaseOf, ErrorsAfter, NothingYet, OneError, ErrorThenFinish, Aligned, EndsWithError, Stale, AllErrors,
         AfterStep;
    OtherColumn(hi, hi', x, d, seat.x);
    AfterStepKeeps(hi, hi', x, d);
    if ph.WaitErrorGather? {
      AllErrorsAppend(ch, told);
      if eg != [] {
        assert (ch + told + eg)[..|ch + told + eg| - 1] == ch + told;
      } else {
        assert ch + told + eg == ch + told;
      }
    } else {
      assert ch + told + eg == ch + told;
      if ph.WaitGo? {
        ErrorsAfterAppend(if hi.failed then [] else [Go(seat.x)], ch, told);
      } else {
        ErrorsAfterAppend(BaseOf(c, seat.t, ph, hi.normal), ch, told);
      }
    }
  }

  lemma AfterStepKeeps(hi: Hist, hi': Hist, x: nat, d: Data)
    requires AfterStep(hi, hi', x, d)
    ensures hi'.cols == hi.cols && hi'.normal == hi.normal && hi'.failed == hi.failed && |hi'.after| == |hi.after|
  {
  }

  /** A process, other than the sender, at the first error of its task: everything it has sent becomes stale,
      and it will meet an "error" before anything else. */
  lemma FirstErrorSeenByOther(c: Config, seat: Seat, hi: Hist, hi': Hist, x: nat, d: Data, ph: Phase, ch: seq<Reply>, pr: Process)
    requires AfterStep(hi, hi', x, d) && seat.x < |hi.normal| == |hi.cols| && seat.x != x
    requires !hi.failed && hi.cols[seat.x] == Some(seat.x) && NothingYet(hi, seat.x)
    requires NormalOk(c, seat, hi, ph, ch, pr)
    ensures ErrorOk(c, seat, hi', ph, ch + [ErrorReply], pr)
    ensures MinLen(hi'.after) == 0
  {
    hide MinLen, InRun, BaseOf, NothingYet, Aligned, AfterStep;
    OtherColumn(hi, hi', x, d, seat.x);
    AfterStepKeeps(hi, hi', x, d);
    if ph.WaitGo? {
      assert ErrorsAfter([Go(seat.x)], ch + [ErrorReply]) by {
        assert (ch + [ErrorReply])[..1] == [Go(seat.x)];
        assert (ch + [ErrorReply])[1..] == [ErrorReply];
      }
    } else {
      InRunIndex(c, seat, MinLen(hi.normal), ph, pr);
      if ph.WaitErrorGather? {
        StreamStale(c, seat, pr.index, pr.out[..|pr.out| - 1], pr.sent, hi.normal[seat.x]);
      } else {
        StreamStale(c, seat, pr.index, pr.out, pr.sent, hi.normal[seat.x]);
        assert (ch + [ErrorReply])[..|ch|] == ch;
        assert (ch + [ErrorReply])[|ch|..] == [ErrorReply];
        assert ErrorsAfter(BaseOf(c, seat.t, ph, hi.normal), ch + [ErrorReply]);
      }
    }
  }

  lemma InRunIndex(c: Config, seat: Seat, rows: nat, ph: Phase, pr: Process)
    requires InRun(c, seat, rows, ph, pr.index, pr.sent)
    ensures pr.index == Some(seat.x) && !ph.WaitGo? && !ph.WaitFinishAfterError?
  {
  }

  lemma StreamStale(c: Config, seat: Seat, index: Option<nat>, out: seq<Msg>, sent: seq<Data>, acc: seq<Data>)
    requires StreamOk(c, seat, index, out, sent, acc)
    ensures Stale(seat, out) && acc <= sent
  {
    forall y | 0 <= y < |out|
      ensures out[y].task == seat.t && !out[y].body.ErrorMsg? && (out[y].body.FinishedMsg? ==> !out[y].body.afterError)
    {
      assert out[y] == MsgFor(c, seat, index, |acc| + y, sent[|acc| + y]);
    }
  }

  /** The sender of an error message. */
  lemma ErrorSeenBySender(c: Config, seat: Seat, hi: Hist, hi': Hist, err: Option<int>, ch: seq<Reply>, pr: Process,
                          told: seq<Reply>, eg: seq<Reply>)
    requires AfterStep(hi, hi', seat.x, Err(err)) && seat.x < |hi.normal| == |hi.cols|
    requires NothingYet(hi, seat.x) && AllErrors(ch) && AllErrors(told) && pr.index == hi.cols[seat.x]
    requires pr.phase.WaitErrorGather? && (hi.failed || hi.normal[seat.x] <= pr.sent)
    requires eg == ErrorsTold(hi'.after)
    ensures ErrorOk(c, seat, hi', WaitErrorGather, ch + told + eg, pr.(out := []))
  {
    hide MinLen, Aligned;
    AllErrorsAppend(ch, told);
    assert eg != [] ==> (ch + told + eg)[..|ch + told + eg| - 1] == ch + told;
    assert eg == [] ==> ch + told + eg == ch + told;
  }

  // ------------------------------------------------------------ the manager's side

  ghost predicate Heard(queues: seq<ProcId>, channels: seq<seq<Reply>>, channels': seq<seq<Reply>>, more: seq<Reply>) {
    && |channels'| == |channels|
    && (forall q :: 0 <= q < |channels| && q !in queues ==> channels'[q] == channels[q])
    && (forall y :: 0 <= y < |queues| ==>
          queues[y] < |channels| && channels'[queues[y]] == channels[queues[y]] + more)
  }

  lemma HeardNothing(queues: seq<ProcId>, channels: seq<seq<Reply>>)
    requires forall y :: 0 <= y < |queues| ==> queues[y] < |channels|
    ensures Heard(queues, channels, channels, [])
  {
  }

  lemma HeardOne(queues: seq<ProcId>, channels: seq<seq<Reply>>, r: Reply)
    requires NoDup(queues) && forall y :: 0 <= y < |queues| ==> queues[y] < |channels|
    ensures Heard(queues, channels, PutAll(channels, queues, r), [r])
  {
    ManagerFrames.PutAllEffect(channels, queues, r);
    assert forall y :: 0 <= y < |queues| ==> queues[y] in queues;
  }

  lemma HeardMore(queues: seq<ProcId>, channels: seq<seq<Reply>>, a: seq<seq<Reply>>, b: seq<seq<Reply>>,
                  told: seq<Reply>, eg: seq<Reply>)
    requires Heard(queues, channels, a, told) && Heard(queues, a, b, eg)
    ensures Heard(queues, channels, b, told + eg)
  {
    forall y | 0 <= y < |queues| ensures b[queues[y]] == channels[queues[y]] + (told + eg) {
      assert channels[queues[y]] + (told + eg) == (channels[queues[y]] + told) + eg;
    }
  }

  function ToldFor(err: Option<int>): seq<Reply> {
    if err.Some? then [ErrorReply] else []
  }

  lemma EmptyAfter(acc: Streams<Data>)
    requires |acc| > 0 && AllEmpty(acc)
    ensures MinLen(acc) == 0 && Staircase(acc) == []
  {
    EmptyStreams(acc);
  }

  /** The deque before an error is filled in: the first error of the task clears it. */
  lemma DequeBeforeError(c: Config, t: TaskName, ti: TaskInfo, hi: Hist)
    requires HistShape(hi, |ti.queues|) && DequeOk(c, t, ti, hi)
    ensures (if ti.state == Error then ti.deque else []) == Staircase(hi.after)
    ensures ti.state != Error ==> MinLen(hi.after) == 0
  {
    if ti.state != Error {
      EmptyAfter(hi.after);
    }
  }

  /** fill_gater_data on the columns of a task in error. */
  lemma FillAfter(hi: Hist, x: nat, d: Data) returns (hi': Hist, bad: bool)
    requires HistShape(hi, |hi.cols|) && x < |hi.cols|
    ensures AfterStep(hi, hi', x, d) && HistShape(hi', |hi.cols|)
    ensures bad ==> !Aligned(hi.cols) && hi' == hi
    ensures MinLen(hi'.after) <= MinLen(hi.after) + 1
    ensures Fill(|hi.after|, Staircase(hi.after), hi.cols[x], d)
            == if bad then BadIndex
               else if MinLen(hi'.after) > MinLen(hi.after)
               then Returned(Staircase(hi'.after), RowAt(hi'.after, MinLen(hi.after)))
               else Kept(Staircase(hi'.after))
  {
    if Aligned(hi.cols) {
      FillAligned(hi.cols, hi.after, x, d);
      PushMin(hi.after, ColOf(hi.cols, x), d);
      hi' := hi.(after := Push(hi.after, ColOf(hi.cols, x), d));
      bad := false;
    } else {
      var col :| Orphan(hi, col);
      var after' := FillOrphaned(hi, hi.after, hi.cols[x], col, d);
      MinLenIs(hi.after, 0, col);
      hi' := hi.(after := after');
      assert Orphan(hi', col);
      bad := Fill(|hi.after|, Staircase(hi.after), hi.cols[x], d).BadIndex?;
    }
  }

  /** What the manager does with an "error", said by the outcome of fill_gater_data. */
  lemma ErrorHandled(l: Layout, m: Manager, t: TaskName, index: Option<nat>, err: Option<int>)
    requires exists i :: 0 <= i < |m.owner| && m.owner[i].Some?
    ensures var ti := InfoOf(m.info, t);
            var m' := Handle(l, m, Msg(t, index, ErrorMsg(err)), []);
            var told := if err.Some? then PutAll(m.channels, ti.queues, ErrorReply) else m.channels;
            && m'.owner == m.owner
            && match Fill(|ti.queues|, if ti.state == Error then ti.deque else [], index, Err(err))
               case BadIndex => m'.status == Crashed && m'.info == m.info && m'.channels == told
               case Kept(deque) =>
                 m'.status == m.status && m'.info == m.info[t := ti.(state := Error, deque := deque)] && m'.channels == told
               case Returned(deque, row) =>
                 && m'.status == m.status && m'.info == m.info[t := ti.(state := Error, deque := deque)]
                 && m'.channels == PutAll(told, ti.queues, ErrorGather(row))
  {
    hide Fill, PutAll;
  }

  lemma HandleError(c: Config, m: Manager, t: TaskName, hi: Hist, x: nat, err: Option<int>)
      returns (hi': Hist, bad: bool, eg: seq<Reply>)
    requires var ti := InfoOf(m.info, t);
             && HistShape(hi, |ti.queues|) && DequeOk(c, t, ti, hi) && x < |ti.queues|
             && NoDup(ti.queues) && forall y :: 0 <= y < |ti.queues| ==> ti.queues[y] < |m.channels|
    requires exists i :: 0 <= i < |m.owner| && m.owner[i].Some?
    requires MinLen(hi.after) == 0
    ensures AfterStep(hi, hi', x, Err(err)) && HistShape(hi', |hi.cols|) && MinLen(hi'.after) <= 1
    ensures bad ==> !Aligned(hi.cols) && hi' == hi
    ensures eg == ErrorsTold(hi'.after)
    ensures var ti := InfoOf(m.info, t);
            var m' := Handle(LayoutOf(c), m, Msg(t, hi.cols[x], ErrorMsg(err)), []);
            && m'.owner == m.owner && m'.status == (if bad then Crashed else m.status)
            && m'.info == (if bad then m.info
                           else m.info[t := ti.(state := Error, deque := Staircase(hi'.after))])
            && Heard(ti.queues, m.channels, m'.channels, ToldFor(err) + eg)
  {
    hide HistShape, DequeOk, AfterStep, MinLen, Staircase, RowAt, Fill, PutAll, Heard, Aligned, Handle;
    var ti := InfoOf(m.info, t);
    ManagerAccepts.ShapeLengths(hi, |ti.queues|);
    ErrorHandled(LayoutOf(c), m, t, hi.cols[x], err);
    DequeBeforeError(c, t, ti, hi);
    hi', bad := FillAfter(hi, x, Err(err));
    var told := if err.Some? then SendToTask(m, t, ErrorReply) else m;
    if err.Some? {
      HeardOne(ti.queues, m.channels, ErrorReply);
    } else {
      HeardNothing(ti.queues, m.channels);
    }
    assert Heard(ti.queues, m.channels, told.channels, ToldFor(err));
    AfterStepSame(hi, hi', x, Err(err));
    if !bad && MinLen(hi'.after) > 0 {
      var row := RowAt(hi'.after, 0);
      eg := [ErrorGather(row)];
      HeardOne(ti.queues, told.channels, ErrorGather(row));
      HeardMore(ti.queues, m.channels, told.channels, PutAll(told.channels, ti.queues, ErrorGather(row)), ToldFor(err), eg);
    } else {
      eg := [];
      assert ToldFor(err) + eg == ToldFor(err);
    }
  }

  lemma AfterStepSame(hi: Hist, hi': Hist, x: nat, d: Data)
    requires AfterStep(hi, hi', x, d)
    ensures |hi'.after| == |hi.after| == |hi.cols| > 0
  {
  }
}
