/** The finish barrier completes: every process of the task is released, and its pools wait to be handed over. */
module ManagerRelease {
  import opened Basics
  import opened Collectives
  import opened TaskModel
  import opened TaskProtocol
  import opened ProtocolInvariant
  import ProcessSteps
  import ManagerFrames
  import ManagerAccepts
  import opened ManagerErrors
  import ManagerErrorSteps

  // ------------------------------------------------------------ counting columns

  /** Every column belongs to a process. */
  lemma AlignedCovers(cols: seq<Option<nat>>, col: nat) returns (x: nat)
    requires Aligned(cols) && col < |cols|
    ensures x < |cols| && ColOf(cols, x) == col
  {
    if |cols| == 1 {
      x := 0;
    } else {
      var s := seq(|cols|, i requires 0 <= i < |cols| => ColOf(cols, i));
      forall i, j | 0 <= i < j < |s| ensures s[i] != s[j] {
        ColsDistinct(cols, i, j);
      }
      Pigeonhole(s);
      assert col in s;
      x :| 0 <= x < |s| && s[x] == col;
    }
  }

  /** If the indices are not aligned, some column belongs to nobody. */
  lemma OrphanExists(hi: Hist)
    requires |hi.cols| == |hi.after| >= 2 && AllEmpty(hi.after) && !Aligned(hi.cols)
    ensures exists col :: Orphan(hi, col)
  {
    var n := |hi.cols|;
    if forall col: nat :: col < n ==> Some(col) in hi.cols {
      var f := Owners(hi.cols, n);
      Pigeonhole(f);
      forall x | 0 <= x < n ensures hi.cols[x].Some? && hi.cols[x].value < n && f[hi.cols[x].value] == x {
        assert x in f;
      }
      assert NoDup(hi.cols);
      assert false;
    } else {
      var col: nat :| col < n && Some(col) !in hi.cols;
      assert Orphan(hi, col);
    }
  }

  lemma {:induction false} Owners(cols: seq<Option<nat>>, n: nat) returns (f: seq<nat>)
    requires forall col: nat :: col < n ==> Some(col) in cols
    ensures |f| == n && NoDup(f)
    ensures forall col :: 0 <= col < n ==> f[col] < |cols| && cols[f[col]] == Some(col)
  {
    if n == 0 {
      f := [];
    } else {
      var g := Owners(cols, n - 1);
      var x: nat :| x < |cols| && cols[x] == Some(n - 1);
      f := g + [x];
    }
  }

  // ------------------------------------------------------------ seats at the end of a task

  /** Everything is read and taken: the process only waits to be released. */
  ghost predicate Done(c: Config, t: TaskName, q: ProcId, pr: Process, ch: seq<Reply>)
    requires q < |c.home|
  {
    && (pr.phase.WaitFinish? || pr.phase.WaitFinishAfterError?)
    && ch == [] && pr.out == []
    && pr.at < |OrderOf(c, q)| && OrderOf(c, q)[pr.at] == t
  }

  function FinOf(c: Config, q: ProcId, pr: Process): Data
    requires q < |c.home|
  {
    Fin(c.home[q], NextTask(OrderOf(c, q), pr.at))
  }

  lemma NormalDone(c: Config, t: TaskName, ti: TaskInfo, hi: Hist, x: nat, d: Data, y: nat, q: ProcId, pr: Process, ch: seq<Reply>)
    requires q < |c.home| && x < |hi.normal| && y < |hi.normal| && ti.state != Error && !hi.failed
    requires ManagerFrames.SeatFine(c, t, ti, hi, y, q, pr, ch)
    requires ManagerAccepts.FinishRow(c, t, hi.normal, Push(hi.normal, x, d))
    requires y == x ==> pr.out != [] && !pr.out[0].body.ErrorMsg? && |hi.normal[x]| < |pr.sent| && d == pr.sent[|hi.normal[x]|]
    ensures Done(c, t, q, if y == x then pr.(out := pr.out[1..]) else pr, ch) && !pr.phase.WaitFinishAfterError?
    ensures |Program(c, t)| < |Push(hi.normal, x, d)[y]| && Push(hi.normal, x, d)[y][|Program(c, t)|] == FinOf(c, q, pr)
  {
    hide MinLen, NoneOutstanding;
    var acc, acc' := hi.normal, Push(hi.normal, x, d);
    PushMin(acc, x, d);
    assert |Program(c, t)| < MinLen(acc') <= |acc'[y]|;
    var order := OrderOf(c, q);
    var ph := PhaseOf(order, pr, ch);
    var out := if ph.WaitErrorGather? then pr.out[..|pr.out| - 1] else pr.out;
    StreamFull(c, ManagerFrames.SeatOf(c, t, y, q, pr, ch), hi, ph, RestOf(pr, ch), pr, acc'[y], y == x);
  }

  lemma StreamFull(c: Config, seat: Seat, hi: Hist, ph: Phase, ch: seq<Reply>, pr: Process, acc': seq<Data>, own: bool)
    requires seat.x < |hi.normal| && NormalOk(c, seat, hi, ph, ch, pr) && !ph.WaitGo?
    requires |Program(c, seat.t)| < |acc'|
    requires if own then && |hi.normal[seat.x]| < |pr.sent| && pr.out != [] && !pr.out[0].body.ErrorMsg?
                         && acc' == hi.normal[seat.x] + [pr.sent[|hi.normal[seat.x]|]]
             else acc' == hi.normal[seat.x]
    ensures ph.WaitFinish? && ch == [] && (if own then |pr.out| == 1 else pr.out == [])
    ensures acc'[|Program(c, seat.t)|] == Fin(seat.pool, seat.next)
  {
    hide MinLen, NoneOutstanding;
    assert InRun(c, seat, MinLen(hi.normal), ph, pr.index, pr.sent);
    if ph.WaitErrorGather? && own {
      ManagerErrorSteps.HeadOfFront(pr.out);
    }
  }

  lemma AfterErrorDone(c: Config, t: TaskName, ti: TaskInfo, hi: Hist, hi': Hist, x: nat, d: Data,
                       y: nat, q: ProcId, pr: Process, ch: seq<Reply>)
    requires q < |c.home| && HistShape(hi, |ti.queues|) && x < |ti.queues| && y < |ti.queues| && ti.state == Error
    requires AfterStep(hi, hi', x, d) && Aligned(hi.cols) && MinLen(hi'.after) == 2 && MinLen(hi.after) > 0
    requires ManagerFrames.SeatFine(c, t, ti, hi, y, q, pr, ch)
    requires y == x ==> && pr.out != [] && pr.out[0].body.FinishedMsg? && pr.out[0].body.afterError
                        && d == Fin(pr.out[0].body.pool, pr.out[0].body.next)
    ensures Done(c, t, q, if y == x then pr.(out := []) else pr, ch) && pr.phase.WaitFinishAfterError?
    ensures ColOf(hi.cols, y) < |hi'.after| && |hi'.after[ColOf(hi.cols, y)]| == 2
    ensures hi'.after[ColOf(hi.cols, y)][1] == FinOf(c, q, pr)
  {
    hide MinLen, AfterStep, NormalOk, ErrorOk, HistShape, Aligned, InRun, BaseOf, AllErrors, ErrorsAfter;
    ManagerAccepts.ShapeLengths(hi, |ti.queues|);
    AfterStepSame(hi, hi', x, d);
    ColsDistinct(hi.cols, y, y);
    if y == x {
      ManagerErrorSteps.HeadFinishAfterError(c, t, ti, hi, x, q, pr, ch);
      OwnColumn(hi, hi', x, d);
    } else {
      AfterErrorFull(c, ManagerFrames.SeatOf(c, t, y, q, pr, ch), hi, hi', x, d, PhaseOf(OrderOf(c, q), pr, ch), RestOf(pr, ch), pr);
    }
  }

  lemma OwnColumn(hi: Hist, hi': Hist, x: nat, d: Data)
    requires AfterStep(hi, hi', x, d) && Aligned(hi.cols) && OneError(hi, x)
    ensures ColOf(hi.cols, x) < |hi'.after| && |hi'.after[ColOf(hi.cols, x)]| == 2 && hi'.after[ColOf(hi.cols, x)][1] == d
  {
  }

  lemma AfterErrorFull(c: Config, seat: Seat, hi: Hist, hi': Hist, x: nat, d: Data, ph: Phase, ch: seq<Reply>, pr: Process)
    requires AfterStep(hi, hi', x, d) && Aligned(hi.cols) && seat.x < |hi.normal| == |hi.cols| && seat.x != x
    requires MinLen(hi'.after) == 2 && ErrorOk(c, seat, hi, ph, ch, pr)
    ensures ph.WaitFinishAfterError? && ch == [] && pr.out == []
    ensures ColOf(hi.cols, seat.x) < |hi'.after| && |hi'.after[ColOf(hi.cols, seat.x)]| == 2
    ensures hi'.after[ColOf(hi.cols, seat.x)][1] == Fin(seat.pool, seat.next)
  {
    hide Aligned, InRun, BaseOf, AllErrors, ErrorsAfter, MinLen;
    ColsDistinct(hi.cols, x, seat.x);
    assert hi'.after[ColOf(hi.cols, seat.x)] == hi.after[ColOf(hi.cols, seat.x)];
    assert MinLen(hi'.after) <= |hi'.after[ColOf(hi.cols, seat.x)]|;
  }

  // ------------------------------------------------------------ the released state

  ghost function PoolsOwning(owner: Owners, t: TaskName): set<PoolId> {
    set i | 0 <= i < |owner| && owner[i] == Some(t)
  }

  lemma ReleasedViews(c: Config, owner: Owners, t: TaskName, u: TaskName)
    requires t != u
    ensures Active(c, owner, PoolsOwning(owner, t), u) == Active(c, owner, {}, u)
    ensures Passed(c, owner, PoolsOwning(owner, t), u) == Passed(c, owner, {}, u)
    ensures forall i: PoolId :: Owns(owner, PoolsOwning(owner, t), i, u) == Owns(owner, {}, i, u)
    ensures forall i: PoolId :: PassedBy(c, owner, PoolsOwning(owner, t), i, u) == PassedBy(c, owner, {}, i, u)
  {
  }

  lemma ReleasedTask(c: Config, owner: Owners, t: TaskName)
    requires Active(c, owner, {}, t)
    ensures Passed(c, owner, PoolsOwning(owner, t), t)
  {
    forall i | 0 <= i < |c.pools| && InPool(c, i, t) ensures PassedBy(c, owner, PoolsOwning(owner, t), i, t) {
      assert Owns(owner, {}, i, t);
    }
  }

  lemma SamePrevFailedIf(l: Layout, info: Info, info': Info, u: TaskName)
    requires forall v :: (InfoOf(info', v).state == Error) == (InfoOf(info, v).state == Error)
    ensures SomePrevFailed(l, info', u) == SomePrevFailed(l, info, u)
  {
  }

  lemma ReleaseTaskOk(c: Config, s: State, h: History, t: TaskName, info': Info, u: TaskName)
    requires Inv(c, s, h, {}) && Active(c, s.m.owner, {}, t)
    requires forall v :: v != t ==> InfoOf(info', v) == InfoOf(s.m.info, v)
    requires forall v :: (InfoOf(info', v).state == Error) == (InfoOf(s.m.info, v).state == Error)
    requires InSomePool(c, u) && u != t
    ensures TaskOk(c, info', s.m.owner, h, PoolsOwning(s.m.owner, t), u)
  {
    hide HistShape, DequeOk, OrdersOk, PoolsOk, NoSourceOk, ProcOk, SomePrevFailed, PoolsOwning, Active, Passed, Owns, PassedBy,
         GraphOk, OwnersOk, IsSource;
    assert TaskOk(c, s.m.info, s.m.owner, h, {}, u);
    ReleasedViews(c, s.m.owner, t, u);
    SamePrevFailedIf(LayoutOf(c), s.m.info, info', u);
  }

  ghost predicate Freed(c: Config, t: TaskName, q: ProcId, pr: Process, ch: seq<Reply>)
    requires q < |c.home|
  {
    && Lagging(pr, ch) && pr.out == [] && RestOf(pr, ch) == []
    && pr.at < |OrderOf(c, q)| && OrderOf(c, q)[pr.at] == t
  }

  lemma DoneThenFreed(c: Config, t: TaskName, q: ProcId, pr: Process, ch: seq<Reply>)
    requires q < |c.home| && Done(c, t, q, pr, ch)
    ensures Freed(c, t, q, pr, ch + [FinishedReply])
  {
    assert (ch + [FinishedReply])[1..] == [];
  }

  lemma ReleaseProcOk(c: Config, s: State, h: History, t: TaskName, info': Info, q: ProcId)
    requires Inv(c, s, h, {}) && Active(c, s.m.owner, {}, t)
    requires forall v :: v != t ==> InfoOf(info', v) == InfoOf(s.m.info, v)
    requires q < |s.procs| && q !in InfoOf(s.m.info, t).queues
    ensures ProcOk(c, info', s.m.owner, h, PoolsOwning(s.m.owner, t), q, s.procs[q], s.m.channels[q])
  {
    hide SeatedOk, OrdersOk, GraphOk, NoSourceOk, TaskOk, Active, ActiveOk;
    ProcessSteps.TaskQueues(c, s, h, t);
    assert ProcOk(c, s.m.info, s.m.owner, h, {}, q, s.procs[q], s.m.channels[q]);
    assert s.m.owner[c.home[q]] != Some(t);
    if s.m.owner[c.home[q]].Some? {
      ReleasedViews(c, s.m.owner, t, s.m.owner[c.home[q]].value);
    }
  }

  lemma FreedProcOk(c: Config, info: Info, owner: Owners, h: History, t: TaskName, q: ProcId, pr: Process, ch: seq<Reply>)
    requires q < |c.home| && c.home[q] < |c.pools| == |owner| && owner[c.home[q]] == Some(t)
    requires Freed(c, t, q, pr, ch)
    ensures ProcOk(c, info, owner, h, PoolsOwning(owner, t), q, pr, ch)
  {
    hide SeatedOk, Active;
  }

  /** With every process freed, the pools of the task are released and nothing else has changed. */
  lemma ReleaseInv(c: Config, s: State, h: History, t: TaskName, s': State)
    requires Inv(c, s, h, {}) && Active(c, s.m.owner, {}, t)
    requires s'.m.owner == s.m.owner && |s'.procs| == |s.procs| && |s'.m.channels| == |s.m.channels|
    requires forall v :: v != t ==> InfoOf(s'.m.info, v) == InfoOf(s.m.info, v)
    requires var ti, ti' := InfoOf(s.m.info, t), InfoOf(s'.m.info, t);
             && ti'.waitPools == ti.waitPools
             && ti'.state == (if ti.state == Error then Error else Finished)
             && (HistOf(h, t).failed ==> ti.state == Error)
             && (forall q :: 0 <= q < |s.procs| && q !in ti.queues ==>
                   s'.procs[q] == s.procs[q] && s'.m.channels[q] == s.m.channels[q])
             && (forall y :: 0 <= y < |ti.queues| ==>
                   ti.queues[y] < |c.home| && ti.queues[y] < |s'.procs| &&
                   Freed(c, t, ti.queues[y], s'.procs[ti.queues[y]], s'.m.channels[ti.queues[y]]))
    ensures Inv(c, s', h, PoolsOwning(s'.m.owner, t))
  {
    hide OrdersOk, GraphOk, HistShape, DequeOk, ProcOk, SomePrevFailed, Freed, ManagerFrames.SeatFine, Active, Passed, Owns,
         PassedBy;
    ManagerFrames.SeatsOf(c, s, h, t);
    var ti, ti', owner := InfoOf(s.m.info, t), InfoOf(s'.m.info, t), s.m.owner;
    var released := PoolsOwning(owner, t);
    assert forall v :: (InfoOf(s'.m.info, v).state == Error) == (InfoOf(s.m.info, v).state == Error);
    assert TaskOk(c, s'.m.info, owner, h, released, t) by {
      ProcessSteps.ActiveNotPassed(c, owner, {}, t);
      ReleasedTask(c, owner, t);
      SamePrevFailedIf(LayoutOf(c), s.m.info, s'.m.info, t);
      assert TaskOk(c, s.m.info, owner, h, {}, t) by {
        InSome(c, owner, t);
      }
    }
    forall u | InSomePool(c, u) && u != t ensures TaskOk(c, s'.m.info, owner, h, released, u) {
      ReleaseTaskOk(c, s, h, t, s'.m.info, u);
    }
    NoSourceSame(c, s.m.info, s'.m.info, owner, t);
    forall q | 0 <= q < |s'.procs|
      ensures ProcOk(c, s'.m.info, owner, h, released, q, s'.procs[q], s'.m.channels[q])
    {
      if q in ti.queues {
        var y :| 0 <= y < |ti.queues| && ti.queues[y] == q;
        OwnedByQueue(c, owner, t, ti.queues, q);
        FreedProcOk(c, s'.m.info, owner, h, t, q, s'.procs[q], s'.m.channels[q]);
      } else {
        ReleaseProcOk(c, s, h, t, s'.m.info, q);
      }
    }
  }

  lemma InSome(c: Config, owner: Owners, t: TaskName)
    requires Active(c, owner, {}, t)
    ensures InSomePool(c, t)
  {
  }

  lemma OwnedByQueue(c: Config, owner: Owners, t: TaskName, queues: seq<ProcId>, q: ProcId)
    requires QueuesOk(c, owner, {}, t, queues) && q in queues
    ensures q < |c.home| && c.home[q] < |owner| && owner[c.home[q]] == Some(t)
  {
  }

  lemma NoSourceSame(c: Config, info: Info, info': Info, owner: Owners, t: TaskName)
    requires NoSourceOk(c, info) && Active(c, owner, {}, t)
    requires forall v :: v != t ==> InfoOf(info', v) == InfoOf(info, v)
    ensures NoSourceOk(c, info')
  {
  }
}
