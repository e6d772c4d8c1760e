/** What the manager takes from each process of a failed task, over whole runs: exactly one error, then exactly one finish. */
module ProtocolBarrier {
  import opened Basics
  import opened Collectives
  import opened TaskModel
  import opened TaskProtocol
  import opened ProtocolInvariant
  import opened ProcessSteps
  import opened ManagerFrames
  import ManagerAccepts
  import ManagerErrorSteps
  import ManagerHandOver
  import opened ManagerSteps
  import opened ProtocolRuns
  import opened ProtocolTheorems
  import opened ProtocolProgress
  import ProtocolOutcome
  import opened ProtocolErrors
  import ProtocolCalm
  import ProtocolSolo

  // ------------------------------------------------------------ what is taken

  /** What action `a` takes from process q for the error barrier of task t: an error, or a finish after the error. */
  ghost function TakenBy(s: State, a: Act, q: ProcId, t: TaskName): seq<Data> {
    if a.Manage? && a.p == q && q < |s.procs| && s.procs[q].out != [] && s.procs[q].out[0].task == t then
      (match s.procs[q].out[0].body
       case ErrorMsg(err) => [Err(err)]
       case FinishedMsg(pool, next, afterError) => if afterError then [Fin(pool, next)] else []
       case _ => [])
    else []
  }

  ghost function TakenIn(c: Config, s: State, acts: seq<Act>, q: ProcId, t: TaskName): seq<Data>
    decreases acts
  {
    if acts == [] || !Enabled(c, s, acts[0]) then []
    else TakenBy(s, acts[0], q, t) + TakenIn(c, Do(c, s, acts[0]), acts[1..], q, t)
  }

  /** One error, then one finish, and nothing else. */
  ghost predicate BothTaken(c: Config, q: ProcId, t: TaskName, taken: seq<Data>) {
    && |taken| == 2 && taken[0].Err? && taken[1].Fin?
    && q < |c.home| && taken[1].pool == c.home[q] && ManagerHandOver.IsNext(c, t, c.home[q], taken[1].next)
  }

  /** `tally` holds what has been taken from each process for task t. */
  ghost predicate Tallied(c: Config, s: State, h: History, t: TaskName, tally: seq<seq<Data>>) {
    && |tally| == |c.home|
    && (Passed(c, s.m.owner, {}, t) && InfoOf(s.m.info, t).state == Error ==>
          forall q :: q in Joined(c, t) ==> q < |tally| && BothTaken(c, q, t, tally[q]))
    && (Active(c, s.m.owner, {}, t) ==> ColumnsAre(InfoOf(s.m.info, t).queues, HistOf(h, t).after, tally))
    && (!Passed(c, s.m.owner, {}, t) && !Active(c, s.m.owner, {}, t) ==>
          forall q :: q in Joined(c, t) ==> q < |tally| && tally[q] == [])
  }

  ghost predicate ColumnsAre(queues: seq<ProcId>, after: Streams<Data>, tally: seq<seq<Data>>) {
    |after| == |queues| && forall x :: 0 <= x < |queues| ==> queues[x] < |tally| && tally[queues[x]] == after[x]
  }

  ghost function Grown(s: State, a: Act, t: TaskName, tally: seq<seq<Data>>): (r: seq<seq<Data>>)
    ensures |r| == |tally| && forall q :: 0 <= q < |r| ==> r[q] == tally[q] + TakenBy(s, a, q, t)
  {
    seq(|tally|, q requires 0 <= q < |tally| => tally[q] + TakenBy(s, a, q, t))
  }

  // ------------------------------------------------------------ the manager's turn

  lemma HandOverQueuesGrow(l: Layout, m: Manager, i: PoolId, next: Option<TaskName>, v: TaskName)
    ensures InfoOf(m.info, v).queues <= InfoOf(HandOver(l, m, i, next).info, v).queues
  {
    hide AllPrevFinished, SomePrevFailed, PutGo;
  }

  lemma {:induction false} HandOverAllQueuesGrow(l: Layout, m: Manager, pairs: seq<(PoolId, Option<TaskName>)>, v: TaskName)
    ensures InfoOf(m.info, v).queues <= InfoOf(HandOverAll(l, m, pairs).info, v).queues
    decreases pairs
  {
    hide HandOver;
    if pairs != [] && m.status != Crashed {
      HandOverQueuesGrow(l, m, pairs[0].0, pairs[0].1, v);
      HandOverAllQueuesGrow(l, HandOver(l, m, pairs[0].0, pairs[0].1), pairs[1..], v);
    }
  }

  /** A turn only ever appends to the queues of a task. */
  lemma HandleQueuesGrow(l: Layout, m: Manager, msg: Msg, pairs: seq<(PoolId, Option<TaskName>)>, v: TaskName)
    ensures InfoOf(m.info, v).queues <= InfoOf(Handle(l, m, msg, pairs).info, v).queues
  {
    hide FillGatherData, HandOverAll, PutAll, Put;
    match msg.body {
      case FinishedMsg(pool, next, afterError) =>
        ProtocolSolo.TakenQueues(m, msg.task, msg.index, Fin(pool, next), afterError, v);
        var taken := FillGatherData(m, msg.task, msg.index, Fin(pool, next), afterError);
        if taken.FullRow? {
          HandOverAllQueuesGrow(l, MarkFinished(SendToTask(taken.m, msg.task, FinishedReply), msg.task), pairs, v);
        }
      case ErrorMsg(err) =>
        var told := if err.Some? then SendToTask(m, msg.task, ErrorReply) else m;
        var ti := InfoOf(told.info, msg.task);
        ProtocolSolo.TakenQueues(WithInfo(told, msg.task, ti.(state := Error, deque := if ti.state == Error then ti.deque else [])),
                    msg.task, msg.index, Err(err), true, v);
      case Gather(dst, w) => ProtocolSolo.TakenQueues(m, msg.task, msg.index, Val(w), false, v);
      case AllGather(w) => ProtocolSolo.TakenQueues(m, msg.task, msg.index, Val(w), false, v);
    }
  }

  lemma SameQueues(a: seq<ProcId>, b: seq<ProcId>)
    requires a <= b && NoDup(b) && forall p :: p in b ==> p in a
    ensures a == b
  {
    assert b == a + b[|a|..];
    ProtocolSolo.AppendedNothing(a, b[|a|..]);
  }

  /** A turn puts a task in error only if its message is an error of that task. */
  lemma ErrorOnlyByError(l: Layout, m: Manager, msg: Msg, pairs: seq<(PoolId, Option<TaskName>)>, v: TaskName)
    requires !msg.body.ErrorMsg? || msg.task != v
    ensures InfoOf(Handle(l, m, msg, pairs).info, v).state == Error ==> InfoOf(m.info, v).state == Error
  {
    hide FillGatherData, HandOverAll, PutAll, Put;
    if msg.body.ErrorMsg? {
      var told := if msg.body.msg.Some? then SendToTask(m, msg.task, ErrorReply) else m;
      var ti := InfoOf(told.info, msg.task);
      var marked := WithInfo(told, msg.task, ti.(state := Error, deque := if ti.state == Error then ti.deque else []));
      TakeOnwards(marked, msg.task, msg.index, Err(msg.body.msg), true);
    } else {
      ProtocolCalm.HandleNoError(l, m, msg, pairs);
    }
  }

  lemma NothingTaken(s: State, a: Act, t: TaskName, tally: seq<seq<Data>>)
    requires forall q :: TakenBy(s, a, q, t) == []
    ensures Grown(s, a, t, tally) == tally
  {
    assert forall q :: 0 <= q < |tally| ==> Grown(s, a, t, tally)[q] == tally[q];
  }

  /** A message of another task. */
  lemma OtherMessage(s: State, a: Act, t: TaskName)
    requires !a.Manage? || (a.p < |s.procs| && s.procs[a.p].out != [] && s.procs[a.p].out[0].task != t)
    ensures forall q :: TakenBy(s, a, q, t) == []
  {
  }

  lemma FailedBefore(c: Config, s: State, h: History, a: Act, t: TaskName)
    requires Inv(c, s, h, {}) && Enabled(c, s, a) && !SomePrevFailed(LayoutOf(c), Do(c, s, a).m.info, t)
    ensures !SomePrevFailed(LayoutOf(c), s.m.info, t)
  {
    hide Inv, Enabled, Do, SomePrevFailed;
    StepOnwards(c, s, h, a);
    if SomePrevFailed(LayoutOf(c), s.m.info, t) {
      ProtocolOutcome.StillFailed(c, s.m, Do(c, s, a).m, t);
    }
  }

  /** Once passed, a task stays passed. */
  lemma PassedStays(c: Config, s: State, h: History, s': State, h': History, u: TaskName, t: TaskName)
    requires Inv(c, s, h, {}) && Inv(c, s', h', {}) && Passed(c, s.m.owner, {}, t)
    requires s'.m.owner == s.m.owner || StepHandsOver(c, s.m, s'.m, u)
    ensures Passed(c, s'.m.owner, {}, t)
  {
    hide PoolsOk, GraphOk, NoSourceOk, TaskOk, ProcOk, Shape;
    forall i | 0 <= i < |c.pools| && InPool(c, i, t) ensures PassedBy(c, s'.m.owner, {}, i, t) {
      assert PassedBy(c, s.m.owner, {}, i, t);
      assert s'.m.owner != s.m.owner ==> Hands(c, s.m.owner, s'.m.owner, u, i);
      HandsOnwards(c, s.m.owner, s'.m.owner, u, i);
    }
  }

  /** A pool only goes forward in its order. */
  lemma HandsOnwards(c: Config, owner: Owners, owner': Owners, u: TaskName, i: PoolId)
    requires OrdersOk(c) && i < |owner| && i < |owner'|
    requires owner'[i] == owner[i] || Hands(c, owner, owner', u, i)
    ensures owner[i].None? ==> owner'[i].None?
    ensures owner[i].Some? && owner'[i].Some? ==> Rank(c, owner'[i].value) >= Rank(c, owner[i].value)
  {
    if owner'[i] != owner[i] {
      var order := c.pools[i].order;
      var k :| 0 <= k < |order| && order[k] == u && owner'[i] == NextTask(order, k);
    }
  }

  lemma StateOfView(c: Config, s: State, h: History, t: TaskName)
    requires Inv(c, s, h, {}) && InSomePool(c, t)
    ensures Active(c, s.m.owner, {}, t) ==> InfoOf(s.m.info, t).state != Unstart || IsSource(c, t)
    ensures !Active(c, s.m.owner, {}, t) && !Passed(c, s.m.owner, {}, t) ==>
              InfoOf(s.m.info, t).state == Unstart && !IsSource(c, t)
  {
    hide PoolsOk, OrdersOk, GraphOk, NoSourceOk, ProcOk, Active, Passed, PassedOk, IsSource;
    assert TaskOk(c, s.m.info, s.m.owner, h, {}, t);
    if Active(c, s.m.owner, {}, t) {
      ActiveNotPassed(c, s.m.owner, {}, t);
    }
  }

  lemma ActiveThenPassed(c: Config, s: State, h: History, s': State, h': History, t: TaskName)
    requires Inv(c, s, h, {}) && Inv(c, s', h', {}) && Onwards(s.m, s'.m)
    requires Active(c, s.m.owner, {}, t) && !Active(c, s'.m.owner, {}, t)
    ensures Passed(c, s'.m.owner, {}, t)
  {
    hide Inv, Active, Passed, IsSource;
    InSomeTask(c, s.m.owner, t);
    StateOfView(c, s, h, t);
    StateOfView(c, s', h', t);
  }

  lemma InSomeTask(c: Config, owner: Owners, t: TaskName)
    requires Active(c, owner, {}, t) || Passed(c, owner, {}, t)
    ensures InSomePool(c, t)
  {
  }

  /** The queues of a task that stays active do not change. */
  lemma QueuesStay(c: Config, s: State, h: History, a: Act, h': History, t: TaskName)
    requires Inv(c, s, h, {}) && Enabled(c, s, a) && a.Manage? && Inv(c, Do(c, s, a), h', {})
    requires Active(c, s.m.owner, {}, t) && Active(c, Do(c, s, a).m.owner, {}, t)
    ensures InfoOf(Do(c, s, a).m.info, t).queues == InfoOf(s.m.info, t).queues
  {
    hide Inv, Active, PairsFit, Handle, QueuesOk;
    var s' := Do(c, s, a);
    HandleQueuesGrow(LayoutOf(c), s.m, s.procs[a.p].out[0], a.pairs, t);
    QueueMembers(c, s, h, t);
    QueueMembers(c, s', h', t);
    SameQueues(InfoOf(s.m.info, t).queues, InfoOf(s'.m.info, t).queues);
  }

  lemma QueueMembers(c: Config, s: State, h: History, t: TaskName)
    requires Inv(c, s, h, {}) && Active(c, s.m.owner, {}, t)
    ensures var queues := InfoOf(s.m.info, t).queues; NoDup(queues) && forall p: ProcId :: p in queues <==> p in Joined(c, t)
  {
    hide OrdersOk, GraphOk, NoSourceOk, ProcOk, TaskOk, ActiveOk, Active;
    TaskQueues(c, s, h, t);
    QueuesAreJoined(c, s.m.owner, t, InfoOf(s.m.info, t).queues);
  }

  /** The columns once process number x has had one more thing taken. */
  lemma ColumnsGrow(s: State, a: Act, t: TaskName, queues: seq<ProcId>, after: Streams<Data>, tally: seq<seq<Data>>, x: nat, d: Data)
    requires ColumnsAre(queues, after, tally) && NoDup(queues) && x < |queues| && a.p == queues[x]
    requires TakenBy(s, a, a.p, t) == [d]
    ensures ColumnsAre(queues, Push(after, x, d), Grown(s, a, t, tally))
  {
    forall y | 0 <= y < |queues| ensures Grown(s, a, t, tally)[queues[y]] == Push(after, x, d)[y] {
      if y != x {
        assert queues[y] != queues[x];
        assert TakenBy(s, a, queues[y], t) == [];
      }
    }
  }

  // ------------------------------------------------------------ the end of the barrier

  lemma ColumnOfSeat(c: Config, t: TaskName, ti: TaskInfo, hi: Hist, x: nat, body: Body, y: nat, q: ProcId, pr: Process, ch: seq<Reply>)
    requires q < |c.home| && HistShape(hi, |ti.queues|) && DequeOk(c, t, ti, hi) && x < |ti.queues| && y < |ti.queues|
    requires SeatFine(c, t, ti, hi, y, q, pr, ch) && ti.state == Error && !hi.failed && body.FinishedMsg?
    requires MinLen(Push(hi.after, x, Fin(body.pool, body.next))) == 2
    requires y == x ==> pr.out != [] && pr.out[0].body == body && body.afterError
    ensures y < |hi.after| && BothTaken(c, q, t, Push(hi.after, x, Fin(body.pool, body.next))[y])
  {
    hide MinLen, HistShape, DequeOk, ErrorOk, StageOf, PhaseOf, RestOf, AtOf, Aligned;
    ManagerAccepts.ShapeLengths(hi, |ti.queues|);
    BarrierSeat(c, t, ti, hi, y, q, pr, ch);
    var seat := SeatOf(c, t, y, q, pr, ch);
    EntriesBySeat(c, seat, hi, PhaseOf(OrderOf(c, q), pr, ch), RestOf(pr, ch), pr);
    assert |Push(hi.after, x, Fin(body.pool, body.next))[y]| >= 2;
    if y == x {
      ManagerErrorSteps.HeadFinishAfterError(c, t, ti, hi, x, q, pr, ch);
    }
    NextOfSeat(c, q, t, AtOf(pr, ch));
  }

  lemma NextOfSeat(c: Config, q: ProcId, t: TaskName, k: nat)
    requires q < |c.home| && k < |OrderOf(c, q)| && OrderOf(c, q)[k] == t
    ensures ManagerHandOver.IsNext(c, t, c.home[q], NextTask(OrderOf(c, q), k))
  {
  }

  // ------------------------------------------------------------ one step

  /** A turn about another task. */
  lemma OtherTally(c: Config, s: State, h: History, a: Act, h': History, u: TaskName, t: TaskName, tally: seq<seq<Data>>)
    requires Inv(c, s, h, {}) && Enabled(c, s, a) && a.Manage? && Inv(c, Do(c, s, a), h', {}) && InSomePool(c, t) && t != u
    requires Tallied(c, s, h, t, tally) && s.procs[a.p].out[0].task == u && SameElsewhere(c, s.m.owner, h, h', u)
    requires var s' := Do(c, s, a); s'.m.owner == s.m.owner || StepHandsOver(c, s.m, s'.m, u)
    ensures Tallied(c, Do(c, s, a), h', t, tally)
  {
    hide Inv, Handle, PairsFit, Active, Passed, BothTaken, IsSource, StepHandsOver;
    var s' := Do(c, s, a);
    ErrorOnlyByError(LayoutOf(c), s.m, s.procs[a.p].out[0], a.pairs, t);
    if Passed(c, s.m.owner, {}, t) {
      PassedStays(c, s, h, s', h', u, t);
      PassedNotActive(c, s'.m.owner, t);
    } else if Active(c, s.m.owner, {}, t) {
      OthersStay(c, s.m, s'.m, t, u);
      QueuesStay(c, s, h, a, h', t);
      ActiveNotPassed(c, s'.m.owner, {}, t);
    } else {
      StateOfView(c, s, h, t);
      if Active(c, s'.m.owner, {}, t) {
        ActiveNotPassed(c, s'.m.owner, {}, t);
        NewColumns(c, s', h', t, tally);
      }
    }
  }

  lemma PassedNotActive(c: Config, owner: Owners, t: TaskName)
    requires Passed(c, owner, {}, t)
    ensures !Active(c, owner, {}, t)
  {
    hide Active, Passed;
    if Active(c, owner, {}, t) {
      ActiveNotPassed(c, owner, {}, t);
    }
  }

  /** A task that has just become active has had nothing taken. */
  lemma NewColumns(c: Config, s: State, h: History, t: TaskName, tally: seq<seq<Data>>)
    requires Inv(c, s, h, {}) && Active(c, s.m.owner, {}, t) && InfoOf(s.m.info, t).state != Error && |tally| == |c.home|
    requires forall q :: q in Joined(c, t) ==> q < |tally| && tally[q] == []
    ensures ColumnsAre(InfoOf(s.m.info, t).queues, HistOf(h, t).after, tally)
  {
    hide Inv, Active;
    TaskQueues(c, s, h, t);
    QueueMembers(c, s, h, t);
    var queues := InfoOf(s.m.info, t).queues;
    forall x | 0 <= x < |queues| ensures queues[x] < |tally| && tally[queues[x]] == HistOf(h, t).after[x] {
      assert queues[x] in Joined(c, t);
    }
  }

  /** A turn about the task itself. */
  lemma OwnTally(c: Config, s: State, h: History, a: Act, h': History, t: TaskName, x: nat, tally: seq<seq<Data>>)
    requires Inv(c, s, h, {}) && Enabled(c, s, a) && a.Manage? && Inv(c, Do(c, s, a), h', {})
    requires Active(c, s.m.owner, {}, t) && !SomePrevFailed(LayoutOf(c), s.m.info, t)
    requires Tallied(c, s, h, t, tally) && s.procs[a.p].out[0].task == t
    requires x < |InfoOf(s.m.info, t).queues| && InfoOf(s.m.info, t).queues[x] == a.p
    requires Contributes(c, s, h, Do(c, s, a), h', t, x, s.procs[a.p].out[0].body)
    ensures Tallied(c, Do(c, s, a), h', t, Grown(s, a, t, tally))
  {
    hide Inv, Handle, PairsFit, Active, Passed, BothTaken, ColumnsAre, Contributes, SomePrevFailed, QueuesOk;
    var s' := Do(c, s, a);
    QueueMembers(c, s, h, t);
    ActiveNotPassed(c, s.m.owner, {}, t);
    if Active(c, s'.m.owner, {}, t) {
      ActiveNotPassed(c, s'.m.owner, {}, t);
      QueuesStay(c, s, h, a, h', t);
      StillColumns(c, s, h, a, s', h', t, x, tally);
    } else {
      StepOnwards(c, s, h, a);
      ActiveThenPassed(c, s, h, s', h', t);
      if InfoOf(s'.m.info, t).state == Error {
        EndOfBarrier(c, s, h, a, h', t, x, tally);
      }
    }
  }

  lemma StillColumns(c: Config, s: State, h: History, a: Act, s': State, h': History, t: TaskName, x: nat, tally: seq<seq<Data>>)
    requires Inv(c, s, h, {}) && Active(c, s.m.owner, {}, t) && Active(c, s'.m.owner, {}, t) && !SomePrevFailed(LayoutOf(c), s.m.info, t)
    requires ColumnsAre(InfoOf(s.m.info, t).queues, HistOf(h, t).after, tally) && |tally| == |c.home|
    requires a.Manage? && a.p < |s.procs| && s.procs[a.p].out != [] && s.procs[a.p].out[0].task == t
    requires x < |InfoOf(s.m.info, t).queues| && InfoOf(s.m.info, t).queues[x] == a.p && NoDup(InfoOf(s.m.info, t).queues)
    requires Contributes(c, s, h, s', h', t, x, s.procs[a.p].out[0].body)
    ensures ColumnsAre(InfoOf(s.m.info, t).queues, HistOf(h', t).after, Grown(s, a, t, tally))
  {
    hide Inv, Active, ColumnsAre, SomePrevFailed, HistShape, DequeOk, Push, MinLen, Aligned, OneError, NoDup, Grown;
    TaskQueues(c, s, h, t);
    IdentityCols(c, s, h, t, x);
    var body, queues, after := s.procs[a.p].out[0].body, InfoOf(s.m.info, t).queues, HistOf(h, t).after;
    if body.ErrorMsg? {
      ColumnsGrow(s, a, t, queues, after, tally, x, Err(body.msg));
    } else if body.FinishedMsg? && body.afterError {
      ColumnsGrow(s, a, t, queues, after, tally, x, Fin(body.pool, body.next));
    } else {
      NothingTaken(s, a, t, tally);
    }
  }

  lemma IdentityCols(c: Config, s: State, h: History, t: TaskName, x: nat)
    requires ActiveOk(c, s.m.info, h, t) && !SomePrevFailed(LayoutOf(c), s.m.info, t) && x < |InfoOf(s.m.info, t).queues|
    ensures var hi := HistOf(h, t);
            && HistShape(hi, |InfoOf(s.m.info, t).queues|) && !hi.failed && x < |hi.cols| && Aligned(hi.cols) && ColOf(hi.cols, x) == x
  {
    ManagerErrorSteps.IdentityAligned(HistOf(h, t), |InfoOf(s.m.info, t).queues|);
  }

  lemma EndOfBarrier(c: Config, s: State, h: History, a: Act, h': History, t: TaskName, x: nat, tally: seq<seq<Data>>)
    requires Inv(c, s, h, {}) && Enabled(c, s, a) && a.Manage? && Active(c, s.m.owner, {}, t) && !Active(c, Do(c, s, a).m.owner, {}, t)
    requires !SomePrevFailed(LayoutOf(c), s.m.info, t) && InfoOf(Do(c, s, a).m.info, t).state == Error
    requires ColumnsAre(InfoOf(s.m.info, t).queues, HistOf(h, t).after, tally) && |tally| == |c.home|
    requires s.procs[a.p].out[0].task == t && x < |InfoOf(s.m.info, t).queues| && InfoOf(s.m.info, t).queues[x] == a.p
    requires Contributes(c, s, h, Do(c, s, a), h', t, x, s.procs[a.p].out[0].body)
    ensures forall q :: q in Joined(c, t) ==> q < |tally| && BothTaken(c, q, t, Grown(s, a, t, tally)[q])
  {
    hide Inv, Handle, PairsFit, Active, SomePrevFailed, HistShape, DequeOk, Push, MinLen, Aligned, OneError, NoDup, SeatFine,
         BothTaken;
    var body, queues, hi := s.procs[a.p].out[0].body, InfoOf(s.m.info, t).queues, HistOf(h, t);
    StateShape(c, s, h);
    TaskQueues(c, s, h, t);
    SeatsOf(c, s, h, t);
    QueueMembers(c, s, h, t);
    IdentityCols(c, s, h, t, x);
    FinishEnds(c, s, h, a, h', t, x);
    var after := Push(hi.after, x, Fin(body.pool, body.next));
    ColumnsGrow(s, a, t, queues, hi.after, tally, x, Fin(body.pool, body.next));
    forall q | q in Joined(c, t) ensures q < |tally| && BothTaken(c, q, t, Grown(s, a, t, tally)[q]) {
      assert q in queues;
      var y :| 0 <= y < |queues| && queues[y] == q;
      QueueDistinct(queues, x, y);
      ColumnOfSeat(c, t, InfoOf(s.m.info, t), hi, x, body, y, q, s.procs[q], s.m.channels[q]);
    }
  }

  lemma QueueDistinct(queues: seq<ProcId>, x: nat, y: nat)
    requires NoDup(queues) && x < |queues| && y < |queues|
    ensures queues[x] == queues[y] ==> x == y
  {
  }

  /** Only the second full row ends a failed task. */
  lemma FinishEnds(c: Config, s: State, h: History, a: Act, h': History, t: TaskName, x: nat)
    requires Inv(c, s, h, {}) && Enabled(c, s, a) && a.Manage? && Active(c, s.m.owner, {}, t) && !Active(c, Do(c, s, a).m.owner, {}, t)
    requires InfoOf(Do(c, s, a).m.info, t).state == Error && !HistOf(h, t).failed
    requires s.procs[a.p].out[0].task == t && Contributes(c, s, h, Do(c, s, a), h', t, x, s.procs[a.p].out[0].body)
    requires x < |HistOf(h, t).cols| && ColOf(HistOf(h, t).cols, x) == x
    ensures var body := s.procs[a.p].out[0].body;
            && body.FinishedMsg? && body.afterError && InfoOf(s.m.info, t).state == Error && x < |HistOf(h, t).after|
            && MinLen(Push(HistOf(h, t).after, x, Fin(body.pool, body.next))) == 2
  {
    hide Inv, Handle, PairsFit, Active, Push, MinLen, Aligned, OneError;
    if !s.procs[a.p].out[0].body.ErrorMsg? {
      ErrorOnlyByError(LayoutOf(c), s.m, s.procs[a.p].out[0], a.pairs, t);
    }
  }

  lemma StepTally(c: Config, s: State, h: History, a: Act, t: TaskName, tally: seq<seq<Data>>) returns (h': History)
    requires Inv(c, s, h, {}) && Enabled(c, s, a) && InSomePool(c, t) && Tallied(c, s, h, t, tally)
    requires !SomePrevFailed(LayoutOf(c), Do(c, s, a).m.info, t)
    ensures Inv(c, Do(c, s, a), h', {}) && Tallied(c, Do(c, s, a), h', t, Grown(s, a, t, tally))
  {
    hide Inv, Handle, PairsFit, Receive, Issue, SendError, SomePrevFailed, Contributes, SameElsewhere, Aligned, Grown, Tallied,
         StepHandsOver;
    FailedBefore(c, s, h, a, t);
    if a.Manage? {
      var u, x;
      h', u, x := ManageKeeps(c, s, h, a.p, a.pairs);
      HeadIs(c, s, h, a.p, u);
      if u == t {
        OwnTally(c, s, h, a, h', t, x, tally);
      } else {
        OtherTally(c, s, h, a, h', u, t, tally);
        OtherMessage(s, a, t);
        NothingTaken(s, a, t, tally);
      }
    } else {
      h' := h;
      match a {
        case Recv(p) => RecvKeeps(c, s, h, p);
        case Contribute(p, v) => ContributeKeeps(c, s, h, p, v);
        case Fail(p, e) => FailKeeps(c, s, h, p, e);
      }
      OtherMessage(s, a, t);
      NothingTaken(s, a, t, tally);
      TalliedView(c, s, Do(c, s, a), h, t, tally);
    }
  }

  lemma HeadIs(c: Config, s: State, h: History, p: ProcId, u: TaskName)
    requires Inv(c, s, h, {}) && p < |s.procs| && s.procs[p].out != [] && Active(c, s.m.owner, {}, u)
    requires exists x :: 0 <= x < |InfoOf(s.m.info, u).queues| && InfoOf(s.m.info, u).queues[x] == p
    ensures s.procs[p].out[0].task == u
  {
    hide Inv, Active;
    SameOwner(c, s, h, p, u);
  }

  lemma TalliedView(c: Config, s: State, s': State, h: History, t: TaskName, tally: seq<seq<Data>>)
    requires Tallied(c, s, h, t, tally) && s'.m.owner == s.m.owner && s'.m.info == s.m.info
    ensures Tallied(c, s', h, t, tally)
  {
  }

  lemma NotFailedBefore(c: Config, s: State, h: History, acts: seq<Act>, s': State, t: TaskName)
    requires Inv(c, s, h, {}) && Runs(c, s, acts, s') && !SomePrevFailed(LayoutOf(c), s'.m.info, t)
    ensures !SomePrevFailed(LayoutOf(c), s.m.info, t)
  {
    hide Inv, Runs, SomePrevFailed;
    RunOnwards(c, s, h, acts, s');
    if SomePrevFailed(LayoutOf(c), s.m.info, t) {
      ProtocolOutcome.StillFailed(c, s.m, s'.m, t);
    }
  }

  lemma {:induction false} RunTally(c: Config, s: State, h: History, acts: seq<Act>, s': State, t: TaskName, tally: seq<seq<Data>>)
      returns (h': History, tally': seq<seq<Data>>)
    requires Inv(c, s, h, {}) && Runs(c, s, acts, s') && InSomePool(c, t) && Tallied(c, s, h, t, tally)
    requires !SomePrevFailed(LayoutOf(c), s'.m.info, t)
    ensures Inv(c, s', h', {}) && Tallied(c, s', h', t, tally') && |tally'| == |tally|
    ensures forall q :: 0 <= q < |tally| ==> tally'[q] == tally[q] + TakenIn(c, s, acts, q, t)
    decreases acts
  {
    hide Inv, Do, Enabled, SomePrevFailed, Tallied, TakenBy;
    if acts == [] {
      h', tally' := h, tally;
    } else {
      var s1 := Do(c, s, acts[0]);
      var h0 := StepKeeps(c, s, h, acts[0]);
      NotFailedBefore(c, s1, h0, acts[1..], s', t);
      var h1 := StepTally(c, s, h, acts[0], t, tally);
      h', tally' := RunTally(c, s1, h1, acts[1..], s', t, Grown(s, acts[0], t, tally));
    }
  }

  lemma InitialTally(c: Config, s: State, t: TaskName) returns (tally: seq<seq<Data>>)
    requires WellFormed(c) && Initial(c, s) && InSomePool(c, t)
    ensures Tallied(c, s, StartHistory(c, s.m), t, tally) && forall q :: 0 <= q < |tally| ==> tally[q] == []
  {
    hide OrdersOk, PoolsOk, GraphOk, Passed, Active, AtFirstReceive, IsSource;
    InitialGood(c, s);
    tally := Repeat([], |c.home|);
    assert InitialTask(c, s.m, t);
    JoinedBelow(c, t);
    if Active(c, s.m.owner, {}, t) {
      ActiveNotPassed(c, s.m.owner, {}, t);
      NewColumns(c, s, StartHistory(c, s.m), t, tally);
    }
  }

  lemma JoinedBelow(c: Config, t: TaskName)
    ensures forall q :: q in Joined(c, t) ==> q < |c.home|
  {
  }

  // ------------------------------------------------------------ exactly once

  lemma TallyOfRun(c: Config, s0: State, acts: seq<Act>, s: State, t: TaskName) returns (h: History, tally: seq<seq<Data>>)
    requires WellFormed(c) && Initial(c, s0) && Runs(c, s0, acts, s) && InSomePool(c, t)
    requires !SomePrevFailed(LayoutOf(c), s.m.info, t)
    ensures Inv(c, s, h, {}) && Tallied(c, s, h, t, tally) && |tally| == |c.home|
    ensures forall q :: 0 <= q < |tally| ==> tally[q] == TakenIn(c, s0, acts, q, t)
  {
    hide Inv, WellFormed, Initial, Runs, SomePrevFailed, TakenIn;
    InitialGood(c, s0);
    var empty := InitialTally(c, s0, t);
    h, tally := RunTally(c, s0, StartHistory(c, s0.m), acts, s, t, empty);
    TallyLength(c, s0, StartHistory(c, s0.m), t, empty);
  }

  lemma TallyLength(c: Config, s: State, h: History, t: TaskName, tally: seq<seq<Data>>)
    requires Tallied(c, s, h, t, tally)
    ensures |tally| == |c.home|
  {
  }

  /** A process that has left a failed task contributed exactly one error and then exactly one finish to its error barrier. */
  lemma ExactlyOneOfEach(c: Config, s0: State, acts: seq<Act>, s: State, t: TaskName, q: ProcId)
    requires WellFormed(c) && Initial(c, s0) && Runs(c, s0, acts, s)
    requires InfoOf(s.m.info, t).state == Error && !SomePrevFailed(LayoutOf(c), s.m.info, t) && HasFinished(c, s, q, t)
    ensures BothTaken(c, q, t, TakenIn(c, s0, acts, q, t))
  {
    hide Inv, WellFormed, Initial, Runs, SomePrevFailed, TakenIn, BothTaken, Passed, Active, ColumnsAre, HasFinished;
    AtPool(c, s, q, t);
    InitialGood(c, s0);
    var h0 := RunKeeps(c, s0, StartHistory(c, s0.m), acts, s);
    PoolOfProcess(c, s, h0, q, t);
    var h, tally := TallyOfRun(c, s0, acts, s, t);
    PassedIfFinished(c, s, h, q, t);
  }

  lemma AtPool(c: Config, s: State, q: ProcId, t: TaskName)
    requires HasFinished(c, s, q, t)
    ensures q < |s.procs| && t in OrderOf(c, q)
  {
  }

  lemma PoolOfProcess(c: Config, s: State, h: History, q: ProcId, t: TaskName)
    requires Inv(c, s, h, {}) && q < |s.procs| && t in OrderOf(c, q)
    ensures q < |c.home| && InPool(c, c.home[q], t) && InSomePool(c, t) && q in Joined(c, t)
  {
    hide OrdersOk, GraphOk, NoSourceOk, ProcOk, TaskOk;
  }

  /** One process is past a task only if all its pools are. */
  lemma PassedIfFinished(c: Config, s: State, h: History, q: ProcId, t: TaskName)
    requires Inv(c, s, h, {}) && HasFinished(c, s, q, t)
    ensures Passed(c, s.m.owner, {}, t)
  {
    hide PoolsOk, GraphOk, NoSourceOk, ProcOk, Active, PassedOk, ActiveOk, QueuesOk, AtOf;
    AtPool(c, s, q, t);
    PoolOfProcess(c, s, h, q, t);
    OwnerAt(c, s, h, q);
    var i := c.home[q];
    var k :| 0 <= k < |OrderOf(c, q)| && OrderOf(c, q)[k] == t && k < AtOf(s.procs[q], s.m.channels[q]);
    assert PassedBy(c, s.m.owner, {}, i, t);
    assert TaskOk(c, s.m.info, s.m.owner, h, {}, t);
    if Active(c, s.m.owner, {}, t) {
      ProtocolSolo.OwnsIt(c, s.m.owner, t, i);
    }
  }

  /** While the barrier lasts, the stage of a process says how much of the two has been taken. */
  lemma TakenByStage(c: Config, s0: State, acts: seq<Act>, s: State, t: TaskName, y: nat)
    requires WellFormed(c) && Initial(c, s0) && Runs(c, s0, acts, s)
    requires InErrorBarrier(c, s, t) && y < |InfoOf(s.m.info, t).queues|
    ensures var q := InfoOf(s.m.info, t).queues[y];
            var taken, st := TakenIn(c, s0, acts, q, t), StageIn(c, s, q);
            && |taken| == (match st case Unaware => 0 case Reporting => 0 case Reported => 1 case Leaving => 1 case Left => 2)
            && (taken != [] ==> taken[0].Err?) && (st.Left? ==> BothTaken(c, q, t, taken))
  {
    hide Inv, WellFormed, Initial, Runs, SomePrevFailed, TakenIn, Active, HistShape, DequeOk, SeatFine, StageOf, PhaseOf, RestOf,
         AtOf, ErrorOk, MinLen, Aligned;
    var h, tally := TallyInBarrier(c, s0, acts, s, t);
    var ti, hi := InfoOf(s.m.info, t), HistOf(h, t);
    SeatsOf(c, s, h, t);
    var q := ti.queues[y];
    BarrierSeat(c, t, ti, hi, y, q, s.procs[q], s.m.channels[q]);
    EntriesBySeat(c, SeatOf(c, t, y, q, s.procs[q], s.m.channels[q]), hi,
                  PhaseOf(OrderOf(c, q), s.procs[q], s.m.channels[q]), RestOf(s.procs[q], s.m.channels[q]), s.procs[q]);
    AtItsTask(c, s, h, t, q);
    NextOfSeat(c, q, t, AtOf(s.procs[q], s.m.channels[q]));
  }

  lemma TallyInBarrier(c: Config, s0: State, acts: seq<Act>, s: State, t: TaskName) returns (h: History, tally: seq<seq<Data>>)
    requires WellFormed(c) && Initial(c, s0) && Runs(c, s0, acts, s) && InErrorBarrier(c, s, t)
    ensures Inv(c, s, h, {}) && ColumnsAre(InfoOf(s.m.info, t).queues, HistOf(h, t).after, tally)
    ensures HistShape(HistOf(h, t), |InfoOf(s.m.info, t).queues|) && !HistOf(h, t).failed
    ensures |HistOf(h, t).normal| == |HistOf(h, t).cols| == |HistOf(h, t).after|
    ensures forall q :: 0 <= q < |tally| ==> tally[q] == TakenIn(c, s0, acts, q, t)
  {
    hide Inv, WellFormed, Initial, Runs, SomePrevFailed, TakenIn, Active, Passed, BothTaken, ColumnsAre, HistShape, DequeOk;
    InSomeTask(c, s.m.owner, t);
    h, tally := TallyOfRun(c, s0, acts, s, t);
    TaskQueues(c, s, h, t);
    ManagerAccepts.ShapeLengths(HistOf(h, t), |InfoOf(s.m.info, t).queues|);
  }

  /** The row that ends the first half of the barrier is the vector of the errors taken, one from every process. */
  lemma ErrorsGathered(c: Config, s0: State, acts: seq<Act>, s: State, t: TaskName, y: nat, row: seq<Data>)
    requires WellFormed(c) && Initial(c, s0) && Runs(c, s0, acts, s)
    requires InErrorBarrier(c, s, t) && y < |InfoOf(s.m.info, t).queues|
    requires var q := InfoOf(s.m.info, t).queues[y];
             var rest := RestOf(s.procs[q], s.m.channels[q]);
             StageIn(c, s, q).Reported? && rest != [] && rest[|rest| - 1] == ErrorGather(row)
    ensures var queues := InfoOf(s.m.info, t).queues;
            |row| == |queues| &&
            forall z :: 0 <= z < |queues| ==>
              var taken := TakenIn(c, s0, acts, queues[z], t); taken != [] && taken[0].Err? && row[z] == taken[0]
  {
    hide Inv, WellFormed, Initial, Runs, SomePrevFailed, TakenIn, Active, HistShape, DequeOk, SeatFine, StageOf, PhaseOf, RestOf,
         AtOf, ErrorOk, MinLen, Aligned, RowAt, OneError;
    var h, tally := TallyInBarrier(c, s0, acts, s, t);
    var ti, hi := InfoOf(s.m.info, t), HistOf(h, t);
    SeatsOf(c, s, h, t);
    var q := ti.queues[y];
    BarrierSeat(c, t, ti, hi, y, q, s.procs[q], s.m.channels[q]);
    RowOfErrors(c, SeatOf(c, t, y, q, s.procs[q], s.m.channels[q]), hi,
                PhaseOf(OrderOf(c, q), s.procs[q], s.m.channels[q]), RestOf(s.procs[q], s.m.channels[q]), s.procs[q], row);
    RowEntry(hi.after, y);
    forall z | 0 <= z < |ti.queues|
      ensures var taken := TakenIn(c, s0, acts, ti.queues[z], t); taken != [] && taken[0].Err? && row[z] == taken[0]
    {
      RowEntry(hi.after, z);
      TakenByStage(c, s0, acts, s, t, z);
    }
  }

  lemma RowEntry(acc: Streams<Data>, z: nat)
    requires z < |acc| && MinLen(acc) > 0
    ensures |RowAt(acc, 0)| == |acc| && acc[z] != [] && RowAt(acc, 0)[z] == acc[z][0]
  {
  }

  lemma RowOfErrors(c: Config, seat: Seat, hi: Hist, ph: Phase, ch: seq<Reply>, pr: Process, row: seq<Data>)
    requires seat.x < |hi.normal| == |hi.cols| == |hi.after| && ErrorOk(c, seat, hi, ph, ch, pr)
    requires StageOf(ph, pr.out).Reported? && ch != [] && ch[|ch| - 1] == ErrorGather(row)
    ensures MinLen(hi.after) > 0 && row == RowAt(hi.after, 0)
  {
    hide MinLen, RowAt, InRun, BaseOf, Aligned, OneError, NothingYet;
  }
}
