/** Every step of the manager keeps the protocol invariant. */
module ManagerSteps {
  import opened Basics
  import opened Collectives
  import opened TaskModel
  import opened TaskProtocol
  import opened ProtocolInvariant
  import ProcessSteps
  import opened ManagerFrames
  import opened ManagerAccepts
  import opened ManagerErrors
  import opened ManagerErrorSteps
  import opened ManagerRelease
  import opened ManagerHandOver

  // ------------------------------------------------------------ the pairs of a finish row

  /** d is the pair that process number y contributes to the finish row. */
  ghost predicate FinBy(c: Config, queues: seq<ProcId>, procs: seq<Process>, y: nat, d: Data) {
    && y < |queues| && queues[y] < |procs| && queues[y] < |c.home|
    && d == FinOf(c, queues[y], procs[queues[y]])
  }

  ghost predicate HasFin(c: Config, queues: seq<ProcId>, procs: seq<Process>, y: nat, row: seq<Data>) {
    exists j :: 0 <= j < |row| && FinBy(c, queues, procs, y, row[j])
  }

  ghost predicate FromSome(c: Config, queues: seq<ProcId>, procs: seq<Process>, d: Data) {
    exists y: nat :: FinBy(c, queues, procs, y, d)
  }

  /** The row holds the pairs of the processes of the task, one way or another. */
  ghost predicate RowOfFins(c: Config, queues: seq<ProcId>, procs: seq<Process>, row: seq<Data>) {
    && (forall y :: 0 <= y < |queues| ==> HasFin(c, queues, procs, y, row))
    && (forall j :: 0 <= j < |row| ==> FromSome(c, queues, procs, row[j]))
  }

  lemma RowAllFin(c: Config, queues: seq<ProcId>, procs: seq<Process>, row: seq<Data>)
    requires RowOfFins(c, queues, procs, row)
    ensures AllFin(row)
  {
  }

  lemma NextIsUnique(c: Config, t: TaskName, i: PoolId, a: Option<TaskName>, b: Option<TaskName>)
    requires OrdersOk(c) && IsNext(c, t, i, a) && IsNext(c, t, i, b)
    ensures a == b
  {
    var order := c.pools[i].order;
    var k :| 0 <= k < |order| && order[k] == t && a == NextTask(order, k);
    var k' :| 0 <= k' < |order| && order[k'] == t && b == NextTask(order, k');
  }

  /** Iterating the set of the row hands over each pool of the task exactly once, each to its own next task. */
  lemma RowPairs(c: Config, owner: Owners, t: TaskName, queues: seq<ProcId>, procs: seq<Process>, row: seq<Data>,
                 pairs: seq<(PoolId, Option<TaskName>)>)
    requires OrdersOk(c) && PoolsOk(c) && |owner| == |c.pools| && QueuesOk(c, owner, {}, t, queues)
    requires RowOfFins(c, queues, procs, row) && AllFin(row) && Lists(pairs, PairsOf(row))
    requires forall y :: 0 <= y < |queues| ==>
               && queues[y] < |procs| && queues[y] < |c.home|
               && procs[queues[y]].at < |OrderOf(c, queues[y])| && OrderOf(c, queues[y])[procs[queues[y]].at] == t
    ensures PairsOk(c, owner, t, PoolsOwning(owner, t), pairs)
  {
    hide OrdersOk, PoolsOk, QueuesOk;
    forall a | 0 <= a < |pairs|
      ensures IsNext(c, t, pairs[a].0, pairs[a].1) && pairs[a].0 in PoolsOwning(owner, t)
    {
      assert pairs[a] in PairsOf(row);
      PairOfRow(c, owner, t, queues, procs, row, pairs[a]);
    }
    forall a, b | 0 <= a < b < |pairs| ensures pairs[a].0 != pairs[b].0 {
      if pairs[a].0 == pairs[b].0 {
        NextIsUnique(c, t, pairs[a].0, pairs[a].1, pairs[b].1);
      }
    }
    forall i | i in PoolsOwning(owner, t) ensures exists a :: 0 <= a < |pairs| && pairs[a].0 == i {
      var q, next := PoolInRow(c, owner, t, queues, procs, row, i);
      assert (i, next) in pairs;
      var a :| 0 <= a < |pairs| && pairs[a] == (i, next);
    }
  }

  lemma PairOfRow(c: Config, owner: Owners, t: TaskName, queues: seq<ProcId>, procs: seq<Process>, row: seq<Data>,
                  pair: (PoolId, Option<TaskName>))
    requires PoolsOk(c) && |owner| == |c.pools| && QueuesOk(c, owner, {}, t, queues)
    requires RowOfFins(c, queues, procs, row) && AllFin(row) && pair in PairsOf(row)
    requires forall y :: 0 <= y < |queues| ==>
               && queues[y] < |procs| && queues[y] < |c.home|
               && procs[queues[y]].at < |OrderOf(c, queues[y])| && OrderOf(c, queues[y])[procs[queues[y]].at] == t
    ensures IsNext(c, t, pair.0, pair.1) && pair.0 in PoolsOwning(owner, t)
  {
    hide PoolsOk;
    var j :| 0 <= j < |row| && pair == (row[j].pool, row[j].next);
    assert FromSome(c, queues, procs, row[j]);
    var y: nat :| FinBy(c, queues, procs, y, row[j]);
    assert queues[y] in queues;
  }

  lemma PoolInRow(c: Config, owner: Owners, t: TaskName, queues: seq<ProcId>, procs: seq<Process>, row: seq<Data>, i: PoolId)
      returns (q: ProcId, next: Option<TaskName>)
    requires PoolsOk(c) && |owner| == |c.pools| && QueuesOk(c, owner, {}, t, queues)
    requires RowOfFins(c, queues, procs, row) && AllFin(row) && i in PoolsOwning(owner, t)
    ensures (i, next) in PairsOf(row)
  {
    Members(c, i);
    q := c.pools[i].procs[0];
    assert q in c.pools[i].procs;
    assert q in queues;
    var y :| 0 <= y < |queues| && queues[y] == q;
    assert HasFin(c, queues, procs, y, row);
    var j :| 0 <= j < |row| && FinBy(c, queues, procs, y, row[j]);
    next := row[j].next;
  }

  // ------------------------------------------------------------ from a full row to the handed-over pools

  lemma InvIgnoresStatus(c: Config, s: State, h: History, released: set<PoolId>, status: Status)
    requires Inv(c, s, h, released)
    ensures Inv(c, s.(m := s.m.(status := status)), h, released)
  {
    hide OrdersOk, GraphOk, NoSourceOk, TaskOk, ProcOk;
    var s' := s.(m := s.m.(status := status));
    forall p | 0 <= p < |s'.procs|
      ensures ProcOk(c, s'.m.info, s'.m.owner, h, released, p, s'.procs[p], s'.m.channels[p])
    {
      assert ProcOk(c, s.m.info, s.m.owner, h, released, p, s.procs[p], s.m.channels[p]);
    }
    forall t: TaskName | InSomePool(c, t) ensures TaskOk(c, s'.m.info, s'.m.owner, h, released, t) {
      assert TaskOk(c, s.m.info, s.m.owner, h, released, t);
    }
  }

  /** The other active tasks keep their histories. */
  ghost predicate SameElsewhere(c: Config, owner: Owners, h: History, h': History, t: TaskName) {
    forall v: TaskName :: v != t && Active(c, owner, {}, v) ==> HistOf(h', v) == HistOf(h, v)
  }

  lemma ElsewhereInRelease(c: Config, owner: Owners, h: History, h': History, t: TaskName)
    requires SameHist(c, owner, PoolsOwning(owner, t), h, h')
    ensures SameElsewhere(c, owner, h, h', t)
  {
    forall v: TaskName | v != t && Active(c, owner, {}, v) ensures HistOf(h', v) == HistOf(h, v) {
      assert forall i :: Owns(owner, {}, i, v) ==> Owns(owner, PoolsOwning(owner, t), i, v);
      assert Active(c, owner, PoolsOwning(owner, t), v);
    }
  }

  /** Every pool of the task has gone on. */
  lemma NotActiveAnyMore(c: Config, owner: Owners, owner': Owners, t: TaskName)
    requires OrdersOk(c) && Active(c, owner, {}, t)
    requires forall j :: j in PoolsOwning(owner, t) ==> j < |owner'| && IsNext(c, t, j, owner'[j])
    ensures !Active(c, owner', {}, t)
  {
    var i :| 0 <= i < |c.pools| && InPool(c, i, t);
    assert Owns(owner, {}, i, t) && i in PoolsOwning(owner, t);
    assert i < |owner'| && IsNext(c, t, i, owner'[i]);
    var order := c.pools[i].order;
    var k :| 0 <= k < |order| && order[k] == t && owner'[i] == NextTask(order, k);
    assert !Owns(owner', {}, i, t);
  }

  lemma ElsewhereSame(c: Config, owner: Owners, h: History, t: TaskName)
    ensures SameElsewhere(c, owner, h, h, t)
  {
  }

  lemma ElsewhereNew(c: Config, owner: Owners, h: History, t: TaskName, hi: Hist)
    ensures SameElsewhere(c, owner, h, NewHist(h, t, hi), t) && HistOf(NewHist(h, t, hi), t) == hi
  {
  }

  /** Pool j has kept its owner, or task t has handed it over to the next task of its order. */
  ghost predicate Hands(c: Config, owner: Owners, owner': Owners, t: TaskName, j: PoolId) {
    && j < |owner| && j < |owner'|
    && (owner'[j] == owner[j] || (owner[j] == Some(t) && IsNext(c, t, j, owner'[j])))
  }

  /** Only pools of task t have changed hands, and nothing has gone wrong. */
  ghost predicate OnlyHandsOver(c: Config, m: Manager, m': Manager, t: TaskName) {
    && m'.status == m.status && |m'.owner| == |m.owner|
    && forall j :: 0 <= j < |m.owner| ==> Hands(c, m.owner, m'.owner, t, j)
  }

  /** More messages than one turn of the manager's loop ever sends: one to each process per pool handed over, and two more. */
  function MostReplies(c: Config): nat {
    |c.pools| * |c.home| + 2 * |c.home|
  }

  /** The finish row of an active task is complete: everybody is released and every pool is handed over. */
  lemma FullRowKeeps(c: Config, s: State, h: History, t: TaskName, deque: seq<Row<Data>>, row: seq<Data>,
                     procs: seq<Process>, pairs: seq<(PoolId, Option<TaskName>)>, status: Status) returns (h': History)
    requires Inv(c, s, h, {}) && Active(c, s.m.owner, {}, t) && s.m.status == Looping
    requires var ti := InfoOf(s.m.info, t);
             && (HistOf(h, t).failed ==> ti.state == Error)
             && |procs| == |s.procs|
             && (forall q :: 0 <= q < |s.procs| && q !in ti.queues ==> procs[q] == s.procs[q])
             && (forall y :: 0 <= y < |ti.queues| ==>
                   && ti.queues[y] < |procs| && ti.queues[y] < |c.home| && ti.queues[y] < |s.m.channels|
                   && Done(c, t, ti.queues[y], procs[ti.queues[y]], s.m.channels[ti.queues[y]]))
             && RowOfFins(c, ti.queues, procs, row) && AllFin(row) && Lists(pairs, PairsOf(row))
    ensures var m1 := WithInfo(s.m, t, InfoOf(s.m.info, t).(deque := deque));
            Inv(c, State(SetTaskFinished(LayoutOf(c), SendToTask(m1, t, FinishedReply), t, pairs).(status := status), procs), h', {})
    ensures var m1 := WithInfo(s.m, t, InfoOf(s.m.info, t).(deque := deque));
            && OnlyHandsOver(c, s.m, SetTaskFinished(LayoutOf(c), SendToTask(m1, t, FinishedReply), t, pairs), t)
            && Total(SetTaskFinished(LayoutOf(c), SendToTask(m1, t, FinishedReply), t, pairs).channels)
               <= Total(s.m.channels) + MostReplies(c)
    ensures SameElsewhere(c, s.m.owner, h, h', t)
    ensures var m1 := WithInfo(s.m, t, InfoOf(s.m.info, t).(deque := deque));
            !Active(c, SetTaskFinished(LayoutOf(c), SendToTask(m1, t, FinishedReply), t, pairs).owner, {}, t)
  {
    hide OrdersOk, PoolsOk, GraphOk, NoSourceOk, TaskOk, ProcOk, HistShape, DequeOk, Active, Freed, PutAll, SameHist,
         SameElsewhere, RowOfFins, Lists, HandOverAll, PairsOk, QueuesOk, PoolsOwning, Total;
    SeatsOf(c, s, h, t);
    var ti := InfoOf(s.m.info, t);
    var m1 := WithInfo(s.m, t, ti.(deque := deque));
    var m2 := MarkFinished(SendToTask(m1, t, FinishedReply), t);
    var s2 := State(m2, procs);
    QueueFacts(c, s.m.owner, t, ti.queues);
    PutAllEffect(s.m.channels, ti.queues, FinishedReply);
    QueueBound(c, s.m.owner, {}, t, ti.queues);
    PutAllGrowth(s.m.channels, ti.queues, FinishedReply);
    forall y | 0 <= y < |ti.queues|
      ensures ti.queues[y] < |c.home| && Freed(c, t, ti.queues[y], s2.procs[ti.queues[y]], s2.m.channels[ti.queues[y]])
    {
      assert ti.queues[y] in ti.queues;
      DoneThenFreed(c, t, ti.queues[y], procs[ti.queues[y]], s.m.channels[ti.queues[y]]);
    }
    ReleaseInv(c, s, h, t, s2);
    RowPairs(c, s.m.owner, t, ti.queues, procs, row, pairs);
    PairsBound(c, s.m.owner, t, PoolsOwning(s.m.owner, t), pairs);
    h' := HandOverAllKeeps(c, s2, h, PoolsOwning(s.m.owner, t), t, pairs);
    ElsewhereInRelease(c, s.m.owner, h, h', t);
    NotActiveAnyMore(c, s.m.owner, HandOverAll(LayoutOf(c), m2, pairs).owner, t);
    NotOwning(s.m.owner, t);
    var s3 := s2.(m := HandOverAll(LayoutOf(c), s2.m, pairs));
    InvIgnoresStatus(c, s3, h', {}, status);
  }

  lemma NotOwning(owner: Owners, t: TaskName)
    ensures forall j :: 0 <= j < |owner| && owner[j] != Some(t) ==> j !in PoolsOwning(owner, t)
  {
  }

  lemma QueueFacts(c: Config, owner: Owners, t: TaskName, queues: seq<ProcId>)
    requires QueuesOk(c, owner, {}, t, queues)
    ensures NoDup(queues) && forall y :: 0 <= y < |queues| ==> queues[y] < |c.home|
  {
    QueueIds(c, owner, {}, t, queues);
  }

  /** A whole step: only pools of task t change hands, and the manager stops exactly when no pool is left. */
  ghost predicate StepHandsOver(c: Config, m: Manager, m': Manager, t: TaskName) {
    && |m'.owner| == |m.owner|
    && (forall j :: 0 <= j < |m.owner| ==> Hands(c, m.owner, m'.owner, t, j))
    && (m.status == Looping ==>
          m'.status == if forall j :: 0 <= j < |m'.owner| ==> m'.owner[j].None? then Stopped else Looping)
  }

  lemma SettleHandsOver(c: Config, m: Manager, m': Manager, t: TaskName)
    requires OnlyHandsOver(c, m, m', t)
    ensures StepHandsOver(c, m, Settle(m'), t)
  {
  }

  lemma NoHandOver(c: Config, m: Manager, m': Manager, t: TaskName)
    requires m'.owner == m.owner && m'.status == m.status && exists i :: 0 <= i < |m.owner| && m.owner[i].Some?
    ensures StepHandsOver(c, m, m', t)
  {
  }

  /** A full row of finishes hands the task's pools over. */
  lemma FullRowHandled(c: Config, s: State, p: ProcId, pairs: seq<(PoolId, Option<TaskName>)>, t: TaskName, m1: Manager, row: seq<Data>)
    requires Enabled(c, s, Manage(p, pairs)) && s.procs[p].out[0].task == t && s.procs[p].out[0].body.FinishedMsg?
    requires var msg := s.procs[p].out[0];
             FillGatherData(s.m, t, msg.index, Fin(msg.body.pool, msg.body.next), msg.body.afterError) == FullRow(m1, row)
    requires AllFin(row)
    ensures Do(c, s, Manage(p, pairs)).procs == s.procs[p := s.procs[p].(out := s.procs[p].out[1..])]
    ensures Do(c, s, Manage(p, pairs)).m
            == Settle(SetTaskFinished(LayoutOf(c), SendToTask(m1, t, FinishedReply), t, pairs))
    ensures Lists(pairs, PairsOf(row))
  {
    hide FillGatherData, AllFin, SetTaskFinished, Lists, Settle, SendToTask;
  }

  /** The manager takes the message that completes a barrier. */
  lemma BarrierCompletes(c: Config, s: State, h: History, p: ProcId, pairs: seq<(PoolId, Option<TaskName>)>, t: TaskName,
                         deque: seq<Row<Data>>, row: seq<Data>) returns (h': History)
    requires Inv(c, s, h, {}) && Enabled(c, s, Manage(p, pairs)) && Active(c, s.m.owner, {}, t)
    requires s.procs[p].out[0].task == t && s.procs[p].out[0].body.FinishedMsg? && p in InfoOf(s.m.info, t).queues
    requires HistOf(h, t).failed ==> InfoOf(s.m.info, t).state == Error
    requires var msg, ti := s.procs[p].out[0], InfoOf(s.m.info, t);
             FillGatherData(s.m, t, msg.index, Fin(msg.body.pool, msg.body.next), msg.body.afterError)
             == FullRow(WithInfo(s.m, t, ti.(deque := deque)), row)
    requires var procs, queues := s.procs[p := s.procs[p].(out := s.procs[p].out[1..])], InfoOf(s.m.info, t).queues;
             && (forall y :: 0 <= y < |queues| ==>
                   && queues[y] < |procs| && queues[y] < |c.home| && queues[y] < |s.m.channels|
                   && Done(c, t, queues[y], procs[queues[y]], s.m.channels[queues[y]]))
             && RowOfFins(c, queues, procs, row) && AllFin(row)
    ensures Inv(c, Do(c, s, Manage(p, pairs)), h', {})
    ensures StepHandsOver(c, s.m, Do(c, s, Manage(p, pairs)).m, t)
    ensures Total(Do(c, s, Manage(p, pairs)).m.channels) <= Total(s.m.channels) + MostReplies(c)
    ensures SameElsewhere(c, s.m.owner, h, h', t)
    ensures !Active(c, Do(c, s, Manage(p, pairs)).m.owner, {}, t)
  {
    hide Inv, PairsFit, Handle, Active, FillGatherData, Lists, AllFin, RowOfFins, SetTaskFinished, Total, SameElsewhere, Done,
         OnlyHandsOver, StepHandsOver, SendToTask;
    var m1 := WithInfo(s.m, t, InfoOf(s.m.info, t).(deque := deque));
    FullRowHandled(c, s, p, pairs, t, m1, row);
    var s' := Do(c, s, Manage(p, pairs));
    h' := FullRowKeeps(c, s, h, t, deque, row, s'.procs, pairs, s'.m.status);
    SettleHandsOver(c, s.m, SetTaskFinished(LayoutOf(c), SendToTask(m1, t, FinishedReply), t, pairs), t);
  }

  /** The manager takes the last contribution of a finish barrier. */
  lemma FinishKeeps(c: Config, s: State, h: History, p: ProcId, pairs: seq<(PoolId, Option<TaskName>)>, t: TaskName, x: nat)
      returns (h': History)
    requires Inv(c, s, h, {}) && Enabled(c, s, Manage(p, pairs)) && Active(c, s.m.owner, {}, t)
    requires var ti := InfoOf(s.m.info, t); x < |ti.queues| && ti.queues[x] == p && ti.state != Error
    requires !HistOf(h, t).failed && !s.procs[p].out[0].body.ErrorMsg?
    requires x < |HistOf(h, t).normal| && |HistOf(h, t).normal[x]| < |s.procs[p].sent|
    requires FinishRow(c, t, HistOf(h, t).normal,
                       Push(HistOf(h, t).normal, x, s.procs[p].sent[|HistOf(h, t).normal[x]|]))
    ensures Inv(c, Do(c, s, Manage(p, pairs)), h', {})
    ensures StepHandsOver(c, s.m, Do(c, s, Manage(p, pairs)).m, t)
    ensures Total(Do(c, s, Manage(p, pairs)).m.channels) <= Total(s.m.channels) + MostReplies(c)
    ensures SameElsewhere(c, s.m.owner, h, h', t)
    ensures !Active(c, Do(c, s, Manage(p, pairs)).m.owner, {}, t)
  {
    hide WellFormed, OwnersOk, NoSourceOk, TaskOk, ProcOk, SeatFine, HistShape, DequeOk, Active, FillGatherData, NormalOk,
         ErrorOk, SeatedOk, Push, MinLen, Staircase, Lists, AllFin, RowOfFins, SetTaskFinished, RowAt, QueuesOk, ActiveOk, Total,
         SameElsewhere, Do, StepHandsOver;
    NormalFacts(c, s, h, p, t, x);
    var ti, hi, pr, ch := InfoOf(s.m.info, t), HistOf(h, t), s.procs[p], s.m.channels[p];
    ShapeLengths(hi, |ti.queues|);
    var seat := OwnSeat(c, t, ti, hi, x, p, pr, ch);
    var d := pr.sent[|hi.normal[x]|];
    var acc' := Push(hi.normal, x, d);
    PushMin(hi.normal, x, d);
    assert (hi.normal[x] + [d])[|hi.normal[x]|] == d;
    TakeNormal(c, s.m, t, hi, x, d, false);
    var row := RowAt(acc', |Program(c, t)|);
    var procs := s.procs[p := pr.(out := pr.out[1..])];
    assert p == ti.queues[x] && p in ti.queues;
    forall y | 0 <= y < |ti.queues|
      ensures ti.queues[y] < |c.home| && Done(c, t, ti.queues[y], procs[ti.queues[y]], s.m.channels[ti.queues[y]])
      ensures |Program(c, t)| < |acc'[y]| && FinBy(c, ti.queues, procs, y, acc'[y][|Program(c, t)|])
    {
      NormalDone(c, t, ti, hi, x, d, y, ti.queues[y], s.procs[ti.queues[y]], s.m.channels[ti.queues[y]]);
    }
    RowFromColumns(c, ti.queues, procs, acc', |Program(c, t)|);
    RowAllFin(c, ti.queues, procs, row);
    h' := BarrierCompletes(c, s, h, p, pairs, t, Staircase(acc'), row);
  }

  lemma RowFromColumns(c: Config, queues: seq<ProcId>, procs: seq<Process>, acc: Streams<Data>, k: nat)
    requires |acc| == |queues| > 0 && k < MinLen(acc)
    requires forall y :: 0 <= y < |queues| ==> k < |acc[y]| && FinBy(c, queues, procs, y, acc[y][k])
    ensures RowOfFins(c, queues, procs, RowAt(acc, k))
  {
    hide MinLen, FinBy;
    var row := RowAt(acc, k);
    forall y | 0 <= y < |queues|
      ensures HasFin(c, queues, procs, y, row) && FromSome(c, queues, procs, row[y])
    {
      assert FinBy(c, queues, procs, y, acc[y][k]) && row[y] == acc[y][k];
    }
  }

  lemma RowFromAligned(c: Config, queues: seq<ProcId>, procs: seq<Process>, cols: seq<Option<nat>>, acc: Streams<Data>, k: nat)
    requires Aligned(cols) && |acc| == |queues| == |cols| > 0 && k < MinLen(acc)
    requires forall y :: 0 <= y < |queues| ==>
               && ColOf(cols, y) < |acc| && k < |acc[ColOf(cols, y)]|
               && FinBy(c, queues, procs, y, acc[ColOf(cols, y)][k])
    ensures RowOfFins(c, queues, procs, RowAt(acc, k))
  {
    hide MinLen, Aligned, FinBy;
    var row := RowAt(acc, k);
    forall y | 0 <= y < |queues| ensures HasFin(c, queues, procs, y, row) {
      assert row[ColOf(cols, y)] == acc[ColOf(cols, y)][k];
    }
    forall j | 0 <= j < |row| ensures FromSome(c, queues, procs, row[j]) {
      var y := AlignedCovers(cols, j);
      assert FinBy(c, queues, procs, y, row[j]);
    }
  }

  /** The manager takes the last finish of an error barrier. */
  lemma FinishAfterErrorCompletes(c: Config, s: State, h: History, p: ProcId, pairs: seq<(PoolId, Option<TaskName>)>,
                                  t: TaskName, x: nat, hi': Hist) returns (h': History)
    requires Inv(c, s, h, {}) && Enabled(c, s, Manage(p, pairs)) && Active(c, s.m.owner, {}, t)
    requires var ti := InfoOf(s.m.info, t); x < |ti.queues| && ti.queues[x] == p && ti.state == Error
    requires var body := s.procs[p].out[0].body; body.FinishedMsg? && body.afterError
    requires var m, hi, body := s.m, HistOf(h, t), s.procs[p].out[0].body;
             var ti := InfoOf(m.info, t);
             && AfterStep(hi, hi', x, Fin(body.pool, body.next)) && HistShape(hi', |hi.cols|)
             && MinLen(hi'.after) == 2
             && |hi'.after| > 0
             && FillGatherData(m, t, hi.cols[x], Fin(body.pool, body.next), true)
                == FullRow(WithInfo(m, t, ti.(deque := Staircase(hi'.after))), RowAt(hi'.after, 1))
    ensures Inv(c, Do(c, s, Manage(p, pairs)), h', {})
    ensures StepHandsOver(c, s.m, Do(c, s, Manage(p, pairs)).m, t)
    ensures Total(Do(c, s, Manage(p, pairs)).m.channels) <= Total(s.m.channels) + MostReplies(c)
    ensures SameElsewhere(c, s.m.owner, h, h', t)
    ensures !Active(c, Do(c, s, Manage(p, pairs)).m.owner, {}, t)
  {
    hide WellFormed, OwnersOk, NoSourceOk, TaskOk, ProcOk, SeatFine, HistShape, DequeOk, Active, FillGatherData, AfterStep,
         NormalOk, ErrorOk, SeatedOk, Push, MinLen, Staircase, Lists, AllFin, RowOfFins, SetTaskFinished, RowAt, QueuesOk,
         ActiveOk, Aligned, Total, SameElsewhere, Do, StepHandsOver;
    NormalFacts(c, s, h, p, t, x);
    var ti, hi, pr, ch := InfoOf(s.m.info, t), HistOf(h, t), s.procs[p], s.m.channels[p];
    ShapeLengths(hi, |ti.queues|);
    HeadFinishAfterError(c, t, ti, hi, x, p, pr, ch);
    var d := Fin(pr.out[0].body.pool, pr.out[0].body.next);
    AfterStepSame(hi, hi', x, d);
    var row := RowAt(hi'.after, 1);
    assert pr.out[1..] == [];
    var procs := s.procs[p := pr.(out := [])];
    assert p == ti.queues[x] && p in ti.queues;
    forall y | 0 <= y < |ti.queues|
      ensures ti.queues[y] < |c.home| && Done(c, t, ti.queues[y], procs[ti.queues[y]], s.m.channels[ti.queues[y]])
      ensures && ColOf(hi.cols, y) < |hi'.after| && 1 < |hi'.after[ColOf(hi.cols, y)]|
              && FinBy(c, ti.queues, procs, y, hi'.after[ColOf(hi.cols, y)][1])
    {
      AfterErrorDone(c, t, ti, hi, hi', x, d, y, ti.queues[y], s.procs[ti.queues[y]], s.m.channels[ti.queues[y]]);
    }
    RowFromAligned(c, ti.queues, procs, hi.cols, hi'.after, 1);
    RowAllFin(c, ti.queues, procs, row);
    h' := BarrierCompletes(c, s, h, p, pairs, t, Staircase(hi'.after), row);
  }

  // ------------------------------------------------------------ every manager step

  lemma NotLaggingIfBusy(c: Config, s: State, h: History, p: ProcId)
    requires Inv(c, s, h, {}) && p < |s.procs| && s.procs[p].out != []
    ensures !Lagging(s.procs[p], s.m.channels[p])
  {
    hide OrdersOk, GraphOk, NoSourceOk, TaskOk, SeatedOk, Active;
    assert ProcOk(c, s.m.info, s.m.owner, h, {}, p, s.procs[p], s.m.channels[p]);
  }

  lemma FailedOnlyErrors(c: Config, t: TaskName, ti: TaskInfo, hi: Hist, x: nat, p: ProcId, pr: Process, ch: seq<Reply>)
    requires p < |c.home| && HistShape(hi, |ti.queues|) && DequeOk(c, t, ti, hi) && x < |ti.queues|
    requires SeatFine(c, t, ti, hi, x, p, pr, ch) && pr.out != [] && hi.failed && ti.state != Error
    ensures pr.out[0].body.ErrorMsg?
  {
    hide InRun, BaseOf, ErrorsAfter, AllErrors, Aligned, NothingYet, OneError, ErrorThenFinish, MinLen;
    EmptyAfter(hi.after);
    FailedHead(c, SeatOf(c, t, x, p, pr, ch), hi, PhaseOf(OrderOf(c, p), pr, ch), RestOf(pr, ch), pr);
  }

  lemma FailedHead(c: Config, seat: Seat, hi: Hist, ph: Phase, ch: seq<Reply>, pr: Process)
    requires seat.x < |hi.normal| == |hi.cols| == |hi.after|
    requires ErrorOk(c, seat, hi, ph, ch, pr) && pr.out != [] && hi.failed && MinLen(hi.after) == 0 && AllEmpty(hi.after)
    ensures pr.out[0].body.ErrorMsg?
  {
    hide InRun, BaseOf, ErrorsAfter, AllErrors, Aligned, NothingYet, OneError, ErrorThenFinish, MinLen;
  }

  /** What one turn does to the contributions after the error of task t, whose process number x sent `body`: an error or a
      finish after the error goes to the column of that process, and the second full row releases the task. */
  ghost predicate Contributes(c: Config, s: State, h: History, s': State, h': History, t: TaskName, x: nat, body: Body) {
    var hi, hi' := HistOf(h, t), HistOf(h', t);
    if body.ErrorMsg? then s'.m.owner == s.m.owner && AfterStep(hi, hi', x, Err(body.msg))
    else if body.FinishedMsg? && body.afterError then
      && x < |hi.cols| == |hi.after| && ColOf(hi.cols, x) < |hi.after| && Aligned(hi.cols) && OneError(hi, x)
      && (InfoOf(s.m.info, t).state == Error || hi.failed)
      && var after := Push(hi.after, ColOf(hi.cols, x), Fin(body.pool, body.next));
         if MinLen(after) == 2 then !Active(c, s'.m.owner, {}, t) else s'.m.owner == s.m.owner && hi'.after == after
    else
      && (InfoOf(s.m.info, t).state == Error ==> s'.m == s.m)
      && ((s'.m.owner == s.m.owner && hi'.after == hi.after) || !Active(c, s'.m.owner, {}, t))
  }

  lemma ContributesError(c: Config, s: State, h: History, s': State, h': History, t: TaskName, x: nat, body: Body)
    requires body.ErrorMsg? && s'.m.owner == s.m.owner && AfterStep(HistOf(h, t), HistOf(h', t), x, Err(body.msg))
    ensures Contributes(c, s, h, s', h', t, x, body)
  {
  }

  lemma ContributesFinish(c: Config, s: State, h: History, s': State, h': History, t: TaskName, x: nat, body: Body, hi': Hist)
    requires x < |HistOf(h, t).cols| == |HistOf(h, t).after|
    requires body.FinishedMsg? && body.afterError && OneError(HistOf(h, t), x) && Aligned(HistOf(h, t).cols)
    requires InfoOf(s.m.info, t).state == Error || HistOf(h, t).failed
    requires AfterStep(HistOf(h, t), hi', x, Fin(body.pool, body.next))
    requires if MinLen(hi'.after) == 2 then !Active(c, s'.m.owner, {}, t) else s'.m.owner == s.m.owner && HistOf(h', t) == hi'
    ensures Contributes(c, s, h, s', h', t, x, body)
  {
    hide MinLen, Aligned, Push, OneError, Active;
  }

  lemma ContributesNothing(c: Config, s: State, h: History, s': State, h': History, t: TaskName, x: nat, body: Body)
    requires !body.ErrorMsg? && (body.FinishedMsg? ==> !body.afterError)
    requires InfoOf(s.m.info, t).state == Error ==> s'.m == s.m
    requires (s'.m.owner == s.m.owner && HistOf(h', t).after == HistOf(h, t).after) || !Active(c, s'.m.owner, {}, t)
    ensures Contributes(c, s, h, s', h', t, x, body)
  {
  }

  /** One turn of the manager's loop.  Pools change hands, or the manager stops, only in the task of the message;
      it crashes only if that task's indices are not aligned, and then no pool changes hands. */
  lemma ManageKeeps(c: Config, s: State, h: History, p: ProcId, pairs: seq<(PoolId, Option<TaskName>)>)
      returns (h': History, t: TaskName, x: nat)
    requires Inv(c, s, h, {}) && Enabled(c, s, Manage(p, pairs))
    ensures Inv(c, Do(c, s, Manage(p, pairs)), h', {})
    ensures Active(c, s.m.owner, {}, t) && x < |InfoOf(s.m.info, t).queues| && InfoOf(s.m.info, t).queues[x] == p
    ensures Aligned(HistOf(h, t).cols) ==> StepHandsOver(c, s.m, Do(c, s, Manage(p, pairs)).m, t)
    ensures !Aligned(HistOf(h, t).cols) ==>
              var m' := Do(c, s, Manage(p, pairs)).m; m'.owner == s.m.owner && (m'.status == s.m.status || m'.status == Crashed)
    ensures SameElsewhere(c, s.m.owner, h, h', t)
    ensures Contributes(c, s, h, Do(c, s, Manage(p, pairs)), h', t, x, s.procs[p].out[0].body)
  {
    hide WellFormed, NoSourceOk, TaskOk, ProcOk, SeatFine, HistShape, DequeOk, Active, FillGatherData, AfterStep, StepHandsOver,
         SeatedOk, Push, MinLen, Staircase, FinishRow, Do, PairsFit, ActiveOk, Aligned, Contributes, SameElsewhere, OneError;
    var s' := Do(c, s, Manage(p, pairs));
    NotLaggingIfBusy(c, s, h, p);
    t, x := ProcessSteps.FindSeat(c, s, h, p);
    NormalFacts(c, s, h, p, t, x);
    var ti, hi, pr, ch := InfoOf(s.m.info, t), HistOf(h, t), s.procs[p], s.m.channels[p];
    ShapeLengths(hi, |ti.queues|);
    var body := pr.out[0].body;
    if body.ErrorMsg? {
      h' := ErrorKeeps(c, s, h, p, pairs, t, x);
      ElsewhereNew(c, s.m.owner, h, t, HistOf(h', t));
      ContributesError(c, s, h, s', h', t, x, body);
      if Aligned(hi.cols) {
        NoHandOver(c, s.m, Do(c, s, Manage(p, pairs)).m, t);
      }
    } else if ti.state == Error {
      if body.FinishedMsg? && body.afterError {
        HeadFinishAfterError(c, t, ti, hi, x, p, pr, ch);
        var hi' := TakeAfterError(c, s.m, t, hi, x, Fin(body.pool, body.next));
        AfterStepSame(hi, hi', x, Fin(body.pool, body.next));
        if MinLen(hi'.after) == 2 {
          h' := FinishAfterErrorCompletes(c, s, h, p, pairs, t, x, hi');
          ContributesFinish(c, s, h, s', h', t, x, body, hi');
        } else {
          FinishAfterErrorKeeps(c, s, h, p, pairs, t, x, hi');
          h' := NewHist(h, t, hi');
          NoHandOver(c, s.m, Do(c, s, Manage(p, pairs)).m, t);
          ElsewhereNew(c, s.m.owner, h, t, hi');
          ContributesFinish(c, s, h, s', h', t, x, body, hi');
        }
      } else {
        DropKeeps(c, s, h, p, pairs, t, x);
        h' := h;
        NoHandOver(c, s.m, Do(c, s, Manage(p, pairs)).m, t);
        ElsewhereSame(c, s.m.owner, h, t);
        ContributesNothing(c, s, h, s', h', t, x, body);
      }
    } else {
      if hi.failed {
        FailedOnlyErrors(c, t, ti, hi, x, p, pr, ch);
      }
      IdentityAligned(hi, |ti.queues|);
      var seat := OwnSeat(c, t, ti, hi, x, p, pr, ch);
      var d := pr.sent[|hi.normal[x]|];
      if FinishRow(c, t, hi.normal, Push(hi.normal, x, d)) {
        h' := FinishKeeps(c, s, h, p, pairs, t, x);
        ContributesNothing(c, s, h, s', h', t, x, body);
      } else {
        h' := AcceptKeeps(c, s, h, p, pairs, t, x);
        ElsewhereNew(c, s.m.owner, h, t, HistOf(h', t));
        ContributesNothing(c, s, h, s', h', t, x, body);
        NoHandOver(c, s.m, Do(c, s, Manage(p, pairs)).m, t);
      }
    }
  }
}
