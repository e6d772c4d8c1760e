/** set_task_finished hands a released pool to its next task, and starts that task once all its pools have come. */
module ManagerHandOver {
  import opened Basics
  import opened Collectives
  import opened TaskModel
  import opened TaskProtocol
  import opened ProtocolInvariant
  import opened ManagerFrames
  import ManagerErrors
  import opened ManagerRelease

  /** Pool i, released from order[k], goes to `next`. */
  ghost predicate Handing(c: Config, owner: Owners, released: set<PoolId>, i: PoolId, k: nat, next: Option<TaskName>) {
    && i in released && i < |c.pools| == |owner|
    && k < |c.pools[i].order| && owner[i] == Some(c.pools[i].order[k])
    && next == NextTask(c.pools[i].order, k)
    && forall j :: j in released ==> j < |owner| && owner[j] == owner[i]
  }

  // ------------------------------------------------------------ views

  lemma RankIn(c: Config, i: PoolId, k: nat, u: TaskName)
    requires OrdersOk(c) && i < |c.pools| && k < |c.pools[i].order| && InPool(c, i, u)
    ensures var order := c.pools[i].order;
            && (u == order[k] || Rank(c, u) < Rank(c, order[k]) || Rank(c, u) > Rank(c, order[k]))
            && (Rank(c, u) == Rank(c, order[k]) ==> u == order[k])
            && (k + 1 < |order| && Rank(c, u) > Rank(c, order[k]) ==> Rank(c, u) >= Rank(c, order[k + 1]))
            && (k + 1 == |order| ==> Rank(c, u) <= Rank(c, order[k]))
            && (k + 1 < |order| ==> Rank(c, order[k]) < Rank(c, order[k + 1]))
  {
    var order := c.pools[i].order;
    var b :| 0 <= b < |order| && order[b] == u;
  }

  /** No task but the next one notices. */
  lemma SamePassedBy(c: Config, owner: Owners, released: set<PoolId>, i: PoolId, k: nat, next: Option<TaskName>, u: TaskName)
    requires OrdersOk(c) && Handing(c, owner, released, i, k, next) && next != Some(u)
    ensures forall j: PoolId :: Owns(owner[i := next], released - {i}, j, u) == Owns(owner, released, j, u)
    ensures forall j :: 0 <= j < |c.pools| && InPool(c, j, u) ==>
              PassedBy(c, owner[i := next], released - {i}, j, u) == PassedBy(c, owner, released, j, u)
  {
    hide OrdersOk;
    if InPool(c, i, u) {
      RankIn(c, i, k, u);
      if k + 1 < |c.pools[i].order| {
        RankIn(c, i, k + 1, u);
      }
    }
  }

  lemma SameViews(c: Config, owner: Owners, released: set<PoolId>, i: PoolId, k: nat, next: Option<TaskName>, u: TaskName)
    requires OrdersOk(c) && Handing(c, owner, released, i, k, next) && next != Some(u)
    ensures Active(c, owner[i := next], released - {i}, u) == Active(c, owner, released, u)
    ensures Passed(c, owner[i := next], released - {i}, u) == Passed(c, owner, released, u)
  {
    hide OrdersOk, Handing, Owns, PassedBy, InPool;
    SamePassedBy(c, owner, released, i, k, next, u);
  }

  lemma NextViews(c: Config, owner: Owners, released: set<PoolId>, i: PoolId, k: nat, u: TaskName)
    requires OrdersOk(c) && Handing(c, owner, released, i, k, Some(u))
    ensures InPool(c, i, u) && InSomePool(c, u)
    ensures !Active(c, owner, released, u) && !Passed(c, owner, released, u)
    ensures !Passed(c, owner[i := Some(u)], released - {i}, u)
    ensures forall j: PoolId :: Owns(owner[i := Some(u)], released - {i}, j, u) <==> Owns(owner, released, j, u) || j == i
    ensures forall j :: 0 <= j < |c.pools| && InPool(c, j, u) && PassedBy(c, owner[i := Some(u)], released - {i}, j, u) ==>
              PassedBy(c, owner, released, j, u)
    ensures forall j :: j in released ==> owner[j] != Some(u)
  {
    var order := c.pools[i].order;
    assert order[k + 1] == u && Rank(c, order[k]) < Rank(c, u);
    assert InPool(c, i, u);
    assert Owns(owner[i := Some(u)], released - {i}, i, u);
    assert !PassedBy(c, owner, released, i, u);
    assert !PassedBy(c, owner[i := Some(u)], released - {i}, i, u);
  }

  // ------------------------------------------------------------ tasks

  lemma OtherTask(c: Config, info: Info, info': Info, owner: Owners, h: History, h': History, released: set<PoolId>,
                  i: PoolId, k: nat, next: Option<TaskName>, u: TaskName)
    requires OrdersOk(c) && Handing(c, owner, released, i, k, next) && next != Some(u)
    requires InSomePool(c, u) && TaskOk(c, info, owner, h, released, u)
    requires InfoOf(info', u) == InfoOf(info, u) && HistOf(h', u) == HistOf(h, u)
    requires forall v :: (InfoOf(info', v).state == Error) == (InfoOf(info, v).state == Error)
    ensures TaskOk(c, info', owner[i := next], h', released - {i}, u)
  {
    hide OrdersOk, Owns, PassedBy, HistShape, DequeOk, SomePrevFailed, Active, Passed, IsSource;
    SamePassedBy(c, owner, released, i, k, next, u);
    SameViews(c, owner, released, i, k, next, u);
    SamePrevFailedIf(LayoutOf(c), info, info', u);
    var owner', released' := owner[i := next], released - {i};
    if !Passed(c, owner, released, u) {
      assert QueuesOk(c, owner', released', u, InfoOf(info', u).queues);
      if !Active(c, owner, released, u) {
        assert PendingOk(c, info', owner', released', u);
      }
    }
  }

  lemma JoinedQueues(c: Config, owner: Owners, released: set<PoolId>, i: PoolId, k: nat, u: TaskName, queues: seq<ProcId>)
    requires OrdersOk(c) && PoolsOk(c) && Handing(c, owner, released, i, k, Some(u))
    requires QueuesOk(c, owner, released, u, queues)
    ensures QueuesOk(c, owner[i := Some(u)], released - {i}, u, queues + c.pools[i].procs)
  {
    hide OrdersOk, PoolsOk, Active, Passed, PassedBy, InPool, InSomePool;
    NextViews(c, owner, released, i, k, u);
    var procs := c.pools[i].procs;
    var joined := queues + procs;
    Members(c, i);
    assert NoDup(joined) by {
      assert NoDup(procs) && forall p :: p in queues ==> c.home[p] != i by {
        NotOwnedYet(c, owner, released, i, k, u);
      }
      forall a, b | 0 <= a < b < |joined| ensures joined[a] != joined[b] {
        assert joined[a] in queues || joined[a] in procs;
        assert joined[b] in queues || joined[b] in procs;
      }
    }
  }

  lemma Members(c: Config, i: PoolId)
    requires PoolsOk(c) && i < |c.pools|
    ensures NoDup(c.pools[i].procs) && |c.pools[i].procs| > 0
    ensures forall p: ProcId :: p in c.pools[i].procs <==> p < |c.home| && c.home[p] == i
  {
  }

  lemma NotOwnedYet(c: Config, owner: Owners, released: set<PoolId>, i: PoolId, k: nat, u: TaskName)
    requires Handing(c, owner, released, i, k, Some(u))
    ensures !Owns(owner, released, i, u)
  {
  }

  /** When all pools of a task have come to it, each task it needs has been passed by them, or has no source data. */
  lemma PrevsSettled(c: Config, info: Info, owner: Owners, h: History, released: set<PoolId>, u: TaskName)
    requires WellFormed(c) && |owner| == |c.pools| && Active(c, owner, released, u) && NoSourceOk(c, info)
    requires forall v :: InSomePool(c, v) && v != u ==> TaskOk(c, info, owner, h, released, v)
    ensures forall v :: v in PrevTasks(c, u) ==> Settled(InfoOf(info, v).state)
  {
    hide HistShape, DequeOk, QueuesOk, ActiveOk, SomePrevFailed, OrdersOk, PoolsOk;
    forall v | v in PrevTasks(c, u) ensures Settled(InfoOf(info, v).state) {
      if InSomePool(c, v) {
        PrevPassed(c, owner, released, u, v);
        assert TaskOk(c, info, owner, h, released, v);
      }
    }
  }

  /** A task that a running task needs is finished: some pool of both has gone past it. */
  lemma PrevPassed(c: Config, owner: Owners, released: set<PoolId>, u: TaskName, v: TaskName)
    requires WellFormed(c) && |owner| == |c.pools| && Active(c, owner, released, u)
    requires v in PrevTasks(c, u) && InSomePool(c, v)
    ensures v != u
    ensures Passed(c, owner, released, v)
  {
    hide OrdersOk, PoolsOk;
    forall j | 0 <= j < |c.pools| && InPool(c, j, v) ensures PassedBy(c, owner, released, j, v) && Rank(c, v) < Rank(c, u) {
      assert InPool(c, j, u) && Rank(c, v) < Rank(c, u);
      assert Owns(owner, released, j, u);
    }
    var j :| 0 <= j < |c.pools| && InPool(c, j, v);
  }

  lemma ReadyIffActive(c: Config, m: Manager, h: History, released: set<PoolId>, u: TaskName)
    requires WellFormed(c) && |m.owner| == |c.pools| && InSomePool(c, u) && NoSourceOk(c, m.info)
    requires forall v :: InSomePool(c, v) && v != u ==> TaskOk(c, m.info, m.owner, h, released, v)
    requires forall j :: j in InfoOf(m.info, u).waitPools <==> InPool(c, j, u)
    requires forall j :: j in released ==> j < |m.owner| && m.owner[j] != Some(u)
    ensures AllPrevFinished(LayoutOf(c), m, u) <==> Active(c, m.owner, released, u)
  {
    hide TaskOk, WellFormed, NoSourceOk;
    var l, waits := LayoutOf(c), InfoOf(m.info, u).waitPools;
    if Active(c, m.owner, released, u) {
      PrevsSettled(c, m.info, m.owner, h, released, u);
      assert forall i :: 0 <= i < |PrevOf(l, u)| ==> PrevOf(l, u)[i] in PrevTasks(c, u);
      forall i | 0 <= i < |waits| ensures waits[i] < |m.owner| && m.owner[waits[i]] == Some(u) {
        assert waits[i] in waits;
        assert Owns(m.owner, released, waits[i], u);
      }
    }
    if AllPrevFinished(l, m, u) {
      forall j | 0 <= j < |c.pools| && InPool(c, j, u) ensures Owns(m.owner, released, j, u) {
        assert j in waits;
        var i :| 0 <= i < |waits| && waits[i] == j;
      }
    }
  }

  // ------------------------------------------------------------ the history of a start

  function IndexOf(procs: seq<Process>, q: ProcId): Option<nat> {
    if q < |procs| then procs[q].index else None
  }

  /** What a task starts with: its processes know their number, or keep the index of their previous task. */
  function StartHist(failed: bool, queues: seq<ProcId>, procs: seq<Process>): (hi: Hist)
    ensures |hi.cols| == |hi.normal| == |hi.after| == |queues|
    ensures hi.failed == failed && AllEmpty(hi.normal) && AllEmpty(hi.after)
    ensures forall x :: 0 <= x < |queues| ==> hi.cols[x] == if failed then IndexOf(procs, queues[x]) else Some(x)
  {
    Hist(failed,
         seq(|queues|, x requires 0 <= x < |queues| => if failed then IndexOf(procs, queues[x]) else Some(x)),
         seq(|queues|, x => []),
         seq(|queues|, x => []))
  }

  lemma StartShape(c: Config, t: TaskName, ti: TaskInfo, failed: bool, procs: seq<Process>)
    requires |ti.queues| > 0 && ti.state == Started && ti.deque == []
    ensures HistShape(StartHist(failed, ti.queues, procs), |ti.queues|)
    ensures DequeOk(c, t, ti, StartHist(failed, ti.queues, procs))
    ensures forall x :: 0 <= x < |ti.queues| ==> NothingYet(StartHist(failed, ti.queues, procs), x)
  {
    hide StartHist;
    var hi := StartHist(failed, ti.queues, procs);
    EmptyStreams(hi.normal);
    EmptyStreams(hi.after);
    if !Aligned(hi.cols) {
      OrphanExists(hi);
    } else {
      forall x | 0 <= x < |ti.queues| ensures NothingYet(hi, x) {
        ManagerErrors.ColsDistinct(hi.cols, x, x);
      }
    }
  }

  /** A process that was idle at a task is seated there by "go" or by "error". */
  lemma StartSeat(c: Config, t: TaskName, ti: TaskInfo, failed: bool, procs: seq<Process>, x: nat, q: ProcId,
                  pr: Process, ch: seq<Reply>)
    requires q < |c.home| && x < |ti.queues| && ti.queues[x] == q && q < |procs| && procs[q] == pr
    requires ti.state == Started && ti.deque == []
    requires AtOf(pr, ch) < |OrderOf(c, q)| && OrderOf(c, q)[AtOf(pr, ch)] == t
    requires IdleOk(OrderOf(c, q), AtOf(pr, ch), PhaseOf(OrderOf(c, q), pr, ch), RestOf(pr, ch), pr.out)
    ensures SeatFine(c, t, ti, StartHist(failed, ti.queues, procs), x, q, pr,
                     ch + [if failed then ErrorReply else Go(x)])
  {
    hide StartHist, NothingYet, Aligned;
    var hi := StartHist(failed, ti.queues, procs);
    var r := if failed then ErrorReply else Go(x);
    StartShape(c, t, ti, failed, procs);
    ViewAppend(OrderOf(c, q), pr, ch, [r]);
    if failed {
      assert ErrorsAfter([], [r]) by {
        assert [r][0..] == [r];
      }
    }
  }

  // ------------------------------------------------------------ processes

  lemma PlaceAfter(c: Config, owner: Owners, released: set<PoolId>, i: PoolId, k: nat, next: Option<TaskName>, k': nat)
    requires OrdersOk(c) && Handing(c, owner, released, i, k, next)
    requires PlaceOk(c.pools[i].order, owner[i], true, k')
    ensures k' == k + 1 && PlaceOk(c.pools[i].order, next, false, k')
  {
  }

  /** A process of the pool itself, while the next task does not start. */
  lemma OwnProcWaits(c: Config, info: Info, info': Info, owner: Owners, h: History, h': History, released: set<PoolId>,
                     i: PoolId, k: nat, next: Option<TaskName>, q: ProcId, pr: Process, ch: seq<Reply>)
    requires OrdersOk(c) && Handing(c, owner, released, i, k, next)
    requires q < |c.home| && c.home[q] == i && ProcOk(c, info, owner, h, released, q, pr, ch)
    requires next.Some? ==> !Active(c, owner[i := next], released - {i}, next.value)
    ensures ProcOk(c, info', owner[i := next], h', released - {i}, q, pr, ch)
  {
    hide OrdersOk, SeatedOk, Active;
    PlaceAfter(c, owner, released, i, k, next, AtOf(pr, ch));
  }

  /** A process of another pool that the hand-over does not concern. */
  lemma OtherProcStays(c: Config, info: Info, info': Info, owner: Owners, h: History, h': History, released: set<PoolId>,
                       i: PoolId, k: nat, next: Option<TaskName>, q: ProcId, pr: Process, ch: seq<Reply>)
    requires OrdersOk(c) && Handing(c, owner, released, i, k, next)
    requires q < |c.home| && c.home[q] != i && c.home[q] < |c.pools|
    requires ProcOk(c, info, owner, h, released, q, pr, ch)
    requires forall v: TaskName :: Some(v) != next ==> InfoOf(info', v) == InfoOf(info, v) && HistOf(h', v) == HistOf(h, v)
    requires next.Some? && owner[c.home[q]] == next ==> !Active(c, owner[i := next], released - {i}, next.value)
    ensures ProcOk(c, info', owner[i := next], h', released - {i}, q, pr, ch)
  {
    hide OrdersOk, SeatedOk, Active;
    var j := c.home[q];
    if owner[j].Some? {
      if owner[j] == next {
        NextViews(c, owner, released, i, k, next.value);
      } else {
        SameViews(c, owner, released, i, k, next, owner[j].value);
      }
    }
  }

  /** A process of a pool whose last companion has just come to task u: it was idle there. */
  lemma IdleAtStart(c: Config, info: Info, owner: Owners, h: History, released: set<PoolId>,
                    i: PoolId, k: nat, u: TaskName, q: ProcId, pr: Process, ch: seq<Reply>)
    requires OrdersOk(c) && Handing(c, owner, released, i, k, Some(u))
    requires q < |c.home| && c.home[q] < |c.pools| && Owns(owner[i := Some(u)], released - {i}, c.home[q], u)
    requires ProcOk(c, info, owner, h, released, q, pr, ch)
    ensures Lagging(pr, ch) ==> pr.out == []
    ensures AtOf(pr, ch) < |OrderOf(c, q)| && OrderOf(c, q)[AtOf(pr, ch)] == u
    ensures IdleOk(OrderOf(c, q), AtOf(pr, ch), PhaseOf(OrderOf(c, q), pr, ch), RestOf(pr, ch), pr.out)
  {
    hide OrdersOk, SeatedOk, Active;
    if c.home[q] == i {
      PlaceAfter(c, owner, released, i, k, Some(u), AtOf(pr, ch));
    } else {
      NextViews(c, owner, released, i, k, u);
    }
  }

  lemma SeatedProcOkIn(c: Config, info: Info, owner: Owners, h: History, released: set<PoolId>, t: TaskName, y: nat,
                       pr: Process, ch: seq<Reply>)
    requires var ti := InfoOf(info, t);
             && QueuesOk(c, owner, released, t, ti.queues) && y < |ti.queues|
             && var q := ti.queues[y];
                && q < |c.home| && c.home[q] < |c.pools| == |owner| && owner[c.home[q]] == Some(t)
                && c.home[q] !in released
                && SeatFine(c, t, ti, HistOf(h, t), y, q, pr, ch)
    requires Active(c, owner, released, t)
    ensures ProcOk(c, info, owner, h, released, InfoOf(info, t).queues[y], pr, ch)
  {
    hide SeatedOk, Active;
  }

  // ------------------------------------------------------------ the hand-over

  /** The pool's walk is over, or its next task still waits for other pools. */
  lemma HandOverWaits(c: Config, s: State, h: History, released: set<PoolId>, i: PoolId, k: nat, next: Option<TaskName>, s': State)
    requires Inv(c, s, h, released) && Handing(c, s.m.owner, released, i, k, next)
    requires s'.procs == s.procs && s'.m.channels == s.m.channels && s'.m.owner == s.m.owner[i := next]
    requires forall v: TaskName :: Some(v) != next ==> InfoOf(s'.m.info, v) == InfoOf(s.m.info, v)
    requires next.Some? ==>
               && !Active(c, s'.m.owner, released - {i}, next.value)
               && var ti := InfoOf(s.m.info, next.value);
                  InfoOf(s'.m.info, next.value) == ti.(queues := ti.queues + c.pools[i].procs)
    ensures Inv(c, s', h, released - {i})
  {
    hide OrdersOk, PoolsOk, GraphOk, ProcOk, TaskOk, Active;
    var info, info', owner, owner', released' := s.m.info, s'.m.info, s.m.owner, s'.m.owner, released - {i};
    NextInPool(c, owner, released, i, k, next);
    forall u: TaskName | InSomePool(c, u) ensures TaskOk(c, info', owner', h, released', u) {
      assert TaskOk(c, info, owner, h, released, u);
      if next == Some(u) {
        JoinedTask(c, info, info', owner, h, released, i, k, u);
      } else {
        OtherTask(c, info, info', owner, h, h, released, i, k, next, u);
      }
    }
    NoSourceStays(c, info, info', next);
    Homes(c);
    forall q | 0 <= q < |s'.procs| ensures ProcOk(c, info', owner', h, released', q, s'.procs[q], s'.m.channels[q]) {
      assert ProcOk(c, info, owner, h, released, q, s.procs[q], s.m.channels[q]);
      if c.home[q] == i {
        OwnProcWaits(c, info, info', owner, h, h, released, i, k, next, q, s.procs[q], s.m.channels[q]);
      } else {
        OtherProcStays(c, info, info', owner, h, h, released, i, k, next, q, s.procs[q], s.m.channels[q]);
      }
    }
  }

  lemma Homes(c: Config)
    requires PoolsOk(c)
    ensures forall q :: 0 <= q < |c.home| ==> c.home[q] < |c.pools|
  {
  }

  lemma NextInPool(c: Config, owner: Owners, released: set<PoolId>, i: PoolId, k: nat, next: Option<TaskName>)
    requires Handing(c, owner, released, i, k, next)
    ensures next.Some? ==> InPool(c, i, next.value)
  {
  }

  lemma NoSourceStays(c: Config, info: Info, info': Info, next: Option<TaskName>)
    requires NoSourceOk(c, info) && (next.Some? ==> InSomePool(c, next.value))
    requires forall v: TaskName :: Some(v) != next ==> InfoOf(info', v) == InfoOf(info, v)
    ensures NoSourceOk(c, info')
  {
  }

  /** Before its last pool comes, the next task is pending; with the pool it gains the pool's processes. */
  lemma JoinedTask(c: Config, info: Info, info': Info, owner: Owners, h: History, released: set<PoolId>,
                   i: PoolId, k: nat, u: TaskName)
    requires OrdersOk(c) && PoolsOk(c) && Handing(c, owner, released, i, k, Some(u))
    requires TaskOk(c, info, owner, h, released, u)
    requires var ti := InfoOf(info, u); InfoOf(info', u) == ti.(queues := ti.queues + c.pools[i].procs)
    ensures PendingOk(c, info, owner, released, u)
    ensures QueuesOk(c, owner[i := Some(u)], released - {i}, u, InfoOf(info', u).queues)
    ensures !Active(c, owner[i := Some(u)], released - {i}, u) ==>
              TaskOk(c, info', owner[i := Some(u)], h, released - {i}, u)
  {
    hide OrdersOk, PoolsOk, QueuesOk, Active, Passed, PassedBy, ActiveOk, PassedOk, IsSource;
    NextViews(c, owner, released, i, k, u);
    JoinedQueues(c, owner, released, i, k, u, InfoOf(info, u).queues);
    assert PendingOk(c, info', owner[i := Some(u)], released - {i}, u);
  }

  /** The last pool has come: the task starts, and every process of its pools is told to go, or that a predecessor failed. */
  lemma HandOverStarts(c: Config, s: State, h: History, released: set<PoolId>, i: PoolId, k: nat, u: TaskName, s': State, h': History)
    requires Inv(c, s, h, released) && Handing(c, s.m.owner, released, i, k, Some(u))
    requires s'.procs == s.procs && s'.m.owner == s.m.owner[i := Some(u)]
    requires forall v: TaskName :: v != u ==> InfoOf(s'.m.info, v) == InfoOf(s.m.info, v) && HistOf(h', v) == HistOf(h, v)
    requires Active(c, s'.m.owner, released - {i}, u)
    requires var ti := InfoOf(s.m.info, u);
             var queues := ti.queues + c.pools[i].procs;
             var failed := SomePrevFailed(LayoutOf(c), s.m.info, u);
             && InfoOf(s'.m.info, u) == ti.(queues := queues, state := Started)
             && HistOf(h', u) == StartHist(failed, queues, s.procs)
             && s'.m.channels == PutGo(s.m.channels, queues, failed)
    ensures Inv(c, s', h', released - {i})
  {
    hide OrdersOk, PoolsOk, GraphOk, ProcOk, TaskOk, Active, SeatFine, StartHist, PutGo, SomePrevFailed;
    var info, info', owner, owner', released' := s.m.info, s'.m.info, s.m.owner, s'.m.owner, released - {i};
    var ti', hi' := InfoOf(info', u), HistOf(h', u);
    NextInPool(c, owner, released, i, k, Some(u));
    assert InPool(c, i, u) && InSomePool(c, u);
    assert TaskOk(c, info, owner, h, released, u);
    StartErrors(c, info, info', owner, h, released, i, k, u);
    StartTaskOk(c, s, h, released, i, k, u, info', h');
    forall v: TaskName | InSomePool(c, v) && v != u ensures TaskOk(c, info', owner', h', released', v) {
      assert TaskOk(c, info, owner, h, released, v);
      OtherTask(c, info, info', owner, h, h', released, i, k, Some(u), v);
    }
    NoSourceStays(c, info, info', Some(u));
    Homes(c);
    QueueIds(c, owner', released', u, ti'.queues);
    PutGoEffect(s.m.channels, ti'.queues, hi'.failed);
    forall q | 0 <= q < |s'.procs| ensures ProcOk(c, info', owner', h', released', q, s'.procs[q], s'.m.channels[q]) {
      assert ProcOk(c, info, owner, h, released, q, s.procs[q], s.m.channels[q]);
      if q in ti'.queues {
        var y :| 0 <= y < |ti'.queues| && ti'.queues[y] == q;
        OwnedIn(c, owner', released', u, ti'.queues, q);
        IdleAtStart(c, info, owner, h, released, i, k, u, q, s.procs[q], s.m.channels[q]);
        StartSeat(c, u, ti', hi'.failed, s.procs, y, q, s.procs[q], s.m.channels[q]);
        SeatedProcOkIn(c, info', owner', h', released', u, y, s'.procs[q], s'.m.channels[q]);
      } else {
        NotOwnedIn(c, owner', released', i, u, ti'.queues, q);
        OtherProcAtStart(c, info, info', owner, h, h', released, i, k, u, q, s.procs[q], s.m.channels[q]);
      }
    }
  }

  lemma QueueIds(c: Config, owner: Owners, released: set<PoolId>, u: TaskName, queues: seq<ProcId>)
    requires QueuesOk(c, owner, released, u, queues)
    ensures forall x :: 0 <= x < |queues| ==> queues[x] < |c.home|
  {
    forall x | 0 <= x < |queues| ensures queues[x] < |c.home| {
      assert queues[x] in queues;
    }
  }

  lemma OwnedIn(c: Config, owner: Owners, released: set<PoolId>, u: TaskName, queues: seq<ProcId>, q: ProcId)
    requires QueuesOk(c, owner, released, u, queues) && q in queues
    ensures q < |c.home| && Owns(owner, released, c.home[q], u)
  {
  }

  lemma NotOwnedIn(c: Config, owner: Owners, released: set<PoolId>, i: PoolId, u: TaskName, queues: seq<ProcId>, q: ProcId)
    requires QueuesOk(c, owner, released, u, queues) && q !in queues && q < |c.home|
    requires i < |owner| && owner[i] == Some(u) && i !in released
    ensures c.home[q] != i && !Owns(owner, released, c.home[q], u)
  {
  }

  /** A process of a pool that does not own the starting task. */
  lemma OtherProcAtStart(c: Config, info: Info, info': Info, owner: Owners, h: History, h': History, released: set<PoolId>,
                         i: PoolId, k: nat, u: TaskName, q: ProcId, pr: Process, ch: seq<Reply>)
    requires OrdersOk(c) && Handing(c, owner, released, i, k, Some(u))
    requires q < |c.home| && c.home[q] != i && c.home[q] < |c.pools|
    requires !Owns(owner[i := Some(u)], released - {i}, c.home[q], u)
    requires ProcOk(c, info, owner, h, released, q, pr, ch)
    requires forall v: TaskName :: v != u ==> InfoOf(info', v) == InfoOf(info, v) && HistOf(h', v) == HistOf(h, v)
    ensures ProcOk(c, info', owner[i := Some(u)], h', released - {i}, q, pr, ch)
  {
    hide OrdersOk, SeatedOk, Active;
    var j := c.home[q];
    if owner[j].Some? && owner[j] != Some(u) {
      SameViews(c, owner, released, i, k, Some(u), owner[j].value);
    }
  }

  /** A task that starts is no data source, and starting it puts no task in error. */
  lemma StartErrors(c: Config, info: Info, info': Info, owner: Owners, h: History, released: set<PoolId>,
                    i: PoolId, k: nat, u: TaskName)
    requires OrdersOk(c) && PoolsOk(c) && Handing(c, owner, released, i, k, Some(u)) && InSomePool(c, u)
    requires TaskOk(c, info, owner, h, released, u)
    requires forall v: TaskName :: v != u ==> InfoOf(info', v) == InfoOf(info, v)
    ensures InfoOf(info, u).state == Unstart && InfoOf(info, u).deque == [] && !IsSource(c, u)
    ensures InfoOf(info', u).state != Error ==>
              forall v :: (InfoOf(info', v).state == Error) == (InfoOf(info, v).state == Error)
  {
    hide OrdersOk, PoolsOk, QueuesOk, Active, Passed, PassedBy, ActiveOk, PassedOk, IsSource;
    NextViews(c, owner, released, i, k, u);
  }

  lemma StartTaskOk(c: Config, s: State, h: History, released: set<PoolId>, i: PoolId, k: nat, u: TaskName, info': Info, h': History)
    requires Inv(c, s, h, released) && Handing(c, s.m.owner, released, i, k, Some(u)) && InSomePool(c, u)
    requires forall v: TaskName :: v != u ==> InfoOf(info', v) == InfoOf(s.m.info, v)
    requires Active(c, s.m.owner[i := Some(u)], released - {i}, u)
    requires var ti := InfoOf(s.m.info, u);
             var queues := ti.queues + c.pools[i].procs;
             && InfoOf(info', u) == ti.(queues := queues, state := Started)
             && HistOf(h', u) == StartHist(SomePrevFailed(LayoutOf(c), s.m.info, u), queues, s.procs)
    ensures TaskOk(c, info', s.m.owner[i := Some(u)], h', released - {i}, u)
    ensures QueuesOk(c, s.m.owner[i := Some(u)], released - {i}, u, InfoOf(info', u).queues)
  {
    hide OrdersOk, GraphOk, PoolsOk, ProcOk, Active, Passed, PassedBy, NothingYet, SomePrevFailed, StartHist, HistShape, DequeOk,
         NoSourceOk, PendingOk, PassedOk, IsSource, QueuesOk;
    var info, owner, owner' := s.m.info, s.m.owner, s.m.owner[i := Some(u)];
    assert TaskOk(c, info, owner, h, released, u);
    StartErrors(c, info, info', owner, h, released, i, k, u);
    var joined := InfoOf(info', u).(state := InfoOf(info, u).state);
    JoinedTask(c, info, info[u := joined], owner, h, released, i, k, u);
    SamePrevFailedIf(LayoutOf(c), info, info', u);
    Members(c, i);
    StartShape(c, u, InfoOf(info', u), SomePrevFailed(LayoutOf(c), info, u), s.procs);
    NextViews(c, owner, released, i, k, u);
  }

  /** The active tasks keep their histories. */
  ghost predicate SameHist(c: Config, owner: Owners, released: set<PoolId>, h: History, h': History) {
    forall v: TaskName :: Active(c, owner, released, v) ==> HistOf(h', v) == HistOf(h, v)
  }

  lemma HandOverKeepsActive(c: Config, owner: Owners, released: set<PoolId>, i: PoolId, next: Option<TaskName>, v: TaskName)
    requires Active(c, owner, released, v) && i in released && i < |owner|
    ensures Active(c, owner[i := next], released - {i}, v)
    ensures forall u :: next == Some(u) && InPool(c, i, u) ==> v != u
  {
    forall j | 0 <= j < |c.pools| && InPool(c, j, v) ensures Owns(owner[i := next], released - {i}, j, v) {
      assert Owns(owner, released, j, v);
    }
    assert InPool(c, i, v) ==> Owns(owner, released, i, v);
  }

  /** One turn of the loop of set_task_finished keeps the invariant, with one pool fewer to hand over. */
  lemma HandOverKeeps(c: Config, s: State, h: History, released: set<PoolId>, i: PoolId, k: nat, next: Option<TaskName>)
      returns (h': History)
    requires Inv(c, s, h, released) && Handing(c, s.m.owner, released, i, k, next)
    ensures Inv(c, s.(m := HandOver(LayoutOf(c), s.m, i, next)), h', released - {i})
    ensures HandOver(LayoutOf(c), s.m, i, next).owner == s.m.owner[i := next]
    ensures HandOver(LayoutOf(c), s.m, i, next).status == s.m.status
    ensures forall v: TaskName :: next != Some(v) ==> HistOf(h', v) == HistOf(h, v)
    ensures next.Some? ==> InPool(c, i, next.value)
  {
    hide OrdersOk, PoolsOk, GraphOk, ProcOk, TaskOk, Active, StartHist, PutGo, SomePrevFailed, AllPrevFinished, QueuesOk, PendingOk;
    var l, m' := LayoutOf(c), HandOver(LayoutOf(c), s.m, i, next);
    if next.None? {
      h' := h;
      HandOverWaits(c, s, h, released, i, k, next, s.(m := m'));
    } else {
      var u := next.value;
      var ti := InfoOf(s.m.info, u);
      var joined := WithInfo(s.m.(owner := s.m.owner[i := next]), u, ti.(queues := ti.queues + c.pools[i].procs));
      NextInPool(c, s.m.owner, released, i, k, next);
      assert InSomePool(c, u);
      assert TaskOk(c, s.m.info, s.m.owner, h, released, u);
      StartErrors(c, s.m.info, joined.info, s.m.owner, h, released, i, k, u);
      JoinedReady(c, s, h, released, i, k, u, joined);
      if Active(c, joined.owner, released - {i}, u) {
        var failed := SomePrevFailed(l, s.m.info, u);
        SamePrevFailedIf(l, s.m.info, joined.info, u);
        h' := h[u := StartHist(failed, ti.queues + c.pools[i].procs, s.procs)];
        HandOverStarts(c, s, h, released, i, k, u, s.(m := m'), h');
      } else {
        h' := h;
        HandOverWaits(c, s, h, released, i, k, next, s.(m := m'));
      }
    }
  }

  lemma JoinedReady(c: Config, s: State, h: History, released: set<PoolId>, i: PoolId, k: nat, u: TaskName, joined: Manager)
    requires Inv(c, s, h, released) && Handing(c, s.m.owner, released, i, k, Some(u)) && InSomePool(c, u)
    requires var ti := InfoOf(s.m.info, u);
             joined == WithInfo(s.m.(owner := s.m.owner[i := Some(u)]), u, ti.(queues := ti.queues + c.pools[i].procs))
    ensures AllPrevFinished(LayoutOf(c), joined, u) <==> Active(c, joined.owner, released - {i}, u)
  {
    hide OrdersOk, PoolsOk, GraphOk, ProcOk, Active, AllPrevFinished, QueuesOk, PendingOk, TaskOk;
    assert TaskOk(c, s.m.info, s.m.owner, h, released, u);
    StartErrors(c, s.m.info, joined.info, s.m.owner, h, released, i, k, u);
    forall v: TaskName | InSomePool(c, v) && v != u ensures TaskOk(c, joined.info, joined.owner, h, released - {i}, v) {
      assert TaskOk(c, s.m.info, s.m.owner, h, released, v);
      OtherTask(c, s.m.info, joined.info, s.m.owner, h, h, released, i, k, Some(u), v);
    }
    NoSourceStays(c, s.m.info, joined.info, Some(u));
    WaitPoolsOf(c, s.m.info, s.m.owner, h, released, u);
    NextViews(c, s.m.owner, released, i, k, u);
    ReadyIffActive(c, joined, h, released - {i}, u);
  }

  lemma WaitPoolsOf(c: Config, info: Info, owner: Owners, h: History, released: set<PoolId>, u: TaskName)
    requires TaskOk(c, info, owner, h, released, u)
    ensures forall j :: j in InfoOf(info, u).waitPools <==> InPool(c, j, u)
  {
  }

  lemma QueueBound(c: Config, owner: Owners, released: set<PoolId>, u: TaskName, queues: seq<ProcId>)
    requires QueuesOk(c, owner, released, u, queues)
    ensures |queues| <= |c.home|
  {
    QueueIds(c, owner, released, u, queues);
    DistinctBelow(queues, |c.home|);
  }

  /** A hand-over sends at most one message to each process. */
  lemma HandOverGrowth(c: Config, s: State, h: History, released: set<PoolId>, i: PoolId, k: nat, next: Option<TaskName>)
    requires Inv(c, s, h, released) && Handing(c, s.m.owner, released, i, k, next)
    ensures Total(HandOver(LayoutOf(c), s.m, i, next).channels) <= Total(s.m.channels) + |c.home|
  {
    hide OrdersOk, PoolsOk, GraphOk, ProcOk, TaskOk, Active, PutGo, SomePrevFailed, AllPrevFinished, QueuesOk, PendingOk, Total;
    if next.Some? {
      var u := next.value;
      var ti := InfoOf(s.m.info, u);
      var queues := ti.queues + c.pools[i].procs;
      NextInPool(c, s.m.owner, released, i, k, next);
      assert InSomePool(c, u);
      assert TaskOk(c, s.m.info, s.m.owner, h, released, u);
      var info' := s.m.info[u := ti.(queues := queues)];
      JoinedTask(c, s.m.info, info', s.m.owner, h, released, i, k, u);
      QueueBound(c, s.m.owner[i := Some(u)], released - {i}, u, queues);
      PutGoGrowth(s.m.channels, queues, SomePrevFailed(LayoutOf(c), info', u));
    }
  }

  // ------------------------------------------------------------ all pools

  /** The pairs name each released pool once, with the task that follows t in its order. */
  ghost predicate PairsOk(c: Config, owner: Owners, t: TaskName, released: set<PoolId>, pairs: seq<(PoolId, Option<TaskName>)>) {
    && (forall a, b :: 0 <= a < b < |pairs| ==> pairs[a].0 != pairs[b].0)
    && (forall i :: i in released <==> exists a :: 0 <= a < |pairs| && pairs[a].0 == i)
    && (forall i :: i in released ==> i < |owner| && owner[i] == Some(t))
    && (forall a :: 0 <= a < |pairs| ==> IsNext(c, t, pairs[a].0, pairs[a].1))
  }

  ghost predicate IsNext(c: Config, t: TaskName, i: PoolId, next: Option<TaskName>) {
    && i < |c.pools|
    && exists k :: 0 <= k < |c.pools[i].order| && c.pools[i].order[k] == t && next == NextTask(c.pools[i].order, k)
  }

  lemma {:induction false} HandOverAllKeeps(c: Config, s: State, h: History, released: set<PoolId>, t: TaskName,
                                            pairs: seq<(PoolId, Option<TaskName>)>) returns (h': History)
    requires Inv(c, s, h, released) && PairsOk(c, s.m.owner, t, released, pairs) && s.m.status != Crashed
    ensures Inv(c, s.(m := HandOverAll(LayoutOf(c), s.m, pairs)), h', {})
    ensures var m' := HandOverAll(LayoutOf(c), s.m, pairs);
            && m'.status == s.m.status && |m'.owner| == |s.m.owner|
            && (forall j :: 0 <= j < |s.m.owner| && j !in released ==> m'.owner[j] == s.m.owner[j])
            && (forall j :: j in released ==> j < |m'.owner| && IsNext(c, t, j, m'.owner[j]))
            && Total(m'.channels) <= Total(s.m.channels) + |pairs| * |c.home|
    ensures SameHist(c, s.m.owner, released, h, h')
    decreases pairs
  {
    hide OrdersOk, PoolsOk, GraphOk, ProcOk, TaskOk, NoSourceOk, HandOver, Total, Active;
    if pairs == [] {
      h' := h;
      assert released == {} by {
        assert forall i :: i !in released;
      }
      assert s.(m := HandOverAll(LayoutOf(c), s.m, pairs)) == s;
    } else {
      var i, next := pairs[0].0, pairs[0].1;
      assert IsNext(c, t, i, next) && i in released;
      var k :| 0 <= k < |c.pools[i].order| && c.pools[i].order[k] == t && next == NextTask(c.pools[i].order, k);
      var h1 := HandOverKeeps(c, s, h, released, i, k, next);
      HandOverGrowth(c, s, h, released, i, k, next);
      OneLess(|pairs|, |c.home|);
      var s1 := s.(m := HandOver(LayoutOf(c), s.m, i, next));
      PairsTail(c, s.m.owner, t, released, pairs);
      h' := HandOverAllKeeps(c, s1, h1, released - {i}, t, pairs[1..]);
      forall v: TaskName | Active(c, s.m.owner, released, v) ensures HistOf(h', v) == HistOf(h, v) {
        HandOverKeepsActive(c, s.m.owner, released, i, next, v);
      }
    }
  }

  lemma OneLess(n: nat, k: nat)
    requires n > 0
    ensures n * k == (n - 1) * k + k
  {
  }

  lemma PairsBound(c: Config, owner: Owners, t: TaskName, released: set<PoolId>, pairs: seq<(PoolId, Option<TaskName>)>)
    requires PairsOk(c, owner, t, released, pairs)
    ensures |pairs| * |c.home| <= |c.pools| * |c.home|
  {
    var ids: seq<nat> := seq(|pairs|, a requires 0 <= a < |pairs| => pairs[a].0);
    forall a | 0 <= a < |ids| ensures ids[a] < |c.pools| {
      assert IsNext(c, t, pairs[a].0, pairs[a].1);
    }
    DistinctBelow(ids, |c.pools|);
    Times(|pairs|, |c.pools|, |c.home|);
  }

  lemma Times(a: nat, b: nat, k: nat)
    requires a <= b
    ensures a * k <= b * k
  {
  }

  lemma PairsTail(c: Config, owner: Owners, t: TaskName, released: set<PoolId>, pairs: seq<(PoolId, Option<TaskName>)>)
    requires pairs != [] && PairsOk(c, owner, t, released, pairs) && pairs[0].0 < |owner|
    ensures PairsOk(c, owner[pairs[0].0 := pairs[0].1], t, released - {pairs[0].0}, pairs[1..])
  {
    var i, rest := pairs[0].0, pairs[1..];
    forall j | j in released && j != i ensures exists a :: 0 <= a < |rest| && rest[a].0 == j {
      var a :| 0 <= a < |pairs| && pairs[a].0 == j;
      assert rest[a - 1].0 == j;
    }
    forall a | 0 <= a < |rest| ensures rest[a].0 in released && rest[a].0 != i && IsNext(c, t, rest[a].0, rest[a].1) {
      assert rest[a] == pairs[a + 1];
    }
  }
}
