/** What a manager step leaves alone: channels, views of a process, other tasks. */
module ManagerFrames {
  import opened Basics
  import opened TaskModel
  import opened TaskProtocol
  import opened ProtocolInvariant
  import ProcessSteps

  // ------------------------------------------------------------ channels

  lemma {:induction false} PutAllEffect(channels: seq<seq<Reply>>, qs: seq<ProcId>, r: Reply)
    requires NoDup(qs) && forall x :: 0 <= x < |qs| ==> qs[x] < |channels|
    ensures forall q :: 0 <= q < |channels| ==>
              PutAll(channels, qs, r)[q] == if q in qs then channels[q] + [r] else channels[q]
  {
    if qs != [] {
      var front, last := qs[..|qs| - 1], qs[|qs| - 1];
      assert forall q :: q in qs <==> q in front || q == last;
      assert last !in front;
      PutAllEffect(channels, front, r);
    }
  }

  lemma {:induction false} PutGoEffect(channels: seq<seq<Reply>>, qs: seq<ProcId>, failed: bool)
    requires NoDup(qs) && forall x :: 0 <= x < |qs| ==> qs[x] < |channels|
    ensures forall q :: 0 <= q < |channels| && q !in qs ==> PutGo(channels, qs, failed)[q] == channels[q]
    ensures forall x :: 0 <= x < |qs| ==>
              PutGo(channels, qs, failed)[qs[x]] == channels[qs[x]] + [if failed then ErrorReply else Go(x)]
  {
    if qs != [] {
      var front, last := qs[..|qs| - 1], qs[|qs| - 1];
      assert forall q :: q in qs <==> q in front || q == last;
      assert last !in front;
      PutGoEffect(channels, front, failed);
      var res := PutGo(channels, front, failed);
      forall x | 0 <= x < |qs|
        ensures Put(res, last, if failed then ErrorReply else Go(|front|))[qs[x]]
                == channels[qs[x]] + [if failed then ErrorReply else Go(x)]
      {
        assert qs[x] in qs;
        if x < |front| {
          assert front[x] == qs[x] && qs[x] in front;
        }
      }
    }
  }

  lemma PutGrowth(channels: seq<seq<Reply>>, q: ProcId, r: Reply)
    ensures Total(Put(channels, q, r)) <= Total(channels) + 1
  {
    hide Total;
    if q < |channels| {
      TotalUpdate(channels, q, channels[q] + [r]);
    }
  }

  lemma {:induction false} PutAllGrowth(channels: seq<seq<Reply>>, qs: seq<ProcId>, r: Reply)
    ensures Total(PutAll(channels, qs, r)) <= Total(channels) + |qs|
  {
    hide Total;
    if qs != [] {
      PutAllGrowth(channels, qs[..|qs| - 1], r);
      PutGrowth(PutAll(channels, qs[..|qs| - 1], r), qs[|qs| - 1], r);
    }
  }

  lemma {:induction false} PutGoGrowth(channels: seq<seq<Reply>>, qs: seq<ProcId>, failed: bool)
    ensures Total(PutGo(channels, qs, failed)) <= Total(channels) + |qs|
  {
    hide Total;
    if qs != [] {
      PutGoGrowth(channels, qs[..|qs| - 1], failed);
      PutGrowth(PutGo(channels, qs[..|qs| - 1], failed), qs[|qs| - 1], if failed then ErrorReply else Go(|qs| - 1));
    }
  }

  /** A reply other than "finished" goes to the end of what the process has yet to see. */
  lemma ViewAppend(order: seq<TaskName>, pr: Process, ch: seq<Reply>, more: seq<Reply>)
    requires more == [] || !more[0].FinishedReply?
    ensures AtOf(pr, ch + more) == AtOf(pr, ch)
    ensures PhaseOf(order, pr, ch + more) == PhaseOf(order, pr, ch)
    ensures RestOf(pr, ch + more) == RestOf(pr, ch) + more
    ensures Lagging(pr, ch + more) == Lagging(pr, ch)
  {
    if ch == [] {
      assert ch + more == more;
    }
    if Lagging(pr, ch) {
      assert (ch + more)[1..] == ch[1..] + more;
    }
  }

  // ------------------------------------------------------------ seats

  ghost function SeatOf(c: Config, t: TaskName, y: nat, q: ProcId, pr: Process, ch: seq<Reply>): Seat
    requires q < |c.home|
  {
    Seat(t, c.home[q], NextTask(OrderOf(c, q), AtOf(pr, ch)), y)
  }

  /** Process q, as number y of the active task t. */
  ghost predicate SeatFine(c: Config, t: TaskName, ti: TaskInfo, hi: Hist, y: nat, q: ProcId, pr: Process, ch: seq<Reply>)
    requires q < |c.home|
  {
    && (Lagging(pr, ch) ==> pr.out == [])
    && AtOf(pr, ch) < |OrderOf(c, q)| && OrderOf(c, q)[AtOf(pr, ch)] == t
    && SeatedOk(c, SeatOf(c, t, y, q, pr, ch), ti, hi, PhaseOf(OrderOf(c, q), pr, ch), RestOf(pr, ch), pr)
  }

  ghost predicate AllSeated(c: Config, t: TaskName, ti: TaskInfo, hi: Hist, procs: seq<Process>, channels: seq<seq<Reply>>)
    requires |procs| == |channels| == |c.home|
  {
    forall y :: 0 <= y < |ti.queues| ==>
                  && ti.queues[y] < |procs|
                  && SeatFine(c, t, ti, hi, y, ti.queues[y], procs[ti.queues[y]], channels[ti.queues[y]])
  }

  lemma SeatsOf(c: Config, s: State, h: History, t: TaskName)
    requires Inv(c, s, h, {}) && Active(c, s.m.owner, {}, t)
    ensures QueuesOk(c, s.m.owner, {}, t, InfoOf(s.m.info, t).queues)
    ensures ActiveOk(c, s.m.info, h, t)
    ensures AllSeated(c, t, InfoOf(s.m.info, t), HistOf(h, t), s.procs, s.m.channels)
  {
    hide SeatedOk, OrdersOk, GraphOk, NoSourceOk, TaskOk, ActiveOk, Active;
    ProcessSteps.TaskQueues(c, s, h, t);
    var ti := InfoOf(s.m.info, t);
    forall y | 0 <= y < |ti.queues|
      ensures ti.queues[y] < |s.procs| &&
              SeatFine(c, t, ti, HistOf(h, t), y, ti.queues[y], s.procs[ti.queues[y]], s.m.channels[ti.queues[y]])
    {
      var q := ti.queues[y];
      assert q in ti.queues;
      assert ProcOk(c, s.m.info, s.m.owner, h, {}, q, s.procs[q], s.m.channels[q]);
    }
  }

  // ------------------------------------------------------------ other tasks

  /** A task that runs is no predecessor of one that runs or has run. */
  lemma ActiveNotPrev(c: Config, owner: Owners, released: set<PoolId>, t: TaskName, u: TaskName)
    requires WellFormed(c) && |owner| == |c.pools| && Active(c, owner, released, t)
    requires Active(c, owner, released, u) || Passed(c, owner, released, u)
    ensures t !in PrevTasks(c, u)
  {
    var i :| 0 <= i < |c.pools| && InPool(c, i, t);
    assert Owns(owner, released, i, t);
  }

  lemma SamePrevFailed(l: Layout, info: Info, info': Info, t: TaskName, u: TaskName)
    requires t !in PrevOf(l, u)
    requires forall v :: v != t ==> InfoOf(info', v) == InfoOf(info, v)
    ensures SomePrevFailed(l, info', u) == SomePrevFailed(l, info, u)
  {
    var prev := PrevOf(l, u);
    assert forall i :: 0 <= i < |prev| ==> prev[i] in prev && InfoOf(info', prev[i]) == InfoOf(info, prev[i]);
  }

  lemma OtherTaskOk(c: Config, s: State, h: History, t: TaskName, info': Info, h': History, u: TaskName)
    requires Inv(c, s, h, {}) && Active(c, s.m.owner, {}, t)
    requires forall v :: v != t ==> InfoOf(info', v) == InfoOf(s.m.info, v) && HistOf(h', v) == HistOf(h, v)
    requires InSomePool(c, u) && u != t
    ensures TaskOk(c, info', s.m.owner, h', {}, u)
  {
    hide QueuesOk, PendingOk, HistShape, DequeOk, OrdersOk, PoolsOk, NoSourceOk, ProcOk, SomePrevFailed;
    assert TaskOk(c, s.m.info, s.m.owner, h, {}, u);
    if Active(c, s.m.owner, {}, u) || Passed(c, s.m.owner, {}, u) {
      ActiveNotPrev(c, s.m.owner, {}, t, u);
      SamePrevFailed(LayoutOf(c), s.m.info, info', t, u);
    } else {
      assert PendingOk(c, info', s.m.owner, {}, u) by {
        PendingSame(c, s.m.info, info', s.m.owner, u);
      }
    }
  }

  lemma PendingSame(c: Config, info: Info, info': Info, owner: Owners, u: TaskName)
    requires PendingOk(c, info, owner, {}, u) && InfoOf(info', u) == InfoOf(info, u)
    ensures PendingOk(c, info', owner, {}, u)
  {
  }

  lemma OtherProcOk(c: Config, s: State, h: History, t: TaskName, info': Info, h': History, q: ProcId)
    requires Inv(c, s, h, {}) && Active(c, s.m.owner, {}, t)
    requires forall v :: v != t ==> InfoOf(info', v) == InfoOf(s.m.info, v) && HistOf(h', v) == HistOf(h, v)
    requires q < |s.procs| && q !in InfoOf(s.m.info, t).queues
    ensures ProcOk(c, info', s.m.owner, h', {}, q, s.procs[q], s.m.channels[q])
  {
    hide SeatedOk, OrdersOk, GraphOk, NoSourceOk, TaskOk, Active, ActiveOk;
    ProcessSteps.TaskQueues(c, s, h, t);
    assert ProcOk(c, s.m.info, s.m.owner, h, {}, q, s.procs[q], s.m.channels[q]);
    assert s.m.owner[c.home[q]] != Some(t);
  }

  lemma SeatedProcOk(c: Config, info: Info, owner: Owners, h: History, t: TaskName, y: nat, pr: Process, ch: seq<Reply>)
    requires var ti := InfoOf(info, t);
             && QueuesOk(c, owner, {}, t, ti.queues) && y < |ti.queues|
             && var q := ti.queues[y];
                && q < |c.home| && c.home[q] < |c.pools| == |owner| && owner[c.home[q]] == Some(t)
                && SeatFine(c, t, ti, HistOf(h, t), y, q, pr, ch)
    requires Active(c, owner, {}, t)
    ensures ProcOk(c, info, owner, h, {}, InfoOf(info, t).queues[y], pr, ch)
  {
    hide SeatedOk, Active;
  }

  /** The frame of a manager step inside the active task t: it is enough that the task and its own processes are fine. */
  lemma InTask(c: Config, s: State, h: History, t: TaskName, s': State, h': History)
    requires Inv(c, s, h, {}) && Active(c, s.m.owner, {}, t)
    requires s'.m.owner == s.m.owner && |s'.procs| == |s.procs| && |s'.m.channels| == |s.m.channels|
    requires forall v :: v != t ==> InfoOf(s'.m.info, v) == InfoOf(s.m.info, v) && HistOf(h', v) == HistOf(h, v)
    requires var ti, ti' := InfoOf(s.m.info, t), InfoOf(s'.m.info, t);
             && ti'.queues == ti.queues && ti'.waitPools == ti.waitPools
             && (ti'.state == ti.state || ti'.state == Error)
             && HistOf(h', t).failed == HistOf(h, t).failed
             && HistShape(HistOf(h', t), |ti'.queues|) && DequeOk(c, t, ti', HistOf(h', t))
             && (forall q :: 0 <= q < |s.procs| && q !in ti.queues ==>
                   s'.procs[q] == s.procs[q] && s'.m.channels[q] == s.m.channels[q])
             && AllSeated(c, t, ti', HistOf(h', t), s'.procs, s'.m.channels)
    ensures Inv(c, s', h', {})
  {
    hide SeatFine, OrdersOk, GraphOk, HistShape, DequeOk, ProcOk, SomePrevFailed;
    SeatsOf(c, s, h, t);
    var ti, ti' := InfoOf(s.m.info, t), InfoOf(s'.m.info, t);
    ProcessSteps.ActiveNotPassed(c, s.m.owner, {}, t);
    ActiveNotPrev(c, s.m.owner, {}, t, t);
    SamePrevFailed(LayoutOf(c), s.m.info, s'.m.info, t, t);
    assert TaskOk(c, s'.m.info, s'.m.owner, h', {}, t) by {
      assert TaskOk(c, s.m.info, s.m.owner, h, {}, t);
    }
    forall u | InSomePool(c, u) && u != t ensures TaskOk(c, s'.m.info, s'.m.owner, h', {}, u) {
      OtherTaskOk(c, s, h, t, s'.m.info, h', u);
    }
    assert NoSourceOk(c, s'.m.info);
    forall q | 0 <= q < |s'.procs|
      ensures ProcOk(c, s'.m.info, s'.m.owner, h', {}, q, s'.procs[q], s'.m.channels[q])
    {
      if q in ti.queues {
        var y :| 0 <= y < |ti.queues| && ti.queues[y] == q;
        SeatedProcOk(c, s'.m.info, s'.m.owner, h', t, y, s'.procs[q], s'.m.channels[q]);
      } else {
        OtherProcOk(c, s, h, t, s'.m.info, h', q);
      }
    }
  }
}
