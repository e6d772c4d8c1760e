/** The protocol invariant holds at the start and in every reachable state. */
module ProtocolRuns {
  import opened TaskModel
  import opened TaskProtocol
  import opened ProtocolInvariant
  import opened ProcessSteps
  import opened ManagerHandOver
  import ManagerSteps

  // ------------------------------------------------------------ the start

  ghost function Sources(c: Config): set<TaskName> {
    set i | 0 <= i < |c.pools| && |c.pools[i].order| > 0 :: c.pools[i].order[0]
  }

  ghost function StartHistory(c: Config, m: Manager): History {
    map t | t in Sources(c) :: StartHist(false, InfoOf(m.info, t).queues, [])
  }

  lemma SourceActive(c: Config, s: State, i: PoolId)
    requires WellFormed(c) && Initial(c, s) && i < |c.pools|
    ensures |c.pools[i].order| > 0
    ensures var t := c.pools[i].order[0];
            && InSomePool(c, t) && IsSource(c, t) && t in Sources(c)
            && Active(c, s.m.owner, {}, t)
            && InfoOf(s.m.info, t).queues == c.pools[i].procs
            && forall j :: 0 <= j < |c.pools| && InPool(c, j, t) ==> j == i
  {
    var t := c.pools[i].order[0];
    assert InPool(c, i, t);
    assert InitialTask(c, s.m, t);
  }

  lemma SourceTaskOk(c: Config, s: State, i: PoolId)
    requires WellFormed(c) && Initial(c, s) && i < |c.pools| && |c.pools[i].order| > 0
    ensures TaskOk(c, s.m.info, s.m.owner, StartHistory(c, s.m), {}, c.pools[i].order[0])
  {
    hide OrdersOk, PoolsOk, GraphOk, Active, Passed, ActiveOk, QueuesOk, StartHistory, AtFirstReceive;
    var t := c.pools[i].order[0];
    SourceActive(c, s, i);
    ActiveNotPassed(c, s.m.owner, {}, t);
    assert InitialTask(c, s.m, t);
    SourceActiveOk(c, s, i);
    SourceQueuesOk(c, s, i);
  }

  lemma SourceActiveOk(c: Config, s: State, i: PoolId)
    requires WellFormed(c) && Initial(c, s) && i < |c.pools| && |c.pools[i].order| > 0
    ensures ActiveOk(c, s.m.info, StartHistory(c, s.m), c.pools[i].order[0])
  {
    hide OrdersOk, StartHist, HistShape, DequeOk, Active, AtFirstReceive;
    var t, h := c.pools[i].order[0], StartHistory(c, s.m);
    SourceActive(c, s, i);
    assert InitialTask(c, s.m, t);
    Members(c, i);
    var ti := InfoOf(s.m.info, t);
    assert HistOf(h, t) == StartHist(false, ti.queues, []);
    StartShape(c, t, ti.(state := Started), false, []);
    assert DequeOk(c, t, ti, HistOf(h, t)) by {
      DequeIgnoresStart(c, t, ti, HistOf(h, t));
    }
    assert PrevTasks(c, t) == [];
  }

  lemma SourceQueuesOk(c: Config, s: State, i: PoolId)
    requires WellFormed(c) && Initial(c, s) && i < |c.pools| && |c.pools[i].order| > 0
    ensures QueuesOk(c, s.m.owner, {}, c.pools[i].order[0], InfoOf(s.m.info, c.pools[i].order[0]).queues)
  {
    hide OrdersOk, InitialTask, Active, AtFirstReceive;
    var t := c.pools[i].order[0];
    var ti := InfoOf(s.m.info, t);
    SourceActive(c, s, i);
    Members(c, i);
    forall p: ProcId ensures p in ti.queues <==> p < |c.home| && Owns(s.m.owner, {}, c.home[p], t) {
      if p < |c.home| && Owns(s.m.owner, {}, c.home[p], t) {
        assert c.pools[c.home[p]].order[0] == t;
        assert InPool(c, c.home[p], t);
      }
    }
  }

  lemma DequeIgnoresStart(c: Config, t: TaskName, ti: TaskInfo, hi: Hist)
    requires HistShape(hi, |ti.queues|) && ti.state != Error && DequeOk(c, t, ti.(state := Started), hi)
    ensures DequeOk(c, t, ti, hi)
  {
  }

  lemma LaterTaskOk(c: Config, s: State, t: TaskName)
    requires WellFormed(c) && Initial(c, s) && InSomePool(c, t) && !IsSource(c, t)
    ensures TaskOk(c, s.m.info, s.m.owner, StartHistory(c, s.m), {}, t)
  {
    hide GraphOk, StartHistory, NoSourceOk;
    Homes(c);
    var owner := s.m.owner;
    assert InitialTask(c, s.m, t);
    forall i | 0 <= i < |c.pools| && InPool(c, i, t)
      ensures !PassedBy(c, owner, {}, i, t) && !Owns(owner, {}, i, t)
    {
      var order := c.pools[i].order;
      var b :| 0 <= b < |order| && order[b] == t;
      assert Rank(c, order[0]) < Rank(c, order[b]);
    }
    var i :| 0 <= i < |c.pools| && InPool(c, i, t);
    assert !PassedBy(c, owner, {}, i, t) && !Owns(owner, {}, i, t);
    assert QueuesOk(c, owner, {}, t, []) by {
      forall p: ProcId | p < |c.home| ensures !Owns(owner, {}, c.home[p], t) {
      }
    }
  }

  lemma InitialProcOk(c: Config, s: State, p: ProcId)
    requires WellFormed(c) && Initial(c, s) && p < |s.procs|
    ensures c.home[p] < |c.pools|
    ensures ProcOk(c, s.m.info, s.m.owner, StartHistory(c, s.m), {}, p, s.procs[p], s.m.channels[p])
  {
    hide OrdersOk, GraphOk, StartHist, Active, SeatedOk;
    var i, h := c.home[p], StartHistory(c, s.m);
    assert p in c.pools[i].procs;
    SourceActive(c, s, i);
    var t := c.pools[i].order[0];
    var ti := InfoOf(s.m.info, t);
    var x :| 0 <= x < |c.pools[i].procs| && c.pools[i].procs[x] == p;
    assert AtFirstReceive(s, c.pools[i].procs);
    assert HistOf(h, t) == StartHist(false, ti.queues, []);
    assert InitialTask(c, s.m, t);
    FreshSeat(c, Seat(t, i, NextTask(c.pools[i].order, 0), x), ti, s.procs[p]);
  }

  lemma FreshSeat(c: Config, seat: Seat, ti: TaskInfo, pr: Process)
    requires seat.x < |ti.queues| && ti.state != Error && pr.out == []
    ensures SeatedOk(c, seat, ti, StartHist(false, ti.queues, []), WaitGo, [Go(seat.x)], pr)
  {
  }

  /** The invariant holds when the manager enters its loop. */
  lemma InitialGood(c: Config, s: State)
    requires WellFormed(c) && Initial(c, s)
    ensures Inv(c, s, StartHistory(c, s.m), {})
  {
    hide OrdersOk, GraphOk, StartHist, TaskOk, ProcOk, StartHistory;
    var h := StartHistory(c, s.m);
    forall t: TaskName | InSomePool(c, t) ensures TaskOk(c, s.m.info, s.m.owner, h, {}, t) {
      if IsSource(c, t) {
        var i :| 0 <= i < |c.pools| && |c.pools[i].order| > 0 && c.pools[i].order[0] == t;
        SourceTaskOk(c, s, i);
      } else {
        LaterTaskOk(c, s, t);
      }
    }
    Homes(c);
    forall p | 0 <= p < |s.procs| ensures ProcOk(c, s.m.info, s.m.owner, h, {}, p, s.procs[p], s.m.channels[p]) {
      InitialProcOk(c, s, p);
    }
    SourcesOwn(c, s);
  }

  lemma SourcesOwn(c: Config, s: State)
    requires WellFormed(c) && Initial(c, s)
    ensures OwnersOk(c, s.m.owner, {})
  {
    hide OrdersOk, GraphOk;
  }

  // ------------------------------------------------------------ every step, every run

  lemma StepKeeps(c: Config, s: State, h: History, a: Act) returns (h': History)
    requires Inv(c, s, h, {}) && Enabled(c, s, a)
    ensures Inv(c, Do(c, s, a), h', {})
  {
    hide Inv, Do, Enabled;
    h' := h;
    match a
    case Manage(p, pairs) =>
      var t, x;
      h', t, x := ManagerSteps.ManageKeeps(c, s, h, p, pairs);
    case Recv(p) => RecvKeeps(c, s, h, p);
    case Contribute(p, v) => ContributeKeeps(c, s, h, p, v);
    case Fail(p, e) => FailKeeps(c, s, h, p, e);
  }

  lemma {:induction false} RunKeeps(c: Config, s: State, h: History, acts: seq<Act>, s': State) returns (h': History)
    requires Inv(c, s, h, {}) && Runs(c, s, acts, s')
    ensures Inv(c, s', h', {})
    decreases acts
  {
    hide Inv, Do, Enabled;
    h' := h;
    if acts != [] {
      var h1 := StepKeeps(c, s, h, acts[0]);
      h' := RunKeeps(c, Do(c, s, acts[0]), h1, acts[1..], s');
    }
  }

  /** Every reachable state satisfies the invariant. */
  lemma ReachableGood(c: Config, s: State) returns (h: History)
    requires WellFormed(c) && Reachable(c, s)
    ensures Inv(c, s, h, {})
  {
    hide Inv, Do, Enabled, Initial, WellFormed;
    var s0, acts :| Initial(c, s0) && Runs(c, s0, acts, s);
    InitialGood(c, s0);
    h := RunKeeps(c, s0, StartHistory(c, s0.m), acts, s);
  }
}
