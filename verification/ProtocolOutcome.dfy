/** How runs of the task protocol end: complete, or for ever at a misaligned task. */
module ProtocolOutcome {
  import opened Basics
  import opened Collectives
  import opened TaskModel
  import opened TaskProtocol
  import opened ProtocolInvariant
  import ProcessSteps
  import ManagerHandOver
  import ManagerSteps
  import opened ProtocolRuns
  import ProtocolTheorems
  import opened ProtocolProgress

  // ------------------------------------------------------------ a misaligned task stays

  lemma ReceiveKeepsIndex(c: Config, seat: Seat, ti: TaskInfo, hi: Hist, order: seq<TaskName>, pr: Process, ch: seq<Reply>)
    requires SeatedOk(c, seat, ti, hi, pr.phase, ch, pr) && hi.failed && ch != [] && pr.at < |order|
    ensures Receive(seat.pool, order, pr, ch[0]).index == pr.index
  {
    hide MinLen, InRun, BaseOf, NothingYet, Aligned, OneError, ErrorThenFinish;
    if pr.phase.WaitGo? {
      assert ErrorsAfter([], ch);
      assert ch[0] == ch[0..][0];
    }
  }

  lemma AdvanceKeepsIndex(i: PoolId, order: seq<TaskName>, pr: Process, ch: seq<Reply>)
    requires Lagging(pr, ch) && pr.at < |order|
    ensures Receive(i, order, pr, ch[0]).index == pr.index
  {
  }

  /** A process of a task started with "error" keeps its index. */
  lemma IndexStays(c: Config, s: State, h: History, a: Act, t: TaskName, q: ProcId)
    requires Inv(c, s, h, {}) && Enabled(c, s, a) && Active(c, s.m.owner, {}, t) && HistOf(h, t).failed
    requires q in Joined(c, t)
    ensures q < |Do(c, s, a).procs| && Do(c, s, a).procs[q].index == s.procs[q].index
  {
    hide OrdersOk, PoolsOk, GraphOk, NoSourceOk, TaskOk, ProcOk, SeatedOk, PairsFit, ActiveOk, HistShape, Receive, Handle;
    if a.p == q && a.Recv? {
      var pr, ch := s.procs[q], s.m.channels[q];
      assert Owns(s.m.owner, {}, c.home[q], t);
      if Lagging(pr, ch) {
        AdvanceKeepsIndex(c.home[q], OrderOf(c, q), pr, ch);
      } else {
        var t', x := ProcessSteps.FindSeat(c, s, h, q);
        ReceiveKeepsIndex(c, Seat(t, c.home[q], NextTask(OrderOf(c, q), pr.at), x), InfoOf(s.m.info, t), HistOf(h, t),
                          OrderOf(c, q), pr, ch);
      }
    }
  }

  lemma OwnerStays(c: Config, s: State, h: History, a: Act, t: TaskName)
    requires Inv(c, s, h, {}) && Enabled(c, s, a) && Active(c, s.m.owner, {}, t) && !Aligned(HistOf(h, t).cols)
    ensures |Do(c, s, a).m.owner| == |s.m.owner|
    ensures forall j :: 0 <= j < |s.m.owner| && s.m.owner[j] == Some(t) ==> Do(c, s, a).m.owner[j] == Some(t)
  {
    hide Inv, Active, Aligned, PairsFit, Handle, ManagerHandOver.IsNext;
    if a.Manage? {
      var h', t', x := ManagerSteps.ManageKeeps(c, s, h, a.p, a.pairs);
      var m' := Do(c, s, a).m;
      forall j | 0 <= j < |s.m.owner| && s.m.owner[j] == Some(t) ensures m'.owner[j] == Some(t) {
        assert Aligned(HistOf(h, t').cols) ==> ManagerSteps.Hands(c, s.m.owner, m'.owner, t', j);
      }
    }
  }

  lemma StillActive(c: Config, owner: Owners, owner': Owners, t: TaskName)
    requires Active(c, owner, {}, t) && |owner'| == |owner|
    requires forall j :: 0 <= j < |owner| && owner[j] == Some(t) ==> owner'[j] == Some(t)
    ensures Active(c, owner', {}, t)
  {
    forall j | 0 <= j < |c.pools| && InPool(c, j, t) ensures Owns(owner', {}, j, t) {
      assert Owns(owner, {}, j, t);
    }
  }

  lemma StillFailed(c: Config, m: Manager, m': Manager, t: TaskName)
    requires SomePrevFailed(LayoutOf(c), m.info, t) && ProtocolTheorems.Onwards(m, m')
    ensures SomePrevFailed(LayoutOf(c), m'.info, t)
  {
    var prev := PrevOf(LayoutOf(c), t);
    var i :| 0 <= i < |prev| && InfoOf(m.info, prev[i]).state == Error;
    assert InfoOf(m'.info, prev[i]).state == Error;
  }

  lemma StillMisnumbered(procs: seq<Process>, procs': seq<Process>, members: set<ProcId>)
    requires !Numbered(procs, members)
    requires forall p :: p in members ==> p < |procs| && p < |procs'| && procs'[p].index == procs[p].index
    ensures !Numbered(procs', members)
  {
  }

  lemma JoinedExist(c: Config, s: State, h: History, t: TaskName)
    requires Inv(c, s, h, {})
    ensures forall p :: p in Joined(c, t) ==> p < |s.procs|
  {
    hide WellFormed, OwnersOk, NoSourceOk, TaskOk, ProcOk;
  }

  /** No step leads out of a misaligned task. */
  lemma MisalignedStays(c: Config, s: State, h: History, a: Act, t: TaskName)
    requires Inv(c, s, h, {}) && Enabled(c, s, a) && Misaligned(c, s, t)
    ensures Misaligned(c, Do(c, s, a), t)
  {
    hide Inv, Do, Enabled, Active, SomePrevFailed, Numbered, Aligned, Joined, ProtocolTheorems.Onwards;
    NumberedIffAligned(c, s, h, t);
    OwnerStays(c, s, h, a, t);
    StillActive(c, s.m.owner, Do(c, s, a).m.owner, t);
    ProtocolTheorems.StepOnwards(c, s, h, a);
    StillFailed(c, s.m, Do(c, s, a).m, t);
    JoinedExist(c, s, h, t);
    forall q | q in Joined(c, t) ensures q < |Do(c, s, a).procs| && Do(c, s, a).procs[q].index == s.procs[q].index {
      IndexStays(c, s, h, a, t, q);
    }
    StillMisnumbered(s.procs, Do(c, s, a).procs, Joined(c, t));
  }

  lemma {:induction false} MisalignedInRun(c: Config, s: State, h: History, acts: seq<Act>, s': State, t: TaskName)
    requires Inv(c, s, h, {}) && Runs(c, s, acts, s') && Misaligned(c, s, t)
    ensures Misaligned(c, s', t)
    decreases acts
  {
    hide Inv, Do, Enabled, Misaligned;
    if acts != [] {
      MisalignedStays(c, s, h, acts[0], t);
      var h1 := StepKeeps(c, s, h, acts[0]);
      MisalignedInRun(c, Do(c, s, acts[0]), h1, acts[1..], s', t);
    }
  }

  // ------------------------------------------------------------ the manager's status

  ghost predicate AllReleased(owner: Owners) {
    forall i :: 0 <= i < |owner| ==> owner[i].None?
  }

  ghost predicate SomeMisaligned(c: Config, s: State) {
    exists t: TaskName :: Misaligned(c, s, t)
  }

  /** The manager loops while some pool owns a task, and ends by an exception only at a misaligned task. */
  ghost predicate StatusOk(c: Config, s: State) {
    match s.m.status
    case Looping => !AllReleased(s.m.owner)
    case Stopped => AllReleased(s.m.owner)
    case Crashed => SomeMisaligned(c, s)
  }

  lemma ManageStatus(c: Config, s: State, h: History, a: Act)
    requires Inv(c, s, h, {}) && Enabled(c, s, a) && StatusOk(c, s) && a.Manage?
    ensures StatusOk(c, Do(c, s, a))
  {
    hide Inv, Do, Active, Aligned, PairsFit, Misaligned;
    var h', t, x := ManagerSteps.ManageKeeps(c, s, h, a.p, a.pairs);
    NumberedIffAligned(c, s, h, t);
    if Misaligned(c, s, t) {
      MisalignedStays(c, s, h, a, t);
    }
  }

  lemma StatusKeeps(c: Config, s: State, h: History, a: Act)
    requires Inv(c, s, h, {}) && Enabled(c, s, a) && StatusOk(c, s)
    ensures StatusOk(c, Do(c, s, a))
  {
    hide Inv, Misaligned, Receive, Issue, SendError;
    if a.Manage? {
      ManageStatus(c, s, h, a);
    } else if t: TaskName :| Misaligned(c, s, t) {
      MisalignedStays(c, s, h, a, t);
    }
  }

  lemma {:induction false} StatusInRun(c: Config, s: State, h: History, acts: seq<Act>, s': State)
    requires Inv(c, s, h, {}) && StatusOk(c, s) && Runs(c, s, acts, s')
    ensures StatusOk(c, s')
    decreases acts
  {
    hide Inv, Do, Enabled, StatusOk;
    if acts != [] {
      StatusKeeps(c, s, h, acts[0]);
      var h1 := StepKeeps(c, s, h, acts[0]);
      StatusInRun(c, Do(c, s, acts[0]), h1, acts[1..], s');
    }
  }

  lemma InitialStatus(c: Config, s: State)
    requires WellFormed(c) && Initial(c, s)
    ensures StatusOk(c, s)
  {
    hide OrdersOk, GraphOk;
    assert s.m.owner[0] == Some(c.pools[0].order[0]);
  }

  /** In every reachable state: start() is still in its loop exactly while some pool owns a task, unless a
      misaligned task has raised an exception. */
  lemma StatusTellsProgress(c: Config, s: State)
    requires WellFormed(c) && Reachable(c, s)
    ensures StatusOk(c, s)
  {
    hide Inv, Do, Enabled, WellFormed, StatusOk, Initial;
    var s0, acts :| Initial(c, s0) && Runs(c, s0, acts, s);
    InitialGood(c, s0);
    InitialStatus(c, s0);
    StatusInRun(c, s0, StartHistory(c, s0.m), acts, s);
  }

  // ------------------------------------------------------------ how runs end

  ghost predicate Quiescent(c: Config, s: State) {
    forall a :: !Enabled(c, s, a)
  }

  /** No process raises an exception in run(). */
  ghost predicate NoFailure(acts: seq<Act>) {
    forall k :: 0 <= k < |acts| ==> !acts[k].Fail?
  }

  /** The manager has left its loop, every process has walked through all its tasks, nothing is left in any queue,
      and every task has finished, or failed if one of its predecessors did. */
  ghost predicate Complete(c: Config, s: State) {
    && s.m.status == Stopped && AllReleased(s.m.owner)
    && (forall p :: 0 <= p < |s.procs| ==> IsThrough(c, s, p))
    && (forall t :: InSomePool(c, t) ==> PassedOk(c, s.m.info, t))
  }

  ghost predicate IsThrough(c: Config, s: State, p: ProcId) {
    && p < |s.procs| == |s.m.channels|
    && s.procs[p].phase.Exited? && s.procs[p].at == |OrderOf(c, p)| && s.procs[p].out == [] && s.m.channels[p] == []
  }

  lemma ThroughIfReleased(c: Config, s: State, h: History, p: ProcId)
    requires Inv(c, s, h, {}) && Quiescent(c, s) && AllReleased(s.m.owner) && p < |s.procs|
    ensures IsThrough(c, s, p)
  {
    hide OrdersOk, GraphOk, NoSourceOk, TaskOk, SeatedOk, Active;
    ManagerHandOver.Homes(c);
    var pr, ch := s.procs[p], s.m.channels[p];
    assert ProcOk(c, s.m.info, s.m.owner, h, {}, p, pr, ch);
    assert !Enabled(c, s, Recv(p));
  }

  lemma PassedIfReleased(c: Config, s: State, h: History, t: TaskName)
    requires Inv(c, s, h, {}) && AllReleased(s.m.owner) && InSomePool(c, t)
    ensures PassedOk(c, s.m.info, t)
  {
    hide PoolsOk, OrdersOk, GraphOk, NoSourceOk, ProcOk, PassedOk, ActiveOk;
    assert Passed(c, s.m.owner, {}, t);
    ProtocolTheorems.PassedState(c, s, h, t);
  }

  lemma MisalignedNotReleased(c: Config, s: State, t: TaskName)
    requires Misaligned(c, s, t)
    ensures !AllReleased(s.m.owner)
  {
    hide SomePrevFailed, Numbered;
    var i :| 0 <= i < |c.pools| && InPool(c, i, t);
    assert Owns(s.m.owner, {}, i, t);
  }

  /** A run that can go no further is complete exactly when it has not come to a misaligned task. */
  lemma EndsComplete(c: Config, s: State)
    requires WellFormed(c) && Reachable(c, s) && Quiescent(c, s)
    ensures Complete(c, s) <==> !SomeMisaligned(c, s)
  {
    hide Inv, Enabled, Misaligned, Quiescent, IsThrough, PassedOk, WellFormed, Reachable;
    StatusTellsProgress(c, s);
    var h := ReachableGood(c, s);
    if t: TaskName :| Misaligned(c, s, t) {
      MisalignedNotReleased(c, s, t);
    } else {
      if s.m.status == Looping {
        var a := NoDeadlock(c, s);
        assert Quiescent(c, s) && Enabled(c, s, a);
        NotQuiescent(c, s, a);
      }
      forall p | 0 <= p < |s.procs| ensures IsThrough(c, s, p) {
        ThroughIfReleased(c, s, h, p);
      }
      forall t | InSomePool(c, t) ensures PassedOk(c, s.m.info, t) {
        PassedIfReleased(c, s, h, t);
      }
    }
  }

  lemma NotQuiescent(c: Config, s: State, a: Act)
    requires Enabled(c, s, a)
    ensures !Quiescent(c, s)
  {
  }

  /** And a misaligned task is for ever: no continuation of the run stops the manager. */
  lemma MisalignedForever(c: Config, s: State, acts: seq<Act>, s': State, t: TaskName)
    requires WellFormed(c) && Reachable(c, s) && Misaligned(c, s, t) && Runs(c, s, acts, s')
    ensures Misaligned(c, s', t) && s'.m.status != Stopped
  {
    hide Inv, Do, Enabled, WellFormed, Misaligned, Reachable;
    var h := ReachableGood(c, s);
    MisalignedInRun(c, s, h, acts, s', t);
    MisalignedNotReleased(c, s', t);
    StillReachable(c, s, acts, s');
    StatusTellsProgress(c, s');
  }

  lemma StillReachable(c: Config, s: State, acts: seq<Act>, s': State)
    requires Reachable(c, s) && Runs(c, s, acts, s')
    ensures Reachable(c, s')
  {
    hide Do, Enabled, Initial;
    var s0, before :| Initial(c, s0) && Runs(c, s0, before, s);
    RunsJoin(c, s0, before, s, acts, s');
  }

  lemma {:induction false} RunsJoin(c: Config, s0: State, before: seq<Act>, s: State, acts: seq<Act>, s': State)
    requires Runs(c, s0, before, s) && Runs(c, s, acts, s')
    ensures Runs(c, s0, before + acts, s')
    decreases before
  {
    hide Do, Enabled;
    if before == [] {
      assert before + acts == acts;
    } else {
      assert (before + acts)[1..] == before[1..] + acts;
      RunsJoin(c, Do(c, s0, before[0]), before[1..], s, acts, s');
    }
  }
}
