/** When some task is shared by two pools, a single exception can keep the manager in its loop for ever.  So whether every run
    completes can be told from the pools alone. */
module ProtocolShared {
  import opened Basics
  import opened TaskModel
  import opened TaskProtocol
  import opened ProtocolInvariant
  import ManagerHandOver
  import opened ManagerSteps
  import opened ProtocolRuns
  import ProtocolTheorems
  import opened ProtocolProgress
  import opened ProtocolOutcome
  import ProtocolTermination
  import opened ProtocolErrors
  import ProtocolBarrier
  import opened ProtocolSolo

  /** Every task of a pool but its source needs another task of the pool: the pool is what its source feeds. */
  ghost predicate Fed(c: Config) {
    forall i: PoolId, t: TaskName :: InPool(c, i, t) && t != c.pools[i].order[0] ==> FedBy(c, i, t)
  }

  ghost predicate FedBy(c: Config, i: PoolId, t: TaskName) {
    exists u :: u in PrevTasks(c, t) && InPool(c, i, u)
  }

  ghost predicate Shared(c: Config, i: PoolId, j: PoolId, t: TaskName) {
    i != j && InPool(c, i, t) && InPool(c, j, t)
  }

  // ------------------------------------------------------------ the earliest shared task

  lemma {:induction false} EarliestShared(c: Config, i: PoolId, j: PoolId, t: TaskName)
      returns (a: PoolId, b: PoolId, u: TaskName)
    requires Shared(c, i, j, t)
    ensures Shared(c, a, b, u) && NoSharedBelow(c, Rank(c, u))
    decreases Rank(c, t)
  {
    if NoSharedBelow(c, Rank(c, t)) {
      a, b, u := i, j, t;
    } else {
      var x, y, v :| InPool(c, x, v) && InPool(c, y, v) && Rank(c, v) < Rank(c, t) && x != y;
      a, b, u := EarliestShared(c, x, y, v);
    }
  }

  // ------------------------------------------------------------ the failure spreads to it

  /** In a complete end every task of the pool whose source has failed is in error. */
  lemma {:induction false} WholePoolFails(c: Config, s: State, i: PoolId, t: TaskName)
    requires WellFormed(c) && Fed(c) && Complete(c, s) && InPool(c, i, t)
    requires InfoOf(s.m.info, c.pools[i].order[0]).state == Error
    ensures InfoOf(s.m.info, t).state == Error
    decreases Rank(c, t)
  {
    hide PoolsOk, OrdersOk, IsThrough, AllReleased, SomePrevFailed;
    if t != c.pools[i].order[0] {
      assert FedBy(c, i, t);
      var u :| u in PrevTasks(c, t) && InPool(c, i, u);
      WholePoolFails(c, s, i, u);
      FailedBecause(c, s.m.info, t, u);
      assert InSomePool(c, t) && PassedOk(c, s.m.info, t);
    }
  }

  lemma FailedBecause(c: Config, info: Info, t: TaskName, u: TaskName)
    requires u in PrevTasks(c, t) && InfoOf(info, u).state == Error
    ensures SomePrevFailed(LayoutOf(c), info, t)
  {
    var prev := PrevTasks(c, t);
    var i :| 0 <= i < |prev| && prev[i] == u;
  }

  // ------------------------------------------------------------ becoming active

  /** No task passes without having been active. */
  lemma NotSkipped(c: Config, s: State, h: History, s': State, u: TaskName, t: TaskName)
    requires Inv(c, s, h, {}) && |s'.m.owner| == |s.m.owner| && InSomePool(c, t)
    requires s'.m.owner == s.m.owner || StepHandsOver(c, s.m, s'.m, u)
    requires !Active(c, s.m.owner, {}, t) && !Passed(c, s.m.owner, {}, t)
    ensures !Passed(c, s'.m.owner, {}, t)
  {
    hide PoolsOk, GraphOk, NoSourceOk, ProcOk, PassedOk, ActiveOk, QueuesOk, Passed;
    assert TaskOk(c, s.m.info, s.m.owner, h, {}, t);
    var i :| 0 <= i < |c.pools| && InPool(c, i, t) && !Owns(s.m.owner, {}, i, t);
    assert !PassedBy(c, s.m.owner, {}, i, t);
    assert s'.m.owner != s.m.owner ==> Hands(c, s.m.owner, s'.m.owner, u, i);
    NotPassedByOne(c, s.m.owner, s'.m.owner, i, u, t);
    NotPassedIf(c, s'.m.owner, i, t);
  }

  lemma NotPassedIf(c: Config, owner: Owners, i: PoolId, t: TaskName)
    requires i < |c.pools| && InPool(c, i, t) && !PassedBy(c, owner, {}, i, t)
    ensures !Passed(c, owner, {}, t)
  {
  }

  /** A pool that is before task t goes on to t at most. */
  lemma NotPassedByOne(c: Config, owner: Owners, owner': Owners, i: PoolId, u: TaskName, t: TaskName)
    requires OrdersOk(c) && OwnersOk(c, owner, {}) && i < |owner| == |owner'| && InPool(c, i, t)
    requires owner'[i] == owner[i] || Hands(c, owner, owner', u, i)
    requires owner[i] != Some(t) && !PassedBy(c, owner, {}, i, t)
    ensures !PassedBy(c, owner', {}, i, t)
  {
    var order, v := c.pools[i].order, owner[i].value;
    var m :| 0 <= m < |order| && order[m] == t;
    if owner'[i] != owner[i] {
      var k :| 0 <= k < |order| && order[k] == u && owner'[i] == NextTask(order, k);
      if Rank(c, u) == Rank(c, t) {
        SameRankSameTask(c, i, u, t);
      }
      assert k < m;
    }
  }

  /** The processes of a task that becomes active have kept their indices so far, and keep them in that step. */
  lemma NewlyActive(c: Config, s: State, h: History, a: Act, t: TaskName, q: ProcId)
    requires Inv(c, s, h, {}) && Enabled(c, s, a) && a.Manage? && InSomePool(c, t)
    requires !Active(c, s.m.owner, {}, t) && !Passed(c, s.m.owner, {}, t) && q in Joined(c, t)
    requires Active(c, Do(c, s, a).m.owner, {}, t)
    ensures q < |s.procs| == |Do(c, s, a).procs| && Do(c, s, a).procs[q].index == s.procs[q].index
    ensures Early(c, q, s.procs[q], Rank(c, t))
  {
    hide PoolsOk, GraphOk, NoSourceOk, ProcOk, PassedOk, ActiveOk, QueuesOk, Passed, Active, Handle, PairsFit;
    StateShape(c, s, h);
    OwnerAt(c, s, h, q);
    var i := c.home[q];
    assert TaskOk(c, s.m.info, s.m.owner, h, {}, t);
    assert !PassedBy(c, s.m.owner, {}, i, t);
    if s.m.owner[i] == Some(t) {
      IdleIfNotActive(c, s, h, q, t);
    }
  }

  lemma IdleIfNotActive(c: Config, s: State, h: History, q: ProcId, t: TaskName)
    requires Inv(c, s, h, {}) && q < |s.procs| == |s.m.channels| && q < |c.home| && c.home[q] < |c.pools| == |s.m.owner|
    requires s.m.owner[c.home[q]] == Some(t) && !Active(c, s.m.owner, {}, t)
    ensures PhaseOf(OrderOf(c, q), s.procs[q], s.m.channels[q]) ==
            if TaskAt(s, q) < |OrderOf(c, q)| then WaitGo else Exited
  {
    hide OrdersOk, PoolsOk, GraphOk, NoSourceOk, TaskOk, SeatedOk, Active;
    assert ProcOk(c, s.m.info, s.m.owner, h, {}, q, s.procs[q], s.m.channels[q]);
  }

  lemma IndexKnown(c: Config, s': State, h': History, t: TaskName, q: ProcId)
    requires Inv(c, s', h', {}) && Active(c, s'.m.owner, {}, t) && q in Joined(c, t) && q < |s'.procs|
    requires IndexFits(c, q, s'.procs[q]) && t != c.pools[c.home[q]].order[0]
    ensures s'.procs[q].index.Some?
  {
    hide OrdersOk, PoolsOk, GraphOk, NoSourceOk, ProcOk, TaskOk, Active;
    OwnerAt(c, s', h', q);
    OwnsIt(c, s'.m.owner, t, c.home[q]);
  }

  /** The first process of a pool: its index is still 0 when the earliest shared task becomes active. */
  lemma FirstIsZero(c: Config, s: State, h: History, a: Act, h': History, t: TaskName, i: PoolId)
    requires Inv(c, s, h, {}) && Enabled(c, s, a) && a.Manage? && Inv(c, Do(c, s, a), h', {}) && InSomePool(c, t)
    requires !Active(c, s.m.owner, {}, t) && !Passed(c, s.m.owner, {}, t) && Active(c, Do(c, s, a).m.owner, {}, t)
    requires SoloOk(c, s, Rank(c, t)) && i < |c.pools| && InPool(c, i, t) && t != c.pools[i].order[0]
    ensures |c.pools[i].procs| > 0
    ensures var q := c.pools[i].procs[0];
            && q in Joined(c, t) && c.home[q] == i && q < |Do(c, s, a).procs| && Do(c, s, a).procs[q].index == Some(0)
  {
    hide Inv, Active, Passed, Handle, PairsFit, IndexFits, Early;
    PoolHas(c, s, h, i);
    ManagerHandOver.Members(c, i);
    var q, s' := c.pools[i].procs[0], Do(c, s, a);
    assert q in c.pools[i].procs;
    NewlyActive(c, s, h, a, t, q);
    SameIndexFits(c, q, s.procs[q], s'.procs[q]);
    IndexKnown(c, s', h', t, q);
    ZeroIndex(c, q, s'.procs[q], i);
  }

  lemma ZeroIndex(c: Config, q: ProcId, pr: Process, i: PoolId)
    requires IndexFits(c, q, pr) && pr.index.Some? && c.home[q] == i && NoDup(c.pools[i].procs) && c.pools[i].procs[0] == q
    ensures pr.index == Some(0)
  {
  }

  lemma TwoZeros(procs: seq<Process>, members: set<ProcId>, p: ProcId, q: ProcId)
    requires p in members && q in members && p != q && p < |procs| && q < |procs|
    requires procs[p].index == Some(0) && procs[q].index == Some(0)
    ensures !Numbered(procs, members)
  {
    SubsetSize({p, q}, members);
  }

  lemma SharedIsNoSource(c: Config, i: PoolId, j: PoolId, t: TaskName)
    requires WellFormed(c) && Shared(c, i, j, t)
    ensures i < |c.pools| && j < |c.pools| && t != c.pools[i].order[0] && t != c.pools[j].order[0] && InSomePool(c, t)
  {
  }

  /** The indices of two pools clash when the earliest task they share becomes active after a failure. */
  lemma BecomesMisaligned(c: Config, s: State, h: History, a: Act, h': History, i: PoolId, j: PoolId, t: TaskName)
    requires Inv(c, s, h, {}) && Enabled(c, s, a) && a.Manage? && Inv(c, Do(c, s, a), h', {})
    requires Shared(c, i, j, t) && SoloOk(c, s, Rank(c, t))
    requires !Active(c, s.m.owner, {}, t) && !Passed(c, s.m.owner, {}, t) && Active(c, Do(c, s, a).m.owner, {}, t)
    requires SomePrevFailed(LayoutOf(c), Do(c, s, a).m.info, t)
    ensures Misaligned(c, Do(c, s, a), t)
  {
    hide Inv, Active, Passed, Do, Enabled, SoloOk, SomePrevFailed, Numbered, WellFormed, InPool;
    InvWellFormed(c, s, h);
    SharedIsNoSource(c, i, j, t);
    FirstIsZero(c, s, h, a, h', t, i);
    FirstIsZero(c, s, h, a, h', t, j);
    TwoZeros(Do(c, s, a).procs, Joined(c, t), c.pools[i].procs[0], c.pools[j].procs[0]);
  }

  lemma InvWellFormed(c: Config, s: State, h: History)
    requires Inv(c, s, h, {})
    ensures WellFormed(c)
  {
  }

  // ------------------------------------------------------------ the run

  /** A predecessor that ends in error is in error when the task becomes active. */
  lemma FailedByThen(c: Config, s: State, h: History, acts: seq<Act>, s': State, t: TaskName, u: TaskName)
    requires Inv(c, s, h, {}) && Runs(c, s, acts, s') && Active(c, s.m.owner, {}, t)
    requires u in PrevTasks(c, t) && InSomePool(c, u) && InfoOf(s'.m.info, u).state == Error
    ensures SomePrevFailed(LayoutOf(c), s.m.info, t)
  {
    hide Inv, Runs, Active, Passed, PassedOk, SomePrevFailed;
    ProtocolTheorems.RunOnwards(c, s, h, acts, s');
    PrevIsPassed(c, s, h, t, u);
    ProtocolTheorems.PassedState(c, s, h, u);
    EndedState(c, s.m.info, u);
    FailedBecause(c, s.m.info, t, u);
  }

  lemma EndedState(c: Config, info: Info, u: TaskName)
    requires PassedOk(c, info, u)
    ensures InfoOf(info, u).state == Finished || InfoOf(info, u).state == Error
  {
  }

  lemma PrevIsPassed(c: Config, s: State, h: History, t: TaskName, u: TaskName)
    requires Inv(c, s, h, {}) && Active(c, s.m.owner, {}, t) && u in PrevTasks(c, t) && InSomePool(c, u)
    ensures Passed(c, s.m.owner, {}, u)
  {
    hide NoSourceOk, ProcOk, TaskOk;
    ManagerHandOver.PrevPassed(c, s.m.owner, {}, t, u);
  }

  lemma {:induction false} RunMisaligns(c: Config, s: State, h: History, acts: seq<Act>, s': State, i: PoolId, j: PoolId, t: TaskName,
                                        u: TaskName)
    requires Inv(c, s, h, {}) && Runs(c, s, acts, s') && Shared(c, i, j, t) && NoSharedBelow(c, Rank(c, t)) && SoloOk(c, s, Rank(c, t))
    requires !Active(c, s.m.owner, {}, t) && !Passed(c, s.m.owner, {}, t) && Passed(c, s'.m.owner, {}, t)
    requires u in PrevTasks(c, t) && InSomePool(c, u) && InfoOf(s'.m.info, u).state == Error
    ensures SomeMisaligned(c, s')
    decreases acts
  {
    hide Inv, Do, Enabled, Active, Passed, SoloOk, NoSharedBelow, Misaligned, SomePrevFailed, StepHandsOver, Aligned, Joined;
    if x :| Misaligned(c, s, x) {
      MisalignedInRun(c, s, h, acts, s', x);
    } else {
      var a, s1 := acts[0], Do(c, s, acts[0]);
      SoloStep(c, s, h, a, Rank(c, t));
      var h1 := StepKeeps(c, s, h, a);
      NotYetPassed(c, s, h, a, t);
      if Active(c, s1.m.owner, {}, t) {
        OnlyByManager(c, s, a, t);
        FailedByThen(c, s1, h1, acts[1..], s', t, u);
        BecomesMisaligned(c, s, h, a, h1, i, j, t);
        MisalignedInRun(c, s1, h1, acts[1..], s', t);
      } else {
        RunMisaligns(c, s1, h1, acts[1..], s', i, j, t, u);
      }
    }
  }

  lemma OnlyByManager(c: Config, s: State, a: Act, t: TaskName)
    requires Enabled(c, s, a) && !Active(c, s.m.owner, {}, t) && Active(c, Do(c, s, a).m.owner, {}, t)
    ensures a.Manage?
  {
    hide Active, PairsFit, Handle, Receive, Issue;
  }

  lemma NotYetPassed(c: Config, s: State, h: History, a: Act, t: TaskName)
    requires Inv(c, s, h, {}) && Enabled(c, s, a) && NoneMisaligned(c, s) && InSomePool(c, t)
    requires !Active(c, s.m.owner, {}, t) && !Passed(c, s.m.owner, {}, t)
    ensures !Passed(c, Do(c, s, a).m.owner, {}, t)
  {
    hide Inv, Active, Passed, Misaligned, PairsFit, Handle, Receive, Issue, StepHandsOver, Aligned;
    if a.Manage? {
      var h', u, x := ManageKeeps(c, s, h, a.p, a.pairs);
      NumberedIffAligned(c, s, h, u);
      OwnersCount(c, s, h);
      OwnersCount(c, Do(c, s, a), h');
      NotSkipped(c, s, h, Do(c, s, a), u, t);
    }
  }

  // ------------------------------------------------------------ one exception

  lemma ErrorMarks(l: Layout, m: Manager, msg: Msg)
    requires msg.body.ErrorMsg? && Handle(l, m, msg, []).status != Crashed
    ensures InfoOf(Handle(l, m, msg, []).info, msg.task).state == Error
  {
    hide PutAll;
  }

  /** At the start the first process of a pool can enter run() of its source and raise an exception there. */
  lemma FirstRaises(c: Config, s0: State, i: PoolId, e: int) returns (p: ProcId, s: State)
    requires WellFormed(c) && Initial(c, s0) && i < |c.pools|
    ensures p < |c.home| && c.home[p] == i
    ensures Runs(c, s0, [Recv(p), Fail(p, e)], s) && s.m.status == Looping && p < |s.procs| && p < |s.m.channels|
    ensures s.procs[p].out == [Msg(c.pools[i].order[0], Some(0), ErrorMsg(Some(e)))]
    ensures s.m.info == s0.m.info && s.m.owner == s0.m.owner
  {
    hide OrdersOk, GraphOk, InitialTask;
    var procs := c.pools[i].procs;
    p := procs[0];
    assert p in procs;
    assert AtFirstReceive(s0, procs);
    var s1 := Do(c, s0, Recv(p));
    assert Enabled(c, s0, Recv(p)) && s1.procs[p].phase == Running(0);
    assert [Recv(p)][1..] == [];
    assert Runs(c, s0, [Recv(p)], s1);
    s := Do(c, s1, Fail(p, e));
    OneMore(c, s0, [Recv(p)], s1, Fail(p, e));
    assert [Recv(p)] + [Fail(p, e)] == [Recv(p), Fail(p, e)];
  }

  lemma OneMore(c: Config, s0: State, acts: seq<Act>, s: State, a: Act)
    requires Runs(c, s0, acts, s) && Enabled(c, s, a)
    ensures Runs(c, s0, acts + [a], Do(c, s, a))
  {
    hide Do, Enabled;
    assert [a][1..] == [];
    RunsJoin(c, s0, acts, s, [a], Do(c, s, a));
  }

  /** The manager takes the error: the source has failed. */
  lemma SourceFails(c: Config, s0: State, i: PoolId, e: int) returns (p: ProcId, s: State)
    requires WellFormed(c) && Initial(c, s0) && i < |c.pools|
    ensures p < |c.home| && c.home[p] == i && Runs(c, s0, [Recv(p), Fail(p, e), Manage(p, [])], s)
    ensures InfoOf(s.m.info, c.pools[i].order[0]).state == Error
  {
    hide Inv, Handle, Initial, Aligned, StepHandsOver, SomePrevFailed, Active;
    var s2;
    p, s2 := FirstRaises(c, s0, i, e);
    InitialGood(c, s0);
    var h2 := RunKeeps(c, s0, StartHistory(c, s0.m), [Recv(p), Fail(p, e)], s2);
    assert PairsFit(s2.m, s2.procs[p].out[0], []);
    s := Do(c, s2, Manage(p, []));
    OneMore(c, s0, [Recv(p), Fail(p, e)], s2, Manage(p, []));
    assert [Recv(p), Fail(p, e)] + [Manage(p, [])] == [Recv(p), Fail(p, e), Manage(p, [])];
    var h, u, x := ManageKeeps(c, s2, h2, p, []);
    ProtocolBarrier.HeadIs(c, s2, h2, p, u);
    SourceNotFailed(c, s2.m.info, i);
    NumberedIffAligned(c, s2, h2, u);
    GoesOnLooping(c, s2.m, s.m, u);
    ErrorMarks(LayoutOf(c), s2.m, s2.procs[p].out[0]);
  }

  lemma SourceNotFailed(c: Config, info: Info, i: PoolId)
    requires WellFormed(c) && i < |c.pools|
    ensures !SomePrevFailed(LayoutOf(c), info, c.pools[i].order[0])
  {
  }

  lemma GoesOnLooping(c: Config, m: Manager, m': Manager, u: TaskName)
    requires StepHandsOver(c, m, m', u) && m.status == Looping
    ensures m'.status != Crashed
  {
  }

  lemma AllPassed(c: Config, s: State, t: TaskName)
    requires Complete(c, s) && InSomePool(c, t) && |s.m.owner| == |c.pools|
    ensures Passed(c, s.m.owner, {}, t)
  {
    hide IsThrough, PassedOk;
  }

  lemma NotThereYet(c: Config, s0: State, i: PoolId, t: TaskName)
    requires WellFormed(c) && Initial(c, s0) && i < |c.pools| && InPool(c, i, t) && t != c.pools[i].order[0]
    ensures !Active(c, s0.m.owner, {}, t) && !Passed(c, s0.m.owner, {}, t)
  {
    hide InitialTask, AtFirstReceive, GraphOk;
    var order := c.pools[i].order;
    var k :| 0 <= k < |order| && order[k] == t;
    assert !Owns(s0.m.owner, {}, i, t) && !PassedBy(c, s0.m.owner, {}, i, t);
  }

  /** If two pools share a task, one exception, raised in run() of a source, is enough: some run in which nothing else goes wrong
      ends at a misaligned task, and from there the manager never leaves its loop. */
  lemma OneExceptionHangs(c: Config, s0: State, i: PoolId, j: PoolId, t: TaskName, e: int) returns (p: ProcId, rest: seq<Act>, s: State)
    requires WellFormed(c) && Fed(c) && Initial(c, s0) && Shared(c, i, j, t)
    ensures Runs(c, s0, [Recv(p), Fail(p, e), Manage(p, [])] + rest, s) && NoFailure(rest) && Quiescent(c, s) && SomeMisaligned(c, s)
    ensures forall more, s' :: Runs(c, s, more, s') ==> s'.m.status != Stopped
  {
    hide Inv, Initial, WellFormed, Fed, Complete, Quiescent, NoFailure, SomeMisaligned, InPool, NoSharedBelow, SoloOk, Active,
         Passed, Runs;
    var a, b, u := EarliestShared(c, i, j, t);
    SharedIsNoSource(c, a, b, u);
    var s3;
    p, s3 := SourceFails(c, s0, a, e);
    var first := [Recv(p), Fail(p, e), Manage(p, [])];
    assert Reachable(c, s3);
    rest, s := ProtocolTermination.RunsToTheEnd(c, s3);
    RunsJoin(c, s0, first, s3, rest, s);
    if !SomeMisaligned(c, s) {
      MustBeMisaligned(c, s0, s3, rest, first + rest, s, a, b, u);
    }
    NeverLeaves(c, s0, first + rest, s);
  }

  lemma NeverLeaves(c: Config, s0: State, acts: seq<Act>, s: State)
    requires WellFormed(c) && Initial(c, s0) && Runs(c, s0, acts, s) && SomeMisaligned(c, s)
    ensures forall more, s' :: Runs(c, s, more, s') ==> s'.m.status != Stopped
  {
    hide Initial, WellFormed, Misaligned, Runs;
    var x :| Misaligned(c, s, x);
    assert Reachable(c, s);
    forall more, s' | Runs(c, s, more, s') ensures s'.m.status != Stopped {
      MisalignedForever(c, s, more, s', x);
    }
  }

  lemma MustBeMisaligned(c: Config, s0: State, s3: State, rest: seq<Act>, acts: seq<Act>, s: State, a: PoolId, b: PoolId, u: TaskName)
    requires WellFormed(c) && Fed(c) && Initial(c, s0) && Shared(c, a, b, u) && NoSharedBelow(c, Rank(c, u))
    requires Reachable(c, s3) && Runs(c, s3, rest, s) && Runs(c, s0, acts, s) && Quiescent(c, s)
    requires a < |c.pools| && InfoOf(s3.m.info, c.pools[a].order[0]).state == Error
    ensures SomeMisaligned(c, s)
  {
    hide Inv, Initial, WellFormed, Complete, Quiescent, SomeMisaligned, NoSharedBelow, SoloOk, Active, Passed, Runs;
    assert Reachable(c, s);
    EndsComplete(c, s);
    if Complete(c, s) {
      SharedIsNoSource(c, a, b, u);
      ProtocolTheorems.StatesMoveOn(c, s3, rest, s);
      assert FedBy(c, a, u);
      var v :| v in PrevTasks(c, u) && InPool(c, a, v);
      WholePoolFails(c, s, a, v);
      InitialGood(c, s0);
      InitialSolo(c, s0, Rank(c, u));
      var h := RunKeeps(c, s0, StartHistory(c, s0.m), acts, s);
      OwnersCount(c, s, h);
      AllPassed(c, s, u);
      NotThereYet(c, s0, a, u);
      RunMisaligns(c, s0, StartHistory(c, s0.m), acts, s, a, b, u, v);
    }
  }

  /** However a run from s0 goes: once it can go no further, every task has ended. */
  ghost predicate AlwaysCompletes(c: Config, s0: State) {
    forall acts, s :: Runs(c, s0, acts, s) && Quiescent(c, s) ==> Complete(c, s)
  }

  /** The exact condition, known before the first run: every run that can go no further is complete if and only if no task is
      shared by two pools. */
  lemma CompletesExactlyWhen(c: Config, s0: State)
    requires WellFormed(c) && Fed(c) && Initial(c, s0)
    ensures NoSharedTask(c) <==> AlwaysCompletes(c, s0)
  {
    hide Inv, Initial, WellFormed, Fed, Complete, Quiescent, SomeMisaligned, Runs, InPool, NoFailure;
    if NoSharedTask(c) {
      forall acts, s | Runs(c, s0, acts, s) && Quiescent(c, s) ensures Complete(c, s) {
        assert Reachable(c, s);
        SoloPoolsComplete(c, s);
      }
    } else {
      var i, j, t :| InPool(c, i, t) && InPool(c, j, t) && i != j;
      var p, rest, s := OneExceptionHangs(c, s0, i, j, t, 0);
      var acts := [Recv(p), Fail(p, 0), Manage(p, [])] + rest;
      assert Reachable(c, s);
      EndsComplete(c, s);
      assert Runs(c, s0, acts, s) && Quiescent(c, s) && !Complete(c, s);
    }
  }
}
