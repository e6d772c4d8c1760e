/**
 The smallest configuration in which a run never completes: two data sources
 with one process each, and a third task that needs both.  When the first source
 fails, the third task is started with "error"; each process still holds
 index 0 from its own source, and the error barrier never completes.
 */
module ProtocolWitness {
  import opened Basics
  import opened TaskModel
  import opened TaskProtocol
  import opened ProtocolInvariant
  import opened ProtocolProgress
  import opened ProtocolOutcome
  import opened ProtocolShared

  function Fork(): Config {
    Config(map[2 := [0, 1]], [Pool([0, 2], [0]), Pool([1, 2], [1])], [0, 1], map[0 := 0, 1 := 1, 2 := 2], map[])
  }

  lemma ForkPools()
    ensures |Fork().pools| == 2 && Fork().pools[0].order == [0, 2] && Fork().pools[1].order == [1, 2]
    ensures forall i: PoolId, t: TaskName :: InPool(Fork(), i, t) <==> i < 2 && (t == i || t == 2)
    ensures forall t: TaskName :: PrevTasks(Fork(), t) == if t == 2 then [0, 1] else []
    ensures Rank(Fork(), 0) == 0 && Rank(Fork(), 1) == 1 && Rank(Fork(), 2) == 2
  {
    assert forall t: TaskName :: t in [0, 2] <==> t == 0 || t == 2;
    assert forall t: TaskName :: t in [1, 2] <==> t == 1 || t == 2;
  }

  lemma ForkWellFormed()
    ensures WellFormed(Fork())
  {
    assert PoolsOk(Fork()) by {
      assert 0 in Fork().pools[0].procs && 1 in Fork().pools[1].procs;
    }
    ForkPools();
    ForkOrders();
    ForkGraph();
  }

  lemma ForkOrders()
    ensures OrdersOk(Fork())
  {
    hide InPool, PrevTasks, Rank;
    ForkPools();
  }

  lemma ForkGraph()
    ensures GraphOk(Fork())
  {
    hide InPool, PrevTasks, Rank;
    ForkPools();
    assert forall u: TaskName :: u in [0, 1] <==> u == 0 || u == 1;
  }

  const SOURCE0 := TaskInfo([0], [0], Unstart, [])
  const SOURCE1 := TaskInfo([1], [1], Unstart, [])
  const JOIN := TaskInfo([0, 1], [], Unstart, [])
  const AT_START := Process(0, WaitGo, None, [], [])

  function Start(): State {
    State(Manager(map[0 := SOURCE0, 1 := SOURCE1, 2 := JOIN], [Some(0), Some(1)], [[Go(0)], [Go(0)]], Looping), [AT_START, AT_START])
  }

  lemma StartIsInitial()
    ensures Initial(Fork(), Start())
  {
    hide InPool, PrevTasks, Rank, InitialTask;
    var c, s := Fork(), Start();
    ForkPools();
    forall t | InSomePool(c, t) ensures InitialTask(c, s.m, t) {
      StartTasks(t);
    }
    assert InPool(c, 0, 0) && InPool(c, 1, 1);
  }

  lemma StartTasks(t: TaskName)
    requires t == 0 || t == 1 || t == 2
    ensures InitialTask(Fork(), Start().m, t)
  {
    hide InPool;
    ForkPools();
    var c, m := Fork(), Start().m;
    assert m.info[0].waitPools == [0] && m.info[1].waitPools == [1] && m.info[2].waitPools == [0, 1];
    assert c.pools[0].order[0] == 0 && c.pools[1].order[0] == 1;
  }

  lemma ForkFed()
    ensures Fed(Fork())
  {
    hide InPool, PrevTasks;
    ForkPools();
    var c := Fork();
    forall i: PoolId, t: TaskName | InPool(c, i, t) && t != c.pools[i].order[0] ensures FedBy(c, i, t) {
      assert [0, 1][i] == i && i in PrevTasks(c, t) && InPool(c, i, i);
    }
  }

  /** Misaligned tasks do occur, so not every run completes: one exception in a source leads to a state from which no continuation
      stops the manager. */
  lemma SomeRunsNeverComplete(e: int) returns (p: ProcId, rest: seq<Act>, s: State)
    ensures WellFormed(Fork()) && Initial(Fork(), Start())
    ensures Runs(Fork(), Start(), [Recv(p), Fail(p, e), Manage(p, [])] + rest, s) && NoFailure(rest) && Misaligned(Fork(), s, 2)
    ensures forall more, s' :: Runs(Fork(), s, more, s') ==> s'.m.status != Stopped
  {
    hide WellFormed, Initial, Runs, NoFailure, InPool, PrevTasks;
    ForkWellFormed();
    ForkFed();
    StartIsInitial();
    ForkPools();
    p, rest, s := OneExceptionHangs(Fork(), Start(), 0, 1, 2, e);
    var t :| Misaligned(Fork(), s, t);
    OnlyJoin(s, t);
  }

  lemma OnlyJoin(s: State, t: TaskName)
    requires SomePrevFailed(LayoutOf(Fork()), s.m.info, t)
    ensures t == 2
  {
    hide InPool;
    ForkPools();
  }
}
