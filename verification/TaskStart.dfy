module TaskStart {
  /** What tasks_run has set up is an initial state of the protocol, and it marks exactly the tasks that nothing feeds. */

  import opened Basics
  import opened TaskModel
  import opened TaskProtocol
  import opened TaskGraph
  import opened TaskManagers
  import opened TaskSetUp

  /** What SetUp promises. */
  ghost predicate SetUpDone(f: Flow, order: seq<TaskName>, sources: seq<TaskName>, counts: seq<nat>, used: seq<TaskName>,
                            orders: seq<seq<TaskName>>, home: seq<PoolId>, m: Manager, procs: seq<seq<ProcId>>)
  {
    && |counts| == |sources| && |procs| == |used| && m.status == Looping
    && PoolsMade(f, order, sources, counts, |sources|, used, orders, m.owner, procs)
    && ProcsMade(procs, home, m.channels)
    && EntriesMade(m.info, used, orders, procs)
    && MarksMade(f, sources, counts, |sources|, m.info)
    && |home| == Sum(counts)
  }

  // ------------------------------------------------------------ which pools a task is in

  lemma ReachesFrom(f: Flow, from: seq<TaskName>, s: TaskName, t: TaskName)
    requires s in from && Reaches(f, [s], t)
    ensures Reaches(f, from, t)
  {
    var path :| PathTo(f, [s], path, t);
    assert PathTo(f, from, path, t);
  }

  lemma ReachesBack(f: Flow, from: seq<TaskName>, t: TaskName) returns (u: TaskName)
    requires Reaches(f, from, t) && t !in from
    ensures Reaches(f, from, u) && t in NextIn(f, u)
  {
    var path :| PathTo(f, from, path, t);
    u := path[|path| - 2];
    assert path[|path| - 2 + 1] in NextIn(f, u);
    assert PathTo(f, from, path[..|path| - 1], u);
  }

  lemma UsedIsSource(f: Flow, order: seq<TaskName>, sources: seq<TaskName>, counts: seq<nat>, used: seq<TaskName>,
                     orders: seq<seq<TaskName>>, owner: seq<Option<TaskName>>, procs: seq<seq<ProcId>>, i: nat)
    requires |counts| == |sources| && PoolsMade(f, order, sources, counts, |sources|, used, orders, owner, procs) && i < |used|
    ensures used[i] in sources && HasData(sources, counts, |sources|, used[i])
  {
    hide Restrict, Reaches;
    assert HasData(sources, counts, |sources|, used[i]);
    var j :| 0 <= j < |sources| && j < |sources| && sources[j] == used[i] && counts[j] > 0;
  }

  /** A pool walks through exactly what its source feeds. */
  lemma InOrders(f: Flow, order: seq<TaskName>, sources: seq<TaskName>, counts: seq<nat>, rank: Ranks, used: seq<TaskName>,
                 orders: seq<seq<TaskName>>, owner: seq<Option<TaskName>>, procs: seq<seq<ProcId>>, i: nat, t: TaskName)
    requires PipelineOk(f, order, sources, rank) && |counts| == |sources| && i < |used|
    requires PoolsMade(f, order, sources, counts, |sources|, used, orders, owner, procs)
    ensures i < |orders| && (t in orders[i] <==> Reaches(f, [used[i]], t))
    ensures t in orders[i] ==> t in order
  {
    hide Reaches, Acyclic, Mirrored, Grounded, Topological;
    UsedIsSource(f, order, sources, counts, used, orders, owner, procs, i);
    if Reaches(f, [used[i]], t) {
      ReachesFrom(f, sources, used[i], t);
    }
  }

  ghost predicate InSomeOrder(orders: seq<seq<TaskName>>, t: TaskName) {
    exists i :: 0 <= i < |orders| && t in orders[i]
  }

  lemma EmptySourceIsHead(f: Flow, order: seq<TaskName>, sources: seq<TaskName>, counts: seq<nat>, rank: Ranks, t: TaskName)
    requires PipelineOk(f, order, sources, rank) && |counts| == |sources|
    ensures IsEmptySource(sources, counts, |sources|, t) ==> PrevIn(f, t) == []
    ensures IsEmptySource(sources, counts, |sources|, t) ==> !HasData(sources, counts, |sources|, t)
    ensures t in sources && !IsEmptySource(sources, counts, |sources|, t) ==> HasData(sources, counts, |sources|, t)
  {
    hide Reaches, Acyclic, Mirrored, Grounded, Topological, PrevIn;
    if t in sources {
      var j :| 0 <= j < |sources| && sources[j] == t;
      if counts[j] > 0 {
        assert HasData(sources, counts, |sources|, t);
      } else {
        assert IsEmptySource(sources, counts, |sources|, t);
      }
    }
  }

  /** A task that some pool reaches is not marked. */
  lemma {:induction false} FedNotMarked(f: Flow, order: seq<TaskName>, sources: seq<TaskName>, counts: seq<nat>, rank: Ranks,
                                        used: seq<TaskName>, orders: seq<seq<TaskName>>, home: seq<PoolId>, m: Manager,
                                        procs: seq<seq<ProcId>>, i: nat, t: TaskName)
    requires PipelineOk(f, order, sources, rank) && SetUpDone(f, order, sources, counts, used, orders, home, m, procs)
    requires i < |used| && Reaches(f, [used[i]], t)
    ensures !Marked(m.info, t)
    decreases RankOf(rank, t)
  {
    hide Reaches, Grounded, Topological, PrevIn, NextIn, ProcsMade, EntriesMade, Restrict, RankOf, IsEmptySource, HasData, Marked;
    EmptySourceIsHead(f, order, sources, counts, rank, t);
    UsedIsSource(f, order, sources, counts, used, orders, m.owner, procs, i);
    if t !in [used[i]] {
      var u := ReachesBack(f, [used[i]], t);
      assert u in PrevIn(f, t);
      FedNotMarked(f, order, sources, counts, rank, used, orders, home, m, procs, i, u);
    }
  }

  /** A task of the graph that no pool reaches is marked. */
  lemma {:induction false} UnfedMarked(f: Flow, order: seq<TaskName>, sources: seq<TaskName>, counts: seq<nat>, rank: Ranks,
                                       used: seq<TaskName>, orders: seq<seq<TaskName>>, home: seq<PoolId>, m: Manager,
                                       procs: seq<seq<ProcId>>, t: TaskName)
    requires PipelineOk(f, order, sources, rank) && SetUpDone(f, order, sources, counts, used, orders, home, m, procs)
    requires Reaches(f, sources, t) && forall i :: 0 <= i < |used| ==> !Reaches(f, [used[i]], t)
    ensures Marked(m.info, t)
    decreases RankOf(rank, t)
  {
    hide Reaches, Topological, PrevIn, NextIn, ProcsMade, EntriesMade, Restrict, RankOf, Marked;
    EmptySourceIsHead(f, order, sources, counts, rank, t);
    HeadOrHasPrev(f, sources, t);
    if t in sources {
      SourceUnused(f, order, sources, counts, used, orders, m.owner, procs, t);
    } else {
      forall u | u in PrevIn(f, t) ensures Marked(m.info, u) {
        forall i | 0 <= i < |used| ensures !Reaches(f, [used[i]], u) {
          if Reaches(f, [used[i]], u) {
            ReachesNext(f, [used[i]], u, t);
          }
        }
        UnfedMarked(f, order, sources, counts, rank, used, orders, home, m, procs, u);
      }
      assert Starved(f, m.info, t);
    }
  }

  lemma SourceUnused(f: Flow, order: seq<TaskName>, sources: seq<TaskName>, counts: seq<nat>, used: seq<TaskName>,
                     orders: seq<seq<TaskName>>, owner: seq<Option<TaskName>>, procs: seq<seq<ProcId>>, t: TaskName)
    requires |counts| == |sources| && PoolsMade(f, order, sources, counts, |sources|, used, orders, owner, procs)
    requires forall i :: 0 <= i < |used| ==> !Reaches(f, [used[i]], t)
    ensures !HasData(sources, counts, |sources|, t)
  {
    hide Reaches, Restrict;
    if j :| 0 <= j < |sources| && sources[j] == t && counts[j] > 0 {
      assert sources[j] in used;
      var i :| 0 <= i < |used| && used[i] == t;
      ReachesStart(f, [t], t);
    }
  }

  /** Whatever the order of the sources: a task is marked as having no source data exactly when it is in no pool. */
  lemma MarkedIffInNoPool(f: Flow, order: seq<TaskName>, sources: seq<TaskName>, counts: seq<nat>, rank: Ranks,
                          used: seq<TaskName>, orders: seq<seq<TaskName>>, home: seq<PoolId>, m: Manager,
                          procs: seq<seq<ProcId>>, t: TaskName)
    requires PipelineOk(f, order, sources, rank) && SetUpDone(f, order, sources, counts, used, orders, home, m, procs)
    requires t in order
    ensures InfoOf(m.info, t).state == NoSourceData <==> !InSomeOrder(orders, t)
  {
    hide Reaches, Grounded, Topological, Acyclic, Mirrored, ProcsMade, EntriesMade, MarksMade, Restrict;
    forall i | 0 <= i < |used| ensures i < |orders| && (t in orders[i] <==> Reaches(f, [used[i]], t)) {
      InOrders(f, order, sources, counts, rank, used, orders, m.owner, procs, i, t);
    }
    if i :| 0 <= i < |used| && Reaches(f, [used[i]], t) {
      FedNotMarked(f, order, sources, counts, rank, used, orders, home, m, procs, i, t);
    } else {
      UnfedMarked(f, order, sources, counts, rank, used, orders, home, m, procs, t);
    }
  }

  // ------------------------------------------------------------ positions

  /** A task comes after everything it needs. */
  lemma NeedsEarlier(f: Flow, order: seq<TaskName>, t: TaskName, u: TaskName)
    requires NoDup(order) && Topological(f, order) && t in order && u in PrevIn(f, t)
    ensures u in order && PositionOf(order, u) < PositionOf(order, t)
  {
    hide PrevIn;
    var k := PositionOf(order, t);
    assert order[k] == t;
    assert u in order[..k];
    var j :| 0 <= j < k && order[..k][j] == u;
    PositionIs(order, j);
  }

  /** A data source comes before everything it feeds. */
  lemma {:induction false} FedLater(f: Flow, order: seq<TaskName>, sources: seq<TaskName>, rank: Ranks, s: TaskName, t: TaskName)
    requires PipelineOk(f, order, sources, rank) && s in sources && Reaches(f, [s], t)
    ensures s in order && t in order && (t != s ==> PositionOf(order, s) < PositionOf(order, t))
    decreases RankOf(rank, t)
  {
    hide Reaches, Grounded, Topological, PrevIn, NextIn, RankOf, PositionOf;
    ReachesStart(f, [s], s);
    ReachesFrom(f, sources, s, s);
    ReachesFrom(f, sources, s, t);
    if t != s {
      var u := ReachesBack(f, [s], t);
      assert u in PrevIn(f, t);
      NeedsEarlier(f, order, t, u);
      FedLater(f, order, sources, rank, s, u);
    }
  }

  /** r keeps the order of `whole`. */
  ghost predicate Increasing(whole: seq<TaskName>, r: seq<TaskName>) {
    && (forall t :: t in r ==> t in whole)
    && forall a, b :: 0 <= a < b < |r| ==>
         r[a] in whole && r[b] in whole && PositionOf(whole, r[a]) < PositionOf(whole, r[b])
  }

  lemma {:induction false} RestrictIncreases(order: seq<TaskName>, keep: set<TaskName>, whole: seq<TaskName>)
    requires NoDup(whole) && order <= whole
    ensures Increasing(whole, Restrict(order, keep))
  {
    hide PositionOf, Increasing;
    if order == [] {
      EmptyIncreases(whole);
    } else {
      var front, last := order[..|order| - 1], order[|order| - 1];
      RestrictIncreases(front, keep, whole);
      var r := Restrict(front, keep);
      PositionIs(whole, |order| - 1);
      forall t | t in r ensures t in whole && PositionOf(whole, t) < |order| - 1 {
        var j :| 0 <= j < |front| && front[j] == t;
        PositionIs(whole, j);
      }
      IncreasingMore(whole, r, last);
      assert r + [] == r;
    }
  }

  lemma EmptyIncreases(whole: seq<TaskName>)
    ensures Increasing(whole, [])
  {
  }

  lemma IncreasingMore(whole: seq<TaskName>, r: seq<TaskName>, last: TaskName)
    requires Increasing(whole, r) && last in whole
    requires forall t :: t in r ==> t in whole && PositionOf(whole, t) < PositionOf(whole, last)
    ensures Increasing(whole, r + [last])
  {
    hide PositionOf;
    assert forall a :: 0 <= a < |r| ==> r[a] in r;
  }

  /** A pool starts at its data source. */
  lemma StartsAtSource(f: Flow, order: seq<TaskName>, sources: seq<TaskName>, rank: Ranks, s: TaskName, r: seq<TaskName>)
    requires PipelineOk(f, order, sources, rank) && s in sources && r == Restrict(order, ReachSet(f, [s]))
    ensures |r| > 0 && r[0] == s
    ensures Increasing(order, r)
  {
    hide Reaches, Grounded, Topological, Acyclic, Mirrored, PositionOf, Restrict;
    RestrictIncreases(order, ReachSet(f, [s]), order);
    ReachesStart(f, [s], s);
    FedLater(f, order, sources, rank, s, s);
    assert s in r;
    var a :| 0 <= a < |r| && r[a] == s;
    assert r[0] in r && Reaches(f, [s], r[0]);
    FedLater(f, order, sources, rank, s, r[0]);
  }

  // ------------------------------------------------------------ the configuration

  lemma PoolTask(f: Flow, order: seq<TaskName>, orders: seq<seq<TaskName>>, procs: seq<seq<ProcId>>, home: seq<PoolId>,
                 program: map<TaskName, seq<Collective>>)
    requires |orders| == |procs|
    ensures var c := ConfigOf(f, order, orders, procs, home, program);
            && |c.pools| == |orders| && c.home == home
            && (forall i :: 0 <= i < |orders| ==> c.pools[i] == Pool(orders[i], procs[i]))
            && (forall i: PoolId, t: TaskName :: InPool(c, i, t) <==> i < |orders| && t in orders[i])
            && (forall t :: PrevTasks(c, t) == PrevIn(f, t))
            && (forall t :: t in order ==> Rank(c, t) == PositionOf(order, t))
  {
    hide PositionOf, PrevIn;
  }

  lemma SetUpOrders(f: Flow, order: seq<TaskName>, sources: seq<TaskName>, counts: seq<nat>, rank: Ranks, used: seq<TaskName>,
                    orders: seq<seq<TaskName>>, home: seq<PoolId>, m: Manager, procs: seq<seq<ProcId>>)
    requires PipelineOk(f, order, sources, rank) && SetUpDone(f, order, sources, counts, used, orders, home, m, procs)
    ensures |orders| == |used| == |procs| == |m.owner|
    ensures forall i :: 0 <= i < |orders| ==> |orders[i]| > 0 && orders[i][0] == used[i] && used[i] in sources
    ensures forall i, t :: 0 <= i < |orders| && t in orders[i] ==> t in order && Reaches(f, [used[i]], t)
    ensures forall i, t :: 0 <= i < |orders| && Reaches(f, [used[i]], t) ==> t in orders[i]
    ensures forall i :: 0 <= i < |orders| ==> Increasing(order, orders[i])
  {
    hide Reaches, Grounded, Topological, Acyclic, Mirrored, PositionOf, Restrict, ProcsMade, EntriesMade, MarksMade, NoDup,
         Increasing;
    forall i | 0 <= i < |orders|
      ensures |orders[i]| > 0 && orders[i][0] == used[i] && used[i] in sources
      ensures forall t :: t in orders[i] ==> t in order && Reaches(f, [used[i]], t)
      ensures forall t :: Reaches(f, [used[i]], t) ==> t in orders[i]
      ensures Increasing(order, orders[i])
    {
      UsedIsSource(f, order, sources, counts, used, orders, m.owner, procs, i);
      StartsAtSource(f, order, sources, rank, used[i], orders[i]);
      forall t ensures t in orders[i] <==> Reaches(f, [used[i]], t)
               ensures t in orders[i] ==> t in order
      {
        InOrders(f, order, sources, counts, rank, used, orders, m.owner, procs, i, t);
      }
    }
  }

  /** The set-up meets everything that the protocol demands of its configuration. */
  lemma SetUpWellFormed(f: Flow, order: seq<TaskName>, sources: seq<TaskName>, counts: seq<nat>, rank: Ranks,
                        used: seq<TaskName>, orders: seq<seq<TaskName>>, home: seq<PoolId>, m: Manager,
                        procs: seq<seq<ProcId>>, program: map<TaskName, seq<Collective>>)
    requires PipelineOk(f, order, sources, rank) && SetUpDone(f, order, sources, counts, used, orders, home, m, procs)
    ensures |orders| == |procs| && WellFormed(ConfigOf(f, order, orders, procs, home, program))
  {
    hide Reaches, Grounded, Topological, Acyclic, Mirrored, PositionOf, Restrict, PoolsMade, ProcsMade, EntriesMade, MarksMade,
         ConfigOf, NoDup, InPool, PrevTasks, Rank, PrevIn;
    SetUpOrders(f, order, sources, counts, rank, used, orders, home, m, procs);
    PoolTask(f, order, orders, procs, home, program);
    var c := ConfigOf(f, order, orders, procs, home, program);
    SetUpPools(f, order, sources, counts, rank, used, orders, home, m, procs, program);
    forall i, a, b | 0 <= i < |c.pools| && 0 <= a < b < |c.pools[i].order|
      ensures Rank(c, c.pools[i].order[a]) < Rank(c, c.pools[i].order[b])
    {
      assert Increasing(order, orders[i]);
    }
    forall i, t, u | 0 <= i < |c.pools| && InPool(c, i, u) && u in PrevTasks(c, t)
      ensures InPool(c, i, t) && Rank(c, u) < Rank(c, t)
    {
      NextInSamePool(f, order, sources, rank, used[i], t, u);
    }
    forall i, j | 0 <= i < |c.pools| && 0 <= j < |c.pools| && i != j && |c.pools[i].order| > 0
      ensures !InPool(c, j, c.pools[i].order[0])
    {
      SourceAlone(f, order, sources, counts, rank, used, orders, m.owner, procs, i, j);
    }
  }

  lemma NextInSamePool(f: Flow, order: seq<TaskName>, sources: seq<TaskName>, rank: Ranks, s: TaskName, t: TaskName, u: TaskName)
    requires PipelineOk(f, order, sources, rank) && s in sources && Reaches(f, [s], u) && u in PrevIn(f, t)
    ensures Reaches(f, [s], t) && t in order && u in order && PositionOf(order, u) < PositionOf(order, t)
  {
    hide Reaches, Grounded, Topological, PositionOf, PrevIn, NextIn;
    ReachesNext(f, [s], u, t);
    ReachesFrom(f, sources, s, t);
    NeedsEarlier(f, order, t, u);
  }

  lemma SourceAlone(f: Flow, order: seq<TaskName>, sources: seq<TaskName>, counts: seq<nat>, rank: Ranks, used: seq<TaskName>,
                    orders: seq<seq<TaskName>>, owner: seq<Option<TaskName>>, procs: seq<seq<ProcId>>, i: nat, j: nat)
    requires PipelineOk(f, order, sources, rank) && |counts| == |sources| && i < |used| && j < |used| && i != j
    requires PoolsMade(f, order, sources, counts, |sources|, used, orders, owner, procs)
    ensures !Reaches(f, [used[j]], used[i])
  {
    hide Reaches, Grounded, Topological, Restrict, PrevIn, NextIn;
    UsedIsSource(f, order, sources, counts, used, orders, owner, procs, i);
    assert used[i] != used[j];
    if Reaches(f, [used[j]], used[i]) {
      var u := ReachesBack(f, [used[j]], used[i]);
    }
  }

  lemma SetUpPools(f: Flow, order: seq<TaskName>, sources: seq<TaskName>, counts: seq<nat>, rank: Ranks,
                   used: seq<TaskName>, orders: seq<seq<TaskName>>, home: seq<PoolId>, m: Manager,
                   procs: seq<seq<ProcId>>, program: map<TaskName, seq<Collective>>)
    requires SetUpDone(f, order, sources, counts, used, orders, home, m, procs) && |orders| == |procs|
    requires forall i :: 0 <= i < |orders| ==> |orders[i]| > 0
    ensures PoolsOk(ConfigOf(f, order, orders, procs, home, program))
  {
    hide Reaches, Restrict, EntriesMade, MarksMade, ConfigOf, GoesSent;
    PoolTask(f, order, orders, procs, home, program);
    var c := ConfigOf(f, order, orders, procs, home, program);
    forall i, p | 0 <= i < |c.pools| && p in c.pools[i].procs ensures p < |c.home| && c.home[p] == i {
      assert AtHome(procs[i], home, i);
    }
  }

  /** And it is an initial state of the protocol: every theorem about its runs applies to what tasks_run starts. */
  lemma SetUpIsInitial(f: Flow, order: seq<TaskName>, sources: seq<TaskName>, counts: seq<nat>, rank: Ranks,
                       used: seq<TaskName>, orders: seq<seq<TaskName>>, home: seq<PoolId>, m: Manager,
                       procs: seq<seq<ProcId>>, program: map<TaskName, seq<Collective>>)
    requires PipelineOk(f, order, sources, rank) && SetUpDone(f, order, sources, counts, used, orders, home, m, procs)
    requires exists j :: 0 <= j < |counts| && counts[j] > 0
    ensures |orders| == |procs|
    ensures var c := ConfigOf(f, order, orders, procs, home, program);
            WellFormed(c) && Initial(c, State(m, NewProcesses(|home|)))
  {
    hide Reaches, Grounded, Topological, Acyclic, Mirrored, PositionOf, Restrict, PoolsMade, ProcsMade, EntriesMade, MarksMade,
         ConfigOf, NoDup, InPool, PrevTasks, Rank, PrevIn, WellFormed, InitialTask;
    SetUpWellFormed(f, order, sources, counts, rank, used, orders, home, m, procs, program);
    SetUpOrders(f, order, sources, counts, rank, used, orders, home, m, procs);
    PoolTask(f, order, orders, procs, home, program);
    var c := ConfigOf(f, order, orders, procs, home, program);
    OwnersSet(f, order, sources, counts, used, orders, home, m, procs);
    forall t | InSomePool(c, t) ensures InitialTask(c, m, t) && InSomeOrder(orders, t) && t in order {
      InitialEntry(f, order, sources, counts, rank, used, orders, home, m, procs, program, t);
    }
    forall t, u | InSomePool(c, t) && u in PrevTasks(c, t) && !InSomePool(c, u) ensures InfoOf(m.info, u).state == NoSourceData {
      NeededInOrder(f, order, sources, rank, t, u);
      NotInOrders(c, orders, u);
      MarkedIffInNoPool(f, order, sources, counts, rank, used, orders, home, m, procs, u);
    }
    forall i | 0 <= i < |c.pools| ensures AtFirstReceive(State(m, NewProcesses(|home|)), c.pools[i].procs) {
      GoAtStart(procs, home, m, i);
    }
  }

  lemma GoAtStart(procs: seq<seq<ProcId>>, home: seq<PoolId>, m: Manager, i: nat)
    requires ProcsMade(procs, home, m.channels) && i < |procs|
    ensures AtFirstReceive(State(m, NewProcesses(|home|)), procs[i])
  {
    hide HomesMade;
    assert PoolSent(procs[i], m.channels);
  }

  lemma NotInOrders(c: Config, orders: seq<seq<TaskName>>, u: TaskName)
    requires !InSomePool(c, u) && |c.pools| == |orders|
    requires forall i: PoolId, t: TaskName :: InPool(c, i, t) <==> i < |orders| && t in orders[i]
    ensures !InSomeOrder(orders, u)
  {
    hide InPool;
    forall i | 0 <= i < |orders| ensures u !in orders[i] {
      assert !InPool(c, i, u);
    }
  }

  lemma NeededInOrder(f: Flow, order: seq<TaskName>, sources: seq<TaskName>, rank: Ranks, t: TaskName, u: TaskName)
    requires PipelineOk(f, order, sources, rank) && t in order && u in PrevIn(f, t)
    ensures u in order
  {
    hide Reaches, PrevIn;
  }

  lemma OwnersSet(f: Flow, order: seq<TaskName>, sources: seq<TaskName>, counts: seq<nat>, used: seq<TaskName>,
                  orders: seq<seq<TaskName>>, home: seq<PoolId>, m: Manager, procs: seq<seq<ProcId>>)
    requires SetUpDone(f, order, sources, counts, used, orders, home, m, procs)
    requires exists j :: 0 <= j < |counts| && counts[j] > 0
    ensures |used| > 0 && |m.channels| == |home|
    ensures forall i :: 0 <= i < |used| ==> i < |m.owner| && m.owner[i] == Some(used[i])
  {
    hide Reaches, Restrict, EntriesMade, MarksMade, HomesMade, GoesSent;
    var j :| 0 <= j < |counts| && counts[j] > 0;
    assert sources[j] in used;
  }

  lemma InitialEntry(f: Flow, order: seq<TaskName>, sources: seq<TaskName>, counts: seq<nat>, rank: Ranks,
                     used: seq<TaskName>, orders: seq<seq<TaskName>>, home: seq<PoolId>, m: Manager,
                     procs: seq<seq<ProcId>>, program: map<TaskName, seq<Collective>>, t: TaskName)
    requires PipelineOk(f, order, sources, rank) && SetUpDone(f, order, sources, counts, used, orders, home, m, procs)
    requires |orders| == |procs| && InSomePool(ConfigOf(f, order, orders, procs, home, program), t)
    ensures InitialTask(ConfigOf(f, order, orders, procs, home, program), m, t) && InSomeOrder(orders, t) && t in order
  {
    hide Reaches, Grounded, Topological, Acyclic, Mirrored, PositionOf, Restrict, PoolsMade, ProcsMade, MarksMade, ConfigOf,
         NoDup, InPool, PrevTasks, Rank, PrevIn;
    SetUpOrders(f, order, sources, counts, rank, used, orders, home, m, procs);
    PoolTask(f, order, orders, procs, home, program);
    var c := ConfigOf(f, order, orders, procs, home, program);
    var i :| 0 <= i < |c.pools| && InPool(c, i, t);
    assert t in orders[i];
    MarkedIffInNoPool(f, order, sources, counts, rank, used, orders, home, m, procs, t);
    assert EntryMade(InfoOf(m.info, t), t, used, orders, procs);
    if t in used {
      var j :| 0 <= j < |used| && used[j] == t;
      assert |c.pools[j].order| > 0 && c.pools[j].order[0] == t;
    }
  }
}
