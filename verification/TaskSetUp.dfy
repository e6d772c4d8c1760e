/**
 tasks_run up to start(): one pool per data source that has data, marks for what
 has none.  What it sets up is an initial state of the task protocol.
 */
module TaskSetUp {
  import opened Basics
  import opened TaskModel
  import opened TaskProtocol
  import opened TaskGraph
  import opened TaskManagers
  import ManagerFrames

  /** What get_dag promises of the graph, its heads and its run order. */
  ghost predicate PipelineOk(f: Flow, order: seq<TaskName>, sources: seq<TaskName>, rank: Ranks) {
    && Acyclic(f, rank) && Mirrored(f) && Grounded(f, sources)
    && NoDup(order) && Topological(f, order) && (forall t :: t in order <==> Reaches(f, sources, t))
    && NoDup(sources) && (forall s :: s in sources ==> PrevIn(f, s) == [])
  }

  // ------------------------------------------------------------ the configuration that is set up

  function PoolsOf(orders: seq<seq<TaskName>>, procs: seq<seq<ProcId>>): (pools: seq<Pool>)
    requires |orders| == |procs|
    ensures |pools| == |orders| && forall i :: 0 <= i < |pools| ==> pools[i] == Pool(orders[i], procs[i])
  {
    seq(|orders|, i requires 0 <= i < |orders| => Pool(orders[i], procs[i]))
  }

  function ConfigOf(f: Flow, order: seq<TaskName>, orders: seq<seq<TaskName>>, procs: seq<seq<ProcId>>, home: seq<PoolId>,
                    program: map<TaskName, seq<Collective>>): Config
    requires |orders| == |procs|
  {
    Config(PrevMap(f), PoolsOf(orders, procs), home, Positions(order), program)
  }

  /** New processes, each at its first receive. */
  function NewProcesses(count: nat): (procs: seq<Process>)
    ensures |procs| == count && forall p :: 0 <= p < count ==> procs[p] == Process(0, WaitGo, None, [], [])
  {
    Repeat(Process(0, WaitGo, None, [], []), count)
  }

  // ------------------------------------------------------------ what holds after the first k sources

  /** One pool for each source with data, owned by it, walking through what it feeds, with a process for each of its inputs. */
  ghost predicate PoolsMade(f: Flow, order: seq<TaskName>, sources: seq<TaskName>, counts: seq<nat>, k: nat,
                            used: seq<TaskName>, orders: seq<seq<TaskName>>, owner: seq<Option<TaskName>>,
                            procs: seq<seq<ProcId>>)
    requires |counts| == |sources|
  {
    && k <= |sources| && |used| == |orders| == |owner| == |procs| && NoDup(used)
    && (forall i :: 0 <= i < |used| ==>
          && owner[i] == Some(used[i]) && orders[i] == Restrict(order, ReachSet(f, [used[i]])) && |procs[i]| > 0)
    && (forall i :: 0 <= i < |used| ==> HasData(sources, counts, k, used[i]))
    && (forall i :: 0 <= i < |used| ==> HasCount(sources, counts, k, used[i], |procs[i]|))
    && (forall j :: 0 <= j < k && counts[j] > 0 ==> sources[j] in used)
  }

  ghost predicate HasData(sources: seq<TaskName>, counts: seq<nat>, k: nat, s: TaskName)
    requires |counts| == |sources|
  {
    exists j :: 0 <= j < k && j < |sources| && sources[j] == s && counts[j] > 0
  }

  ghost predicate HasCount(sources: seq<TaskName>, counts: seq<nat>, k: nat, s: TaskName, n: nat)
    requires |counts| == |sources|
  {
    exists j :: 0 <= j < k && j < |sources| && sources[j] == s && counts[j] == n
  }

  ghost predicate IsEmptySource(sources: seq<TaskName>, counts: seq<nat>, k: nat, s: TaskName)
    requires |counts| == |sources|
  {
    exists j :: 0 <= j < k && j < |sources| && sources[j] == s && counts[j] == 0
  }

  ghost predicate AtHome(ps: seq<ProcId>, home: seq<PoolId>, i: PoolId) {
    forall p :: p in ps ==> p < |home| && home[p] == i
  }

  /** The processes are divided among the pools. */
  ghost predicate HomesMade(procs: seq<seq<ProcId>>, home: seq<PoolId>) {
    && (forall i :: 0 <= i < |procs| ==> NoDup(procs[i]))
    && (forall i :: 0 <= i < |procs| ==> AtHome(procs[i], home, i))
    && (forall p :: 0 <= p < |home| ==> home[p] < |procs| && p in procs[home[p]])
  }

  ghost predicate PoolSent(ps: seq<ProcId>, channels: seq<seq<Reply>>) {
    forall x :: 0 <= x < |ps| ==> ps[x] < |channels| && channels[ps[x]] == [Go(x)]
  }

  /** Number x of each pool has been sent Go(x). */
  ghost predicate GoesSent(procs: seq<seq<ProcId>>, channels: seq<seq<Reply>>) {
    forall i :: 0 <= i < |procs| ==> PoolSent(procs[i], channels)
  }

  ghost predicate ProcsMade(procs: seq<seq<ProcId>>, home: seq<PoolId>, channels: seq<seq<Reply>>) {
    |home| == |channels| && HomesMade(procs, home) && GoesSent(procs, channels)
  }

  ghost predicate EntryMade(ti: TaskInfo, t: TaskName, used: seq<TaskName>, orders: seq<seq<TaskName>>, procs: seq<seq<ProcId>>)
    requires |procs| == |used|
  {
    && ti.deque == [] && (ti.state == Unstart || ti.state == NoSourceData)
    && (forall i: PoolId :: i in ti.waitPools <==> i < |orders| && t in orders[i])
    && (forall i :: 0 <= i < |used| && used[i] == t ==> ti.queues == procs[i])
    && (t !in used ==> ti.queues == [])
  }

  ghost predicate EntriesMade(info: map<TaskName, TaskInfo>, used: seq<TaskName>, orders: seq<seq<TaskName>>,
                              procs: seq<seq<ProcId>>)
    requires |procs| == |used|
  {
    forall t: TaskName :: EntryMade(InfoOf(info, t), t, used, orders, procs)
  }

  ghost predicate MarksMade(f: Flow, sources: seq<TaskName>, counts: seq<nat>, k: nat, info: map<TaskName, TaskInfo>)
    requires |counts| == |sources|
  {
    && (forall t: TaskName :: Marked(info, t) ==> IsEmptySource(sources, counts, k, t) || Starved(f, info, t))
    && (forall t: TaskName :: IsEmptySource(sources, counts, k, t) || Starved(f, info, t) ==> Marked(info, t))
  }

  // ------------------------------------------------------------ one more source

  lemma NewPool(f: Flow, order: seq<TaskName>, sources: seq<TaskName>, counts: seq<nat>, k: nat, used: seq<TaskName>,
                orders: seq<seq<TaskName>>, owner: seq<Option<TaskName>>, procs: seq<seq<ProcId>>, numbers: seq<ProcId>,
                filtered: seq<TaskName>)
    requires NoDup(sources) && |counts| == |sources| && k < |sources| && counts[k] > 0
    requires PoolsMade(f, order, sources, counts, k, used, orders, owner, procs)
    requires filtered == Restrict(order, ReachSet(f, [sources[k]])) && |numbers| == counts[k]
    ensures sources[k] !in used
    ensures PoolsMade(f, order, sources, counts, k + 1, used + [sources[k]], orders + [filtered],
                      owner + [Some(sources[k])], procs + [numbers])
  {
    hide Reaches, Restrict;
    var s := sources[k];
    assert HasCount(sources, counts, k + 1, s, |numbers|);
    forall i | 0 <= i < |used|
      ensures used[i] != s && HasData(sources, counts, k + 1, used[i]) && HasCount(sources, counts, k + 1, used[i], |procs[i]|)
    {
      assert HasCount(sources, counts, k, used[i], |procs[i]|);
      assert HasData(sources, counts, k, used[i]);
      var j :| 0 <= j < k && j < |sources| && sources[j] == used[i] && counts[j] > 0;
    }
    assert HasData(sources, counts, k + 1, s);
    forall j | 0 <= j < k + 1 && counts[j] > 0 ensures sources[j] in used + [s] {
    }
  }

  lemma SkippedPool(f: Flow, order: seq<TaskName>, sources: seq<TaskName>, counts: seq<nat>, k: nat, used: seq<TaskName>,
                    orders: seq<seq<TaskName>>, owner: seq<Option<TaskName>>, procs: seq<seq<ProcId>>)
    requires |counts| == |sources| && k < |sources| && counts[k] == 0
    requires PoolsMade(f, order, sources, counts, k, used, orders, owner, procs)
    ensures PoolsMade(f, order, sources, counts, k + 1, used, orders, owner, procs)
  {
    hide Reaches, Restrict;
    forall i | 0 <= i < |used|
      ensures HasData(sources, counts, k + 1, used[i]) && HasCount(sources, counts, k + 1, used[i], |procs[i]|)
    {
      assert HasCount(sources, counts, k, used[i], |procs[i]|);
      assert HasData(sources, counts, k, used[i]);
      var j :| 0 <= j < k && j < |sources| && sources[j] == used[i] && counts[j] > 0;
    }
  }

  lemma NewProcs(procs: seq<seq<ProcId>>, home: seq<PoolId>, channels: seq<seq<Reply>>, count: nat)
    requires ProcsMade(procs, home, channels)
    ensures var numbers := Numbers(|channels|, count);
            ProcsMade(procs + [numbers], home + Repeat(|procs|, count),
                      PutGo(channels + Repeat([], count), numbers, false))
  {
    hide PutGo, Numbers, HomesMade, GoesSent;
    NewHomes(procs, home, count);
    NewGo(channels, count);
    var channels' := PutGo(channels + Repeat([], count), Numbers(|channels|, count), false);
    MoreGoes(procs, home, channels, channels', Numbers(|channels|, count));
  }

  lemma NewHomes(procs: seq<seq<ProcId>>, home: seq<PoolId>, count: nat)
    requires HomesMade(procs, home)
    ensures HomesMade(procs + [Numbers(|home|, count)], home + Repeat(|procs|, count))
  {
    var numbers := Numbers(|home|, count);
    var procs', home' := procs + [numbers], home + Repeat(|procs|, count);
    assert procs'[|procs|] == numbers;
    forall p: ProcId ensures p in numbers <==> |home| <= p < |home| + count {
      InNumbers(|home|, count, p);
    }
    forall i | 0 <= i < |procs'| ensures AtHome(procs'[i], home', i) {
      assert i < |procs| ==> AtHome(procs[i], home, i);
    }
    forall p | 0 <= p < |home'| ensures home'[p] < |procs'| && p in procs'[home'[p]] {
      if p < |home| {
        assert p in procs[home[p]];
      }
    }
  }

  lemma MoreGoes(procs: seq<seq<ProcId>>, home: seq<PoolId>, channels: seq<seq<Reply>>, channels': seq<seq<Reply>>,
                 numbers: seq<ProcId>)
    requires GoesSent(procs, channels) && |channels'| >= |channels|
    requires forall p :: 0 <= p < |channels| ==> channels'[p] == channels[p]
    requires forall x :: 0 <= x < |numbers| ==> numbers[x] < |channels'| && channels'[numbers[x]] == [Go(x)]
    ensures GoesSent(procs + [numbers], channels')
  {
    var procs' := procs + [numbers];
    forall i | 0 <= i < |procs'| ensures PoolSent(procs'[i], channels') {
      assert i < |procs| ==> PoolSent(procs[i], channels);
    }
  }

  lemma InNumbers(from: nat, count: nat, p: ProcId)
    ensures p in Numbers(from, count) <==> from <= p < from + count
  {
    if from <= p < from + count {
      assert Numbers(from, count)[p - from] == p;
    }
  }

  lemma NewGo(channels: seq<seq<Reply>>, count: nat)
    ensures var channels' := PutGo(channels + Repeat([], count), Numbers(|channels|, count), false);
            && |channels'| == |channels| + count
            && (forall p :: 0 <= p < |channels| ==> channels'[p] == channels[p])
            && (forall x :: 0 <= x < count ==>
                  Numbers(|channels|, count)[x] < |channels'| && channels'[Numbers(|channels|, count)[x]] == [Go(x)])
  {
    hide PutGo;
    var numbers, wide := Numbers(|channels|, count), channels + Repeat([], count);
    ManagerFrames.PutGoEffect(wide, numbers, false);
    var channels' := PutGo(wide, numbers, false);
    forall p | 0 <= p < |channels| ensures channels'[p] == channels[p] {
      InNumbers(|channels|, count, p);
    }
    forall x | 0 <= x < count ensures channels'[numbers[x]] == [Go(x)] {
      assert wide[numbers[x]] == [] && [] + [Go(x)] == [Go(x)];
    }
  }

  lemma NewEntries(info: map<TaskName, TaskInfo>, info': map<TaskName, TaskInfo>, used: seq<TaskName>,
                   orders: seq<seq<TaskName>>, procs: seq<seq<ProcId>>, numbers: seq<ProcId>, filtered: seq<TaskName>, s: TaskName)
    requires |procs| == |used| == |orders| && EntriesMade(info, used, orders, procs) && s !in used
    requires PoolAdded(info, info', |procs|, numbers, filtered, [s])
    ensures EntriesMade(info', used + [s], orders + [filtered], procs + [numbers])
    ensures forall t :: Marked(info', t) == Marked(info, t)
  {
    forall t: TaskName ensures EntryMade(InfoOf(info', t), t, used + [s], orders + [filtered], procs + [numbers])
                               && Marked(info', t) == Marked(info, t)
    {
      assert EntryMade(InfoOf(info, t), t, used, orders, procs);
      assert InfoOf(info', t) == WithPool(InfoOf(info, t), |procs|, numbers, t in filtered, t in [s]);
      NewEntry(InfoOf(info, t), t, used, orders, procs, numbers, filtered, s);
    }
  }

  lemma NewEntry(ti: TaskInfo, t: TaskName, used: seq<TaskName>, orders: seq<seq<TaskName>>, procs: seq<seq<ProcId>>,
                 numbers: seq<ProcId>, filtered: seq<TaskName>, s: TaskName)
    requires |procs| == |used| == |orders| && EntryMade(ti, t, used, orders, procs) && s !in used
    ensures EntryMade(WithPool(ti, |procs|, numbers, t in filtered, t in [s]), t, used + [s], orders + [filtered], procs + [numbers])
  {
    var ti' := WithPool(ti, |procs|, numbers, t in filtered, t in [s]);
    assert ti.queues + [] == ti.queues;
    assert forall i :: i in ti'.waitPools <==> i in ti.waitPools || (t in filtered && i == |procs|);
    assert t == s ==> ti'.queues == numbers;
  }

  lemma MarkedEntries(info: map<TaskName, TaskInfo>, info': map<TaskName, TaskInfo>, used: seq<TaskName>,
                      orders: seq<seq<TaskName>>, procs: seq<seq<ProcId>>)
    requires |procs| == |used| && EntriesMade(info, used, orders, procs) && OnlyMarks(info, info')
    ensures EntriesMade(info', used, orders, procs)
  {
    forall t: TaskName ensures EntryMade(InfoOf(info', t), t, used, orders, procs) {
      assert EntryMade(InfoOf(info, t), t, used, orders, procs);
    }
  }

  lemma SameMarks(f: Flow, sources: seq<TaskName>, counts: seq<nat>, k: nat, info: map<TaskName, TaskInfo>,
                  info': map<TaskName, TaskInfo>)
    requires |counts| == |sources| && k < |sources| && counts[k] > 0
    requires MarksMade(f, sources, counts, k, info) && forall t :: Marked(info', t) == Marked(info, t)
    ensures MarksMade(f, sources, counts, k + 1, info')
  {
    hide PrevIn, Marked;
    forall t: TaskName ensures IsEmptySource(sources, counts, k + 1, t) == IsEmptySource(sources, counts, k, t) {
      if IsEmptySource(sources, counts, k + 1, t) {
        var j :| 0 <= j < k + 1 && j < |sources| && sources[j] == t && counts[j] == 0;
      }
    }
    assert forall t :: Starved(f, info', t) == Starved(f, info, t);
  }

  lemma MoreMarks(f: Flow, sources: seq<TaskName>, counts: seq<nat>, k: nat, info: map<TaskName, TaskInfo>,
                  info': map<TaskName, TaskInfo>)
    requires |counts| == |sources| && k < |sources| && counts[k] == 0
    requires MarksMade(f, sources, counts, k, info)
    requires MarksKept(info, info') && Marked(info', sources[k])
    requires MarksSound(f, info, info', sources[k]) && MarksComplete(f, info, info', [])
    ensures MarksMade(f, sources, counts, k + 1, info')
  {
    hide PrevIn, Marked;
    StarvedKept(f, info, info');
    assert IsEmptySource(sources, counts, k + 1, sources[k]);
    forall t: TaskName
      ensures IsEmptySource(sources, counts, k + 1, t) <==> IsEmptySource(sources, counts, k, t) || t == sources[k]
    {
      if IsEmptySource(sources, counts, k + 1, t) {
        var j :| 0 <= j < k + 1 && j < |sources| && sources[j] == t && counts[j] == 0;
      }
      if IsEmptySource(sources, counts, k, t) {
        var j :| 0 <= j < k && j < |sources| && sources[j] == t && counts[j] == 0;
      }
    }
  }

  // ------------------------------------------------------------ the loop of tasks_run

  lemma {:induction false} RestrictNoDup(order: seq<TaskName>, keep: set<TaskName>)
    requires NoDup(order)
    ensures NoDup(Restrict(order, keep))
  {
    if order != [] {
      var front := order[..|order| - 1];
      assert forall t :: t in front ==> t != order[|order| - 1];
      RestrictNoDup(front, keep);
    }
  }

  /** tasks_run without its last call; counts[j] is the number of inputs of data source j. */
  method SetUp(f: Flow, order: seq<TaskName>, sources: seq<TaskName>, counts: seq<nat>, ghost rank: Ranks, ghost top: nat)
      returns (manager: TaskManager, orders: seq<seq<TaskName>>, ghost used: seq<TaskName>, ghost home: seq<PoolId>)
    requires PipelineOk(f, order, sources, rank) && |counts| == |sources| && forall u :: RankOf(rank, u) <= top
    ensures fresh(manager) && manager.dag == f && manager.status == Looping
    ensures PoolsMade(f, order, sources, counts, |sources|, used, orders, manager.owner, manager.pools)
    ensures ProcsMade(manager.pools, home, manager.channels)
    ensures |manager.pools| == |used| && EntriesMade(manager.info, used, orders, manager.pools)
    ensures MarksMade(f, sources, counts, |sources|, manager.info)
    ensures |home| == Sum(counts)
  {
    hide PoolsMade, ProcsMade, EntriesMade, MarksMade, Reaches, Restrict, PoolAdded, OnlyMarks, MarksSound, MarksComplete,
         MarksKept, PrevIn, NextIn, Topological, Grounded, PutGo;
    manager := new TaskManager(f);
    orders, used, home := [], [], [];
    NothingMade(f, order, sources, counts, manager.info);
    for k := 0 to |sources|
      invariant fresh(manager) && manager.dag == f && manager.status == Looping
      invariant |manager.pools| == |used| == |orders|
      invariant PoolsMade(f, order, sources, counts, k, used, orders, manager.owner, manager.pools)
      invariant ProcsMade(manager.pools, home, manager.channels)
      invariant EntriesMade(manager.info, used, orders, manager.pools)
      invariant MarksMade(f, sources, counts, k, manager.info)
      invariant |home| == Sum(counts[..k])
    {
      assert counts[..k + 1][..k] == counts[..k];
      var s, count := sources[k], counts[k];
      ghost var info, owner, procs, channels := manager.info, manager.owner, manager.pools, manager.channels;
      if count == 0 {
        manager.SetNoSourceData(s, rank, top);
        SkippedPool(f, order, sources, counts, k, used, orders, owner, procs);
        MarkedEntries(info, manager.info, used, orders, procs);
        MoreMarks(f, sources, counts, k, info, manager.info);
      } else {
        var tasks, filtered := FilterDag(f, order, s);
        RestrictNoDup(order, tasks);
        manager.CreatePool(s, count, filtered);
        ghost var numbers := Numbers(|channels|, count);
        NewPool(f, order, sources, counts, k, used, orders, owner, procs, numbers, filtered);
        NewProcs(procs, home, channels, count);
        NewEntries(info, manager.info, used, orders, procs, numbers, filtered, s);
        QueuesOfNew(manager.info, used, orders, procs, numbers, filtered, s);
        SameMarks(f, sources, counts, k, info, manager.info);
        home := home + Repeat(|procs|, count);
        used := used + [s];
        orders := orders + [filtered];
      }
    }
    assert counts[..|sources|] == counts;
  }

  lemma QueuesOfNew(info: map<TaskName, TaskInfo>, used: seq<TaskName>, orders: seq<seq<TaskName>>, procs: seq<seq<ProcId>>,
                    numbers: seq<ProcId>, filtered: seq<TaskName>, s: TaskName)
    requires |procs| == |used| && EntriesMade(info, used + [s], orders + [filtered], procs + [numbers])
    ensures InfoOf(info, s).queues == numbers
  {
    assert EntryMade(InfoOf(info, s), s, used + [s], orders + [filtered], procs + [numbers]);
    assert (used + [s])[|used|] == s;
  }

  lemma NothingMade(f: Flow, order: seq<TaskName>, sources: seq<TaskName>, counts: seq<nat>, info: map<TaskName, TaskInfo>)
    requires |counts| == |sources| && info == map[]
    ensures PoolsMade(f, order, sources, counts, 0, [], [], [], []) && ProcsMade([], [], [])
    ensures EntriesMade(info, [], [], []) && MarksMade(f, sources, counts, 0, info)
  {
    hide Reaches, Restrict;
    forall t: TaskName ensures !Starved(f, info, t) && !Marked(info, t) {
      if PrevIn(f, t) != [] {
        var u := FirstOf(PrevIn(f, t));
        assert !Marked(info, u);
      }
    }
  }
}
