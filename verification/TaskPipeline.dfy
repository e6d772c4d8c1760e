module TaskPipeline {
  /** parse_run from the exporter names to start(): the task graph, its run order, one pool for each data source.  For a sound
      registry this ends in an initial state of the protocol, so every theorem about runs holds of what the program starts. */

  import opened Basics
  import opened TaskModel
  import opened TaskProtocol
  import opened TaskGraph
  import opened TaskRegistry
  import opened TaskManagers
  import opened TaskSetUp
  import opened TaskStart
  import ProtocolSolo
  import opened ProtocolShared

  // ------------------------------------------------------------ from the registry to the run order

  /** GetDag's result is the graph of what the exporters need. */
  lemma IsDagOf(reg: Registry, exporters: seq<TaskName>, f: Flow, heads: set<TaskName>, sources: seq<TaskName>)
    requires Transposed(f) && Lists(sources, heads)
    requires forall t, u :: u in PrevIn(f, t) <==> t in f && u in ProducersOf(reg, t)
    requires forall e :: e in exporters ==> e in f
    requires forall t :: t in f ==> Find(reg, t).Some? && forall u :: u in ProducersOf(reg, t) ==> u in f
    requires forall s: iset<TaskName> :: Closed(reg, s) && (forall e :: e in exporters ==> e in s) ==> forall t :: t in f ==> t in s
    requires forall t :: t in heads <==> t in f && Find(reg, t).Some? && Find(reg, t).value.depends == [PROF_PATH]
    ensures IsDag(reg, exporters, f, sources)
  {
    hide Transposed, Find, PrevIn, ProducersOf;
    assert forall t :: t in sources <==> t in (set x | x in sources);
    forall t ensures t in f <==> Needed(reg, exporters, t) {
      if Needed(reg, exporters, t) {
        var s := iset u | u in f;
        assert Closed(reg, s) && forall e :: e in exporters ==> e in s;
      }
    }
  }

  lemma {:induction false} HighestRank(rank: Ranks) returns (top: nat)
    ensures forall t :: RankOf(rank, t) <= top
    decreases rank.Keys
  {
    if rank == map[] {
      top := 0;
    } else {
      var t :| t in rank;
      var rest := rank - {t};
      assert t !in rest;
      var below := HighestRank(rest);
      top := if rank[t] > below then rank[t] else below;
      forall u ensures RankOf(rank, u) <= top {
        assert u != t ==> RankOf(rest, u) == RankOf(rank, u);
      }
    }
  }

  // ------------------------------------------------------------ what feeds what

  /** Every pool that is set up is what its source feeds. */
  lemma SetUpFed(f: Flow, order: seq<TaskName>, sources: seq<TaskName>, counts: seq<nat>, rank: Ranks, used: seq<TaskName>,
                 orders: seq<seq<TaskName>>, home: seq<PoolId>, m: Manager, procs: seq<seq<ProcId>>,
                 program: map<TaskName, seq<Collective>>)
    requires PipelineOk(f, order, sources, rank) && SetUpDone(f, order, sources, counts, used, orders, home, m, procs)
    ensures |orders| == |procs| && Fed(ConfigOf(f, order, orders, procs, home, program))
  {
    hide Reaches, Grounded, Topological, Acyclic, PositionOf, Restrict, PoolsMade, ProcsMade, EntriesMade, MarksMade, ConfigOf,
         NoDup, InPool, PrevTasks, Rank, PrevIn, NextIn, Increasing;
    SetUpOrders(f, order, sources, counts, rank, used, orders, home, m, procs);
    PoolTask(f, order, orders, procs, home, program);
    var c := ConfigOf(f, order, orders, procs, home, program);
    forall i: PoolId, t: TaskName | InPool(c, i, t) && t != c.pools[i].order[0] ensures FedBy(c, i, t) {
      assert i < |orders| && t in orders[i];
      assert t in order;
      assert Reaches(f, [used[i]], t);
      assert t !in [used[i]];
      var u := ReachesBack(f, [used[i]], t);
      assert t in NextIn(f, u) && u in PrevIn(f, t);
      assert u in PrevTasks(c, t) && InPool(c, i, u);
    }
  }

  /** Two data sources with data feed one task. */
  ghost predicate SharedInput(f: Flow, sources: seq<TaskName>, counts: seq<nat>)
    requires |counts| == |sources|
  {
    exists a, b :: 0 <= a < |sources| && 0 <= b < |sources| && FeedBoth(f, sources, counts, a, b)
  }

  ghost predicate FeedBoth(f: Flow, sources: seq<TaskName>, counts: seq<nat>, a: nat, b: nat)
    requires |counts| == |sources| && a < |sources| && b < |sources|
  {
    a != b && counts[a] > 0 && counts[b] > 0 && exists t :: Reaches(f, [sources[a]], t) && Reaches(f, [sources[b]], t)
  }

  lemma SourceOfPool(f: Flow, order: seq<TaskName>, sources: seq<TaskName>, counts: seq<nat>, used: seq<TaskName>,
                     orders: seq<seq<TaskName>>, home: seq<PoolId>, m: Manager, procs: seq<seq<ProcId>>, i: PoolId)
      returns (a: nat)
    requires SetUpDone(f, order, sources, counts, used, orders, home, m, procs) && i < |used|
    ensures a < |sources| && sources[a] == used[i] && counts[a] > 0
  {
    hide Reaches, Restrict, ProcsMade, EntriesMade, MarksMade;
    assert HasData(sources, counts, |sources|, used[i]);
    a :| 0 <= a < |sources| && sources[a] == used[i] && counts[a] > 0;
  }

  lemma PoolOfSource(f: Flow, order: seq<TaskName>, sources: seq<TaskName>, counts: seq<nat>, used: seq<TaskName>,
                     orders: seq<seq<TaskName>>, home: seq<PoolId>, m: Manager, procs: seq<seq<ProcId>>, a: nat)
      returns (i: PoolId)
    requires SetUpDone(f, order, sources, counts, used, orders, home, m, procs) && a < |sources| && counts[a] > 0
    ensures i < |used| && used[i] == sources[a]
  {
    hide Reaches, Restrict, ProcsMade, EntriesMade, MarksMade;
    assert sources[a] in used;
    i :| 0 <= i < |used| && used[i] == sources[a];
  }

  lemma SharedByTwo(f: Flow, order: seq<TaskName>, sources: seq<TaskName>, counts: seq<nat>, rank: Ranks, used: seq<TaskName>,
                    orders: seq<seq<TaskName>>, home: seq<PoolId>, m: Manager, procs: seq<seq<ProcId>>,
                    program: map<TaskName, seq<Collective>>)
    requires PipelineOk(f, order, sources, rank) && SetUpDone(f, order, sources, counts, used, orders, home, m, procs)
    ensures |orders| == |procs|
    ensures ProtocolSolo.NoSharedTask(ConfigOf(f, order, orders, procs, home, program)) <==> !SharedInput(f, sources, counts)
  {
    hide Reaches, Grounded, Topological, Acyclic, Mirrored, PositionOf, PoolsMade, ProcsMade, EntriesMade, MarksMade, ConfigOf,
         InPool, PrevTasks, Rank, PrevIn, NextIn, Increasing, NoDup;
    SetUpOrders(f, order, sources, counts, rank, used, orders, home, m, procs);
    PoolTask(f, order, orders, procs, home, program);
    var c := ConfigOf(f, order, orders, procs, home, program);
    if a, b :| 0 <= a < |sources| && 0 <= b < |sources| && FeedBoth(f, sources, counts, a, b) {
      var t :| Reaches(f, [sources[a]], t) && Reaches(f, [sources[b]], t);
      var i := PoolOfSource(f, order, sources, counts, used, orders, home, m, procs, a);
      var j := PoolOfSource(f, order, sources, counts, used, orders, home, m, procs, b);
      SourcesDiffer(sources, a, b, rank, f, order);
      assert InPool(c, i, t) && InPool(c, j, t);
    }
    if i: PoolId, j: PoolId, t :| InPool(c, i, t) && InPool(c, j, t) && i != j {
      assert t in orders[i] && t in orders[j] && t in order;
      var a := SourceOfPool(f, order, sources, counts, used, orders, home, m, procs, i);
      var b := SourceOfPool(f, order, sources, counts, used, orders, home, m, procs, j);
      UsedDiffer(f, order, sources, counts, used, orders, home, m, procs, i, j);
      assert Reaches(f, [used[i]], t) && Reaches(f, [used[j]], t);
      assert FeedBoth(f, sources, counts, a, b);
    }
  }

  lemma SourcesDiffer(sources: seq<TaskName>, a: nat, b: nat, rank: Ranks, f: Flow, order: seq<TaskName>)
    requires PipelineOk(f, order, sources, rank) && a < |sources| && b < |sources| && a != b
    ensures sources[a] != sources[b]
  {
    hide Reaches, Grounded, Topological, Acyclic, Mirrored;
  }

  lemma UsedDiffer(f: Flow, order: seq<TaskName>, sources: seq<TaskName>, counts: seq<nat>, used: seq<TaskName>,
                   orders: seq<seq<TaskName>>, home: seq<PoolId>, m: Manager, procs: seq<seq<ProcId>>, i: PoolId, j: PoolId)
    requires SetUpDone(f, order, sources, counts, used, orders, home, m, procs) && i < |used| && j < |used| && i != j
    ensures used[i] != used[j]
  {
    hide Reaches, Restrict, ProcsMade, EntriesMade, MarksMade;
  }

  /** Some data source with data feeds t. */
  ghost predicate HasInput(f: Flow, sources: seq<TaskName>, counts: seq<nat>, t: TaskName)
    requires |counts| == |sources|
  {
    exists j :: 0 <= j < |sources| && counts[j] > 0 && Reaches(f, [sources[j]], t)
  }

  lemma PooledIfFed(f: Flow, order: seq<TaskName>, sources: seq<TaskName>, counts: seq<nat>, rank: Ranks, used: seq<TaskName>,
                    orders: seq<seq<TaskName>>, home: seq<PoolId>, m: Manager, procs: seq<seq<ProcId>>,
                    program: map<TaskName, seq<Collective>>, t: TaskName)
    requires PipelineOk(f, order, sources, rank) && SetUpDone(f, order, sources, counts, used, orders, home, m, procs)
    ensures |orders| == |procs|
    ensures InSomePool(ConfigOf(f, order, orders, procs, home, program), t) <==> HasInput(f, sources, counts, t)
  {
    hide Reaches, Grounded, Topological, Acyclic, Mirrored, PositionOf, Restrict, ProcsMade, EntriesMade, MarksMade, ConfigOf,
         InPool, PrevTasks, Rank, PrevIn, NextIn, Increasing;
    SetUpOrders(f, order, sources, counts, rank, used, orders, home, m, procs);
    PoolTask(f, order, orders, procs, home, program);
    var c := ConfigOf(f, order, orders, procs, home, program);
    if a :| 0 <= a < |sources| && counts[a] > 0 && Reaches(f, [sources[a]], t) {
      var i := PoolOfSource(f, order, sources, counts, used, orders, home, m, procs, a);
      assert InPool(c, i, t);
    }
    if InSomePool(c, t) {
      var i :| 0 <= i < |c.pools| && InPool(c, i, t);
      var a := SourceOfPool(f, order, sources, counts, used, orders, home, m, procs, i);
      assert t in orders[i];
    }
  }

  // ------------------------------------------------------------ parse_run

  /** The elements of a set, in the order in which the program happens to iterate over it. */
  method Listing(s: set<TaskName>) returns (r: seq<TaskName>)
    ensures Lists(r, s)
  {
    r := [];
    var todo := s;
    while todo != {}
      invariant todo <= s && Lists(r, s - todo)
      decreases todo
    {
      var t :| t in todo;
      ListOneMore(r, s - todo, t);
      r := r + [t];
      assert s - todo + {t} == s - (todo - {t});
      todo := todo - {t};
    }
    assert s - {} == s;
  }

  /** get_prof_paths for each data source in turn: how many inputs it has. */
  method CountInputs(sources: seq<TaskName>, inputs: map<TaskName, nat>) returns (counts: seq<nat>)
    ensures |counts| == |sources|
    ensures forall j :: 0 <= j < |sources| ==> counts[j] == if sources[j] in inputs then inputs[sources[j]] else 0
  {
    counts := [];
    for j := 0 to |sources|
      invariant |counts| == j
      invariant forall i :: 0 <= i < j ==> counts[i] == if sources[i] in inputs then inputs[sources[i]] else 0
    {
      counts := counts + [if sources[j] in inputs then inputs[sources[j]] else 0];
    }
  }

  /** Pool i starts at s, with n processes. */
  ghost predicate IsPoolOf(c: Config, i: PoolId, s: TaskName, n: nat) {
    i < |c.pools| && |c.pools[i].order| > 0 && c.pools[i].order[0] == s && |c.pools[i].procs| == n
  }

  ghost predicate FitsInputs(pool: Pool, sources: seq<TaskName>, inputs: map<TaskName, nat>) {
    |pool.order| > 0 &&
    var s := pool.order[0];
    s in sources && s in inputs && 0 < inputs[s] == |pool.procs|
  }

  /** There is a process for every input of every data source: each source with data has a pool of so many, there are no other pools,
      and no process is in none. */
  ghost predicate ProcessPerInput(c: Config, sources: seq<TaskName>, inputs: map<TaskName, nat>, total: nat) {
    && (forall s :: s in sources && s in inputs && inputs[s] > 0 ==> exists i: PoolId :: IsPoolOf(c, i, s, inputs[s]))
    && (forall i :: 0 <= i < |c.pools| ==> FitsInputs(c.pools[i], sources, inputs))
    && |c.home| == total
  }

  lemma SetUpSized(f: Flow, order: seq<TaskName>, sources: seq<TaskName>, counts: seq<nat>, rank: Ranks, used: seq<TaskName>,
                   orders: seq<seq<TaskName>>, home: seq<PoolId>, m: Manager, procs: seq<seq<ProcId>>,
                   program: map<TaskName, seq<Collective>>, inputs: map<TaskName, nat>)
    requires PipelineOk(f, order, sources, rank) && SetUpDone(f, order, sources, counts, used, orders, home, m, procs)
    requires forall j :: 0 <= j < |sources| ==> counts[j] == if sources[j] in inputs then inputs[sources[j]] else 0
    ensures |orders| == |procs|
    ensures ProcessPerInput(ConfigOf(f, order, orders, procs, home, program), sources, inputs, Sum(counts))
  {
    hide Reaches, Grounded, Topological, Acyclic, Mirrored, PositionOf, ProcsMade, EntriesMade, MarksMade, ConfigOf, InPool,
         PrevTasks, Rank, PrevIn, NextIn, Increasing, PoolsMade, NoDup;
    SetUpOrders(f, order, sources, counts, rank, used, orders, home, m, procs);
    PoolTask(f, order, orders, procs, home, program);
    var c := ConfigOf(f, order, orders, procs, home, program);
    forall i | 0 <= i < |c.pools|
      ensures FitsInputs(c.pools[i], sources, inputs) && used[i] in inputs && IsPoolOf(c, i, used[i], inputs[used[i]])
    {
      SizeOfPool(f, order, sources, counts, used, orders, home, m, procs, inputs, i);
    }
    forall s | s in sources && s in inputs && inputs[s] > 0 ensures exists i: PoolId :: IsPoolOf(c, i, s, inputs[s]) {
      var a :| 0 <= a < |sources| && sources[a] == s;
      var i := PoolOfSource(f, order, sources, counts, used, orders, home, m, procs, a);
      assert IsPoolOf(c, i, used[i], inputs[used[i]]);
    }
  }

  lemma SizeOfPool(f: Flow, order: seq<TaskName>, sources: seq<TaskName>, counts: seq<nat>, used: seq<TaskName>,
                   orders: seq<seq<TaskName>>, home: seq<PoolId>, m: Manager, procs: seq<seq<ProcId>>, inputs: map<TaskName, nat>,
                   i: PoolId)
    requires SetUpDone(f, order, sources, counts, used, orders, home, m, procs) && i < |used|
    requires forall j :: 0 <= j < |sources| ==> counts[j] == if sources[j] in inputs then inputs[sources[j]] else 0
    ensures used[i] in sources && used[i] in inputs && inputs[used[i]] > 0 && |procs[i]| == inputs[used[i]]
  {
    hide Reaches, Restrict, ProcsMade, EntriesMade, MarksMade;
    assert HasCount(sources, counts, |sources|, used[i], |procs[i]|) && |procs[i]| > 0;
    var j :| 0 <= j < |sources| && sources[j] == used[i] && counts[j] == |procs[i]|;
  }

  lemma PipelineIsOk(f: Flow, order: seq<TaskName>, sources: seq<TaskName>, heads: set<TaskName>, rank: Ranks)
    requires Acyclic(f, rank) && Mirrored(f) && Grounded(f, sources) && Lists(sources, heads)
    requires IsRunOrder(f, sources, order)
    requires forall t :: t in sources ==> PrevIn(f, t) == []
    ensures PipelineOk(f, order, sources, rank)
  {
  }

  /** What start() begins with, once the set-up is done. */
  ghost predicate IsReady(f: Flow, sources: seq<TaskName>, counts: seq<nat>, m: Manager, procs: seq<seq<ProcId>>,
                          program: map<TaskName, seq<Collective>>, inputs: map<TaskName, nat>, c: Config)
    requires |counts| == |sources|
  {
    && WellFormed(c) && Fed(c) && Initial(c, State(m, NewProcesses(|c.home|)))
    && ProcessPerInput(c, sources, inputs, Sum(counts))
    && |procs| == |c.pools| && (forall i :: 0 <= i < |c.pools| ==> procs[i] == c.pools[i].procs)
    && c.program == program && (forall t :: PrevTasks(c, t) == PrevIn(f, t))
    && (forall t :: InSomePool(c, t) <==> HasInput(f, sources, counts, t))
    && (AlwaysCompletes(c, State(m, NewProcesses(|c.home|))) <==> !SharedInput(f, sources, counts))
  }

  lemma StartIsReady(f: Flow, order: seq<TaskName>, sources: seq<TaskName>, counts: seq<nat>, rank: Ranks, used: seq<TaskName>,
                     orders: seq<seq<TaskName>>, home: seq<PoolId>, m: Manager, procs: seq<seq<ProcId>>,
                     program: map<TaskName, seq<Collective>>, inputs: map<TaskName, nat>)
    requires PipelineOk(f, order, sources, rank) && SetUpDone(f, order, sources, counts, used, orders, home, m, procs)
    requires forall j :: 0 <= j < |sources| ==> counts[j] == if sources[j] in inputs then inputs[sources[j]] else 0
    requires exists j :: 0 <= j < |counts| && counts[j] > 0
    ensures |orders| == |procs|
    ensures IsReady(f, sources, counts, m, procs, program, inputs, ConfigOf(f, order, orders, procs, home, program))
  {
    hide WellFormed, Fed, Initial, InSomePool, HasInput, ProtocolSolo.NoSharedTask, SharedInput, PrevTasks,
         PrevIn, AlwaysCompletes, PoolsMade, ProcsMade, EntriesMade, MarksMade, PipelineOk, ProcessPerInput;
    SetUpIsInitial(f, order, sources, counts, rank, used, orders, home, m, procs, program);
    SetUpFed(f, order, sources, counts, rank, used, orders, home, m, procs, program);
    SharedByTwo(f, order, sources, counts, rank, used, orders, home, m, procs, program);
    SetUpSized(f, order, sources, counts, rank, used, orders, home, m, procs, program, inputs);
    forall t {
      PooledIfFed(f, order, sources, counts, rank, used, orders, home, m, procs, program, t);
    }
    PoolTask(f, order, orders, procs, home, program);
    CompletesExactlyWhen(ConfigOf(f, order, orders, procs, home, program), State(m, NewProcesses(|home|)));
  }

  datatype SetUpResult = NotRegistered | NoInput | Ready(manager: TaskManager)

  /** parse_run up to start(): get_dag, its run order, and the loop of tasks_run.  `inputs` holds the number of inputs of each
      data source; start() is called only if some data source has one. */
  method StartUp(exporters: seq<TaskName>, reg: Registry, inputs: map<TaskName, nat>,
                 ghost program: map<TaskName, seq<Collective>>, ghost rank: Ranks)
      returns (r: SetUpResult, f: Flow, sources: seq<TaskName>, counts: seq<nat>, ghost c: Config)
    requires SoundRegistry(reg, exporters, rank)
    ensures r.NotRegistered? <==> exists e :: e in exporters && Find(reg, e).None?
    ensures !r.NotRegistered? ==> IsDag(reg, exporters, f, sources) && |counts| == |sources|
    ensures !r.NotRegistered? ==>
              forall j :: 0 <= j < |sources| ==> counts[j] == if sources[j] in inputs then inputs[sources[j]] else 0
    ensures !r.NotRegistered? ==> (r.NoInput? <==> forall j :: 0 <= j < |sources| ==> counts[j] == 0)
    ensures r.Ready? ==> fresh(r.manager) && r.manager.dag == f
    ensures r.Ready? ==> WellFormed(c) && Fed(c) && Initial(c, State(r.manager.View(), NewProcesses(|c.home|)))
    ensures r.Ready? ==> ProcessPerInput(c, sources, inputs, Sum(counts))
    ensures r.Ready? ==> |r.manager.pools| == |c.pools| && forall i :: 0 <= i < |c.pools| ==> r.manager.pools[i] == c.pools[i].procs
    ensures r.Ready? ==> c.program == program && forall t :: PrevTasks(c, t) == PrevIn(f, t)
    ensures r.Ready? ==> forall t :: InSomePool(c, t) <==> HasInput(f, sources, counts, t)
    ensures r.Ready? ==> (AlwaysCompletes(c, State(r.manager.View(), NewProcesses(|c.home|))) <==> !SharedInput(f, sources, counts))
  {
    hide SoundRegistry, IsDag, WellFormed, Fed, Initial, InSomePool, HasInput, ProtocolSolo.NoSharedTask, SharedInput, PrevTasks,
         PrevIn, AlwaysCompletes, PoolsMade, ProcsMade, EntriesMade, MarksMade, PipelineOk, Find,
         Lists, IsRunOrder, Layered, ProcessPerInput;
    c := Config(map[], [], [], map[], program);
    var dag := GetDag(exporters, reg);
    if dag.None? {
      return NotRegistered, map[], [], [], c;
    }
    var heads;
    f, heads := dag.value.0, dag.value.1;
    sources := Listing(heads);
    IsDagOf(reg, exporters, f, heads, sources);
    DagCanBeOrdered(reg, exporters, f, sources, rank);
    AcyclicIsLayered(f, sources, rank);
    var order := GetTaskRunOrder(sources, f, rank);
    PipelineIsOk(f, order, sources, heads, rank);
    counts := CountInputs(sources, inputs);
    ghost var top := HighestRank(rank);
    var manager, orders;
    ghost var used, home;
    manager, orders, used, home := SetUp(f, order, sources, counts, rank, top);
    if forall j :: 0 <= j < |counts| ==> counts[j] == 0 {
      return NoInput, f, sources, counts, c;
    }
    ghost var m := manager.View();
    assert SetUpDone(f, order, sources, counts, used, orders, home, m, manager.pools);
    StartIsReady(f, order, sources, counts, rank, used, orders, home, m, manager.pools, program, inputs);
    c := ConfigOf(f, order, orders, manager.pools, home, program);
    r := Ready(manager);
  }
}
