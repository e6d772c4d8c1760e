module TaskRegistry {
  /** From the registered tasks to the task graph: get_data_dag and get_dag (task_register.py). */

  import opened Basics
  import opened TaskModel
  import opened TaskGraph

  type DataName = string

  datatype Reg = Reg(name: TaskName, depends: seq<DataName>, outputs: seq<DataName>)

  /** regist_map, in the order of registration. */
  type Registry = seq<Reg>

  const PROF_PATH: DataName := "prof_path"

  function Find(reg: Registry, t: TaskName): Option<Reg> {
    if reg == [] then None
    else if reg[|reg| - 1].name == t then Some(reg[|reg| - 1])
    else Find(reg[..|reg| - 1], t)
  }

  function Times(t: TaskName, outputs: seq<DataName>, d: DataName): seq<TaskName> {
    if outputs == [] then []
    else Times(t, outputs[..|outputs| - 1], d) + if outputs[|outputs| - 1] == d then [t] else []
  }

  /** The tasks that put out d, in the order of registration. */
  function Makers(reg: Registry, d: DataName): seq<TaskName> {
    if reg == [] then []
    else Makers(reg[..|reg| - 1], d) + Times(reg[|reg| - 1].name, reg[|reg| - 1].outputs, d)
  }

  function Producers(reg: Registry, depends: seq<DataName>): seq<TaskName> {
    if depends == [] then []
    else Producers(reg, depends[..|depends| - 1]) + Makers(reg, depends[|depends| - 1])
  }

  /** The tasks that put out something t depends on. */
  function ProducersOf(reg: Registry, t: TaskName): seq<TaskName> {
    var found := Find(reg, t);
    if found.None? then [] else Producers(reg, found.value.depends)
  }

  /** Entry m is the one that get_register_by_name gives for t. */
  ghost predicate EntryOf(reg: Registry, t: TaskName, m: int)
    requires 0 <= m < |reg|
  {
    reg[m].name == t && forall j :: m < j < |reg| ==> reg[j].name != t
  }

  /** Task u puts out something that t depends on. */
  ghost predicate Feeds(reg: Registry, u: TaskName, t: TaskName) {
    exists k, m :: 0 <= k < |reg| && 0 <= m < |reg| && reg[k].name == u && EntryOf(reg, t, m) && Shares(reg[k].outputs, reg[m].depends)
  }

  predicate Shares(outputs: seq<DataName>, depends: seq<DataName>) {
    exists d :: d in outputs && d in depends
  }

  lemma {:induction false} FindsEntry(reg: Registry, t: TaskName)
    ensures Find(reg, t).Some? <==> exists m :: 0 <= m < |reg| && EntryOf(reg, t, m)
    ensures forall m :: 0 <= m < |reg| && EntryOf(reg, t, m) ==> Find(reg, t) == Some(reg[m])
  {
    if reg != [] {
      var front, last := reg[..|reg| - 1], reg[|reg| - 1];
      FindsEntry(front, t);
      if last.name == t {
        assert EntryOf(reg, t, |front|);
      } else {
        forall m | 0 <= m < |front| ensures EntryOf(front, t, m) <==> EntryOf(reg, t, m) {
          assert forall j :: 0 <= j < |front| ==> front[j] == reg[j];
        }
      }
    }
  }

  lemma {:induction false} TimesAre(t: TaskName, outputs: seq<DataName>, d: DataName, u: TaskName)
    ensures u in Times(t, outputs, d) <==> u == t && d in outputs
  {
    if outputs != [] {
      TimesAre(t, outputs[..|outputs| - 1], d, u);
      assert outputs == outputs[..|outputs| - 1] + [outputs[|outputs| - 1]];
    }
  }

  lemma {:induction false} MakersAre(reg: Registry, d: DataName, u: TaskName)
    ensures u in Makers(reg, d) <==> exists k :: 0 <= k < |reg| && reg[k].name == u && d in reg[k].outputs
  {
    hide Times;
    if reg != [] {
      var front, last := reg[..|reg| - 1], reg[|reg| - 1];
      MakersAre(front, d, u);
      TimesAre(last.name, last.outputs, d, u);
      assert forall k :: 0 <= k < |front| ==> front[k] == reg[k];
    }
  }

  lemma {:induction false} ProducersIn(reg: Registry, depends: seq<DataName>, u: TaskName)
    ensures u in Producers(reg, depends) <==> exists d :: d in depends && u in Makers(reg, d)
  {
    hide Makers;
    if depends != [] {
      var front, last := depends[..|depends| - 1], depends[|depends| - 1];
      ProducersIn(reg, front, u);
      assert depends == front + [last];
      assert last in depends && forall d :: d in front ==> d in depends;
      assert u in Producers(reg, depends) <==> u in Producers(reg, front) || u in Makers(reg, last);
    }
  }

  /** The producers of a task are the tasks that put out something it depends on. */
  lemma ProducersFeed(reg: Registry, t: TaskName, u: TaskName)
    ensures u in ProducersOf(reg, t) <==> Feeds(reg, u, t)
  {
    hide Find, Makers, Producers, EntryOf;
    FindsEntry(reg, t);
    if Find(reg, t).Some? {
      var depends := Find(reg, t).value.depends;
      ProducersIn(reg, depends, u);
      if u in ProducersOf(reg, t) {
        var d :| d in depends && u in Makers(reg, d);
        MakersAre(reg, d, u);
        var k :| 0 <= k < |reg| && reg[k].name == u && d in reg[k].outputs;
        assert Shares(reg[k].outputs, depends);
      }
      if Feeds(reg, u, t) {
        var k, m :| 0 <= k < |reg| && 0 <= m < |reg| && reg[k].name == u && EntryOf(reg, t, m) && Shares(reg[k].outputs, reg[m].depends);
        var d :| d in reg[k].outputs && d in reg[m].depends;
        MakersAre(reg, d, u);
      }
    }
  }

  function Listed(from: map<DataName, seq<TaskName>>, d: DataName): seq<TaskName> {
    if d in from then from[d] else []
  }

  ghost predicate HoldsMakers(from: map<DataName, seq<TaskName>>, reg: Registry) {
    forall d :: Listed(from, d) == Makers(reg, d)
  }

  /** The entry of every data name has grown by t, once for each time it occurs in `outputs`. */
  ghost predicate Grown(before: map<DataName, seq<TaskName>>, from: map<DataName, seq<TaskName>>, t: TaskName,
                        outputs: seq<DataName>) {
    forall d :: Listed(from, d) == Listed(before, d) + Times(t, outputs, d)
  }

  lemma GrownMore(before: map<DataName, seq<TaskName>>, from: map<DataName, seq<TaskName>>, t: TaskName,
                  outputs: seq<DataName>, j: nat)
    requires j < |outputs| && Grown(before, from, t, outputs[..j])
    ensures Grown(before, from[outputs[j] := Listed(from, outputs[j]) + [t]], t, outputs[..j + 1])
  {
    hide Listed;
    assert outputs[..j + 1][..j] == outputs[..j];
    var d0 := outputs[j];
    var from' := from[d0 := Listed(from, d0) + [t]];
    forall d ensures Listed(from', d) == Listed(before, d) + Times(t, outputs[..j + 1], d) {
      OneListed(from, d0, t, d);
      OneTime(t, outputs, j, d);
      assert Listed(from, d) == Listed(before, d) + Times(t, outputs[..j], d);
    }
  }

  lemma OneListed(from: map<DataName, seq<TaskName>>, d0: DataName, t: TaskName, d: DataName)
    ensures Listed(from[d0 := Listed(from, d0) + [t]], d) == Listed(from, d) + if d0 == d then [t] else []
  {
    assert Listed(from, d) + [] == Listed(from, d);
  }

  lemma OneTime(t: TaskName, outputs: seq<DataName>, j: nat, d: DataName)
    requires j < |outputs|
    ensures Times(t, outputs[..j + 1], d) == Times(t, outputs[..j], d) + if outputs[j] == d then [t] else []
  {
    assert outputs[..j + 1][..j] == outputs[..j];
  }

  lemma NothingGrown(from: map<DataName, seq<TaskName>>, t: TaskName)
    ensures Grown(from, from, t, []) && HoldsMakers(map[], [])
  {
    assert forall d :: Listed(from, d) + [] == Listed(from, d);
  }

  lemma MakersMore(before: map<DataName, seq<TaskName>>, from: map<DataName, seq<TaskName>>, reg: Registry, k: nat)
    requires k < |reg| && HoldsMakers(before, reg[..k]) && Grown(before, from, reg[k].name, reg[k].outputs)
    ensures HoldsMakers(from, reg[..k + 1])
  {
    hide Times;
    assert reg[..k + 1][..k] == reg[..k];
    forall d ensures Listed(from, d) == Makers(reg[..k + 1], d) {
      assert Listed(before, d) == Makers(reg[..k], d);
      assert Makers(reg[..k + 1], d) == Makers(reg[..k], d) + Times(reg[k].name, reg[k].outputs, d);
    }
  }

  /** get_data_dag, as far as get_dag uses it: who puts out what. */
  method GetDataDag(reg: Registry) returns (from: map<DataName, seq<TaskName>>)
    ensures HoldsMakers(from, reg)
  {
    hide Grown, HoldsMakers, Listed;
    from := map[];
    NothingGrown(from, 0);
    for k := 0 to |reg|
      invariant HoldsMakers(from, reg[..k])
    {
      var task := reg[k];
      ghost var before := from;
      NothingGrown(before, task.name);
      for j := 0 to |task.outputs|
        invariant Grown(before, from, task.name, task.outputs[..j])
      {
        GrownMore(before, from, task.name, task.outputs, j);
        var d := task.outputs[j];
        from := from[d := Listed(from, d) + [task.name]];
      }
      assert task.outputs[..|task.outputs|] == task.outputs;
      MakersMore(before, from, reg, k);
    }
    assert reg[..|reg|] == reg;
  }

  // ------------------------------------------------------------ edges

  function NodeIn(f: Flow, t: TaskName): Node {
    if t in f then f[t] else Node([], [])
  }

  /** p becomes one more predecessor of t, and t one more successor of p. */
  function Link(f: Flow, t: TaskName, p: TaskName): (r: Flow)
    ensures r.Keys == f.Keys + {t, p}
    ensures forall x :: PrevIn(r, x) == PrevIn(f, x) + if x == t then [p] else []
    ensures forall x :: NextIn(r, x) == NextIn(f, x) + if x == p then [t] else []
  {
    var f1 := f[t := Node(NodeIn(f, t).prev + [p], NodeIn(f, t).next)];
    f1[p := Node(NodeIn(f1, p).prev, NodeIn(f1, p).next + [t])]
  }

  /** u occurs among the predecessors of t as often as t among the successors of u. */
  ghost predicate Transposed(f: Flow) {
    forall t, u :: Occurs(PrevIn(f, t), u) == Occurs(NextIn(f, u), t)
  }

  function Occurs(ts: seq<TaskName>, t: TaskName): nat {
    multiset(ts)[t]
  }

  lemma OccursMore(ts: seq<TaskName>, x: TaskName, t: TaskName)
    ensures Occurs(ts + [x], t) == Occurs(ts, t) + if x == t then 1 else 0
    ensures Occurs(ts + [], t) == Occurs(ts, t)
  {
    assert ts + [] == ts;
  }

  lemma OccursIn(ts: seq<TaskName>, t: TaskName)
    ensures t in ts <==> Occurs(ts, t) > 0
  {
  }

  lemma LinkTransposed(f: Flow, t: TaskName, p: TaskName)
    requires Transposed(f)
    ensures Transposed(Link(f, t, p))
  {
    hide Link, PrevIn, NextIn, Occurs;
    var r := Link(f, t, p);
    forall x, u ensures Occurs(PrevIn(r, x), u) == Occurs(NextIn(r, u), x) {
      OccursMore(PrevIn(f, x), p, u);
      OccursMore(NextIn(f, u), t, x);
    }
  }

  lemma TransposedMirrors(f: Flow)
    requires Transposed(f)
    ensures Mirrored(f)
  {
    hide PrevIn, NextIn, Occurs;
    forall t, u ensures u in PrevIn(f, t) <==> t in NextIn(f, u) {
      OccursIn(PrevIn(f, t), u);
      OccursIn(NextIn(f, u), t);
    }
  }

  // ------------------------------------------------------------ the walk

  ghost function Names(reg: Registry): set<TaskName> {
    set k | 0 <= k < |reg| :: reg[k].name
  }

  lemma {:induction false} FindNames(reg: Registry, t: TaskName)
    ensures Find(reg, t).Some? <==> t in Names(reg)
  {
    if reg != [] {
      FindNames(reg[..|reg| - 1], t);
      assert forall k :: 0 <= k < |reg| - 1 ==> reg[..|reg| - 1][k] == reg[k];
      if t in Names(reg) && t != reg[|reg| - 1].name {
        var k :| 0 <= k < |reg| && reg[k].name == t;
        assert reg[..|reg| - 1][k].name == t;
      }
    }
  }

  lemma {:induction false} TimesNames(t: TaskName, outputs: seq<DataName>, d: DataName)
    ensures forall u :: u in Times(t, outputs, d) ==> u == t
  {
    if outputs != [] {
      TimesNames(t, outputs[..|outputs| - 1], d);
    }
  }

  lemma {:induction false} MakersNames(reg: Registry, d: DataName)
    ensures forall u :: u in Makers(reg, d) ==> u in Names(reg)
  {
    if reg != [] {
      var last := reg[|reg| - 1];
      MakersNames(reg[..|reg| - 1], d);
      TimesNames(last.name, last.outputs, d);
      assert forall k :: 0 <= k < |reg| - 1 ==> reg[..|reg| - 1][k] == reg[k];
      assert reg[|reg| - 1].name in Names(reg);
      assert forall u :: u in Names(reg[..|reg| - 1]) ==> u in Names(reg);
    }
  }

  lemma {:induction false} ProducersNames(reg: Registry, depends: seq<DataName>)
    ensures forall u :: u in Producers(reg, depends) ==> u in Names(reg)
  {
    hide Makers;
    if depends != [] {
      ProducersNames(reg, depends[..|depends| - 1]);
      MakersNames(reg, depends[|depends| - 1]);
    }
  }

  /** Only t's predecessors have been added, and they are `seen`. */
  ghost predicate Walked(start: Flow, f: Flow, t: TaskName, seen: seq<TaskName>) {
    && (forall x :: PrevIn(f, x) == PrevIn(start, x) + if x == t then seen else [])
    && f.Keys == start.Keys + {t} + (set u | u in seen)
  }

  lemma WalkedMore(start: Flow, f: Flow, t: TaskName, seen: seq<TaskName>, p: TaskName)
    requires Walked(start, f, t, seen)
    ensures Walked(start, Link(f, t, p), t, seen + [p])
  {
    hide Link, PrevIn, NextIn;
    var r := Link(f, t, p);
    forall x ensures PrevIn(r, x) == PrevIn(start, x) + if x == t then seen + [p] else [] {
      assert PrevIn(start, x) + [] + [] == PrevIn(start, x) + [];
      assert PrevIn(start, t) + seen + [p] == PrevIn(start, t) + (seen + [p]);
    }
    assert (set u | u in seen + [p]) == (set u | u in seen) + {p};
  }

  /** The graph holds the edges of the first k tasks of the list, and the list everything they need. */
  ghost predicate Built(reg: Registry, f: Flow, tasks: seq<TaskName>, k: nat) {
    && k <= |tasks| && Transposed(f)
    && (forall t, u :: u in PrevIn(f, t) <==> t in tasks[..k] && u in ProducersOf(reg, t))
    && (forall t :: t in f ==> t in tasks)
    && (forall t :: t in tasks[..k] ==> t in f && Find(reg, t).Some? && forall u :: u in ProducersOf(reg, t) ==> u in tasks)
  }

  /** Everything in the list is asked for, or needed by something in it. */
  ghost predicate Closed(reg: Registry, s: iset<TaskName>) {
    forall t, u :: t in s && u in ProducersOf(reg, t) ==> u in s
  }

  ghost predicate OnlyNeeded(reg: Registry, exporters: seq<TaskName>, tasks: seq<TaskName>) {
    forall s: iset<TaskName> :: Closed(reg, s) && (forall e :: e in exporters ==> e in s) ==> forall t :: t in tasks ==> t in s
  }

  lemma BuiltMore(reg: Registry, start: Flow, f: Flow, before: seq<TaskName>, tasks: seq<TaskName>, k: nat)
    requires Built(reg, start, before, k) && k < |before| && before <= tasks
    requires Find(reg, before[k]).Some? && Transposed(f) && Walked(start, f, before[k], ProducersOf(reg, before[k]))
    requires forall u :: u in tasks <==> u in before || u in ProducersOf(reg, before[k])
    ensures Built(reg, f, tasks, k + 1)
  {
    hide PrevIn, NextIn, ProducersOf, Transposed;
    var t := before[k];
    assert tasks[..k + 1] == before[..k] + [t];
    forall x, u ensures u in PrevIn(f, x) <==> x in tasks[..k + 1] && u in ProducersOf(reg, x) {
      assert u in PrevIn(start, x) <==> x in before[..k] && u in ProducersOf(reg, x);
    }
  }

  lemma NeededMore(reg: Registry, exporters: seq<TaskName>, before: seq<TaskName>, tasks: seq<TaskName>, t: TaskName)
    requires OnlyNeeded(reg, exporters, before) && t in before
    requires forall u :: u in tasks <==> u in before || u in ProducersOf(reg, t)
    ensures OnlyNeeded(reg, exporters, tasks)
  {
    hide ProducersOf;
  }

  /** The walk over one task: the edges from everything that produces what it depends on. */
  method WalkTask(reg: Registry, from: map<DataName, seq<TaskName>>, t: TaskName, depends: seq<DataName>,
                  f: Flow, tasks: seq<TaskName>) returns (f': Flow, tasks': seq<TaskName>)
    requires HoldsMakers(from, reg)
    requires Transposed(f) && t in f
    ensures Transposed(f') && Walked(f, f', t, Producers(reg, depends))
    ensures tasks <= tasks' && forall u :: u in tasks' <==> u in tasks || u in Producers(reg, depends)
    ensures forall j :: |tasks| <= j < |tasks'| ==> tasks'[j] in Producers(reg, depends) && tasks'[j] !in tasks
  {
    hide Transposed, Link, Makers, PrevIn, NextIn, Walked, Listed;
    f', tasks' := f, tasks;
    ghost var seen := [];
    NothingWalked(f, t);
    for a := 0 to |depends|
      invariant seen == Producers(reg, depends[..a])
      invariant Transposed(f') && Walked(f, f', t, seen)
      invariant tasks <= tasks' && forall u :: u in tasks' <==> u in tasks || u in seen
      invariant forall j :: |tasks| <= j < |tasks'| ==> tasks'[j] in seen && tasks'[j] !in tasks
    {
      var makers := Listed(from, depends[a]);
      ghost var start := seen;
      assert depends[..a + 1][..a] == depends[..a];
      for b := 0 to |makers|
        invariant seen == start + makers[..b]
        invariant Transposed(f') && Walked(f, f', t, seen)
        invariant tasks <= tasks' && forall u :: u in tasks' <==> u in tasks || u in seen
        invariant forall j :: |tasks| <= j < |tasks'| ==> tasks'[j] in seen && tasks'[j] !in tasks
      {
        var p := makers[b];
        LinkTransposed(f', t, p);
        WalkedMore(f, f', t, seen, p);
        f' := Link(f', t, p);
        if p !in tasks' {
          tasks' := tasks' + [p];
        }
        SeenMore(seen, start, makers, b);
        seen := seen + [p];
      }
      assert makers[..|makers|] == makers;
    }
    assert depends[..|depends|] == depends;
  }

  lemma SeenMore(seen: seq<TaskName>, start: seq<TaskName>, makers: seq<TaskName>, b: nat)
    requires b < |makers| && seen == start + makers[..b]
    ensures seen + [makers[b]] == start + makers[..b + 1]
    ensures forall u :: u in seen + [makers[b]] <==> u in seen || u == makers[b]
  {
  }

  lemma NothingWalked(f: Flow, t: TaskName)
    requires t in f
    ensures Walked(f, f, t, [])
  {
    assert forall x :: PrevIn(f, x) + [] == PrevIn(f, x);
    assert (set u: TaskName | u in []) == {};
  }

  /** get_dag, up to the run order: the graph of everything the exporters need, and its head tasks. A name that is not
      registered raises. */
  method GetDag(exporters: seq<TaskName>, reg: Registry) returns (r: Option<(Flow, set<TaskName>)>)
    ensures r.None? <==> exists e :: e in exporters && Find(reg, e).None?
    ensures r.Some? ==>
              var (f, heads) := r.value;
              && Transposed(f)
              && (forall t, u :: u in PrevIn(f, t) <==> t in f && u in ProducersOf(reg, t))
              && (forall e :: e in exporters ==> e in f)
              && (forall t :: t in f ==> Find(reg, t).Some? && forall u :: u in ProducersOf(reg, t) ==> u in f)
              && (forall s: iset<TaskName> :: Closed(reg, s) && (forall e :: e in exporters ==> e in s) ==> forall t :: t in f ==> t in s)
              && (forall t :: t in heads <==> t in f && Find(reg, t).Some? && Find(reg, t).value.depends == [PROF_PATH])
  {
    hide Transposed, Find, Producers, PrevIn, NextIn, Names, Built, OnlyNeeded, Walked, HoldsMakers, Unlisted;
    var from := GetDataDag(reg);
    var f: Flow := map[];
    var heads: set<TaskName> := {};
    var tasks := exporters;
    var k := 0;
    EmptyGraph(reg, exporters);
    while k < |tasks|
      invariant Built(reg, f, tasks, k) && OnlyNeeded(reg, exporters, tasks)
      invariant k <= |tasks| && exporters <= tasks
      invariant forall j :: |exporters| <= j < |tasks| ==> tasks[j] in Names(reg)
      invariant forall t :: t in heads <==> t in tasks[..k] && Find(reg, t).Some? && Find(reg, t).value.depends == [PROF_PATH]
      decreases Unlisted(reg, tasks), |tasks| - k
    {
      var t := tasks[k];
      var found := Find(reg, t);
      FindNames(reg, t);
      if found.None? {
        assert t in exporters;
        return None;
      }
      var depends := found.value.depends;
      assert ProducersOf(reg, t) == Producers(reg, depends);
      ProducersNames(reg, depends);
      var f0 := f[t := NodeIn(f, t)];
      SameEdges(reg, f, tasks, k);
      ghost var before := tasks;
      f, tasks := WalkTask(reg, from, t, depends, f0, tasks);
      BuiltMore(reg, f0, f, before, tasks, k);
      NeededMore(reg, exporters, before, tasks, t);
      NewNames(reg, exporters, before, tasks, depends);
      if depends == [PROF_PATH] {
        heads := heads + {t};
      }
      assert tasks[..k + 1] == before[..k] + [t];
      k := k + 1;
    }
    assert tasks[..k] == tasks;
    WholeGraph(reg, exporters, f, tasks);
    return Some((f, heads));
  }

  ghost function Unlisted(reg: Registry, tasks: seq<TaskName>): set<TaskName> {
    Names(reg) - (set t | t in tasks)
  }

  /** The list only ever grows by registered names that are not in it yet, so the walk ends. */
  lemma NewNames(reg: Registry, exporters: seq<TaskName>, before: seq<TaskName>, tasks: seq<TaskName>, depends: seq<DataName>)
    requires exporters <= before <= tasks
    requires forall j :: |exporters| <= j < |before| ==> before[j] in Names(reg)
    requires forall j :: |before| <= j < |tasks| ==> tasks[j] in Producers(reg, depends) && tasks[j] !in before
    ensures forall j :: |exporters| <= j < |tasks| ==> tasks[j] in Names(reg)
    ensures tasks == before || Unlisted(reg, tasks) < Unlisted(reg, before)
  {
    hide Producers, Names;
    ProducersNames(reg, depends);
    assert forall u :: u in before ==> u in tasks;
    if tasks != before {
      var u := tasks[|before|];
      assert u in tasks && u in Unlisted(reg, before) && u !in Unlisted(reg, tasks);
    }
  }

  lemma EmptyGraph(reg: Registry, exporters: seq<TaskName>)
    ensures Built(reg, map[], exporters, 0) && OnlyNeeded(reg, exporters, exporters)
  {
    assert exporters[..0] == [];
  }

  lemma SameEdges(reg: Registry, f: Flow, tasks: seq<TaskName>, k: nat)
    requires Built(reg, f, tasks, k) && k < |tasks|
    ensures Built(reg, f[tasks[k] := NodeIn(f, tasks[k])], tasks, k)
    ensures Transposed(f[tasks[k] := NodeIn(f, tasks[k])])
  {
    hide PrevIn, NextIn, NodeIn, Occurs, ProducersOf, Find;
    var f0 := f[tasks[k] := NodeIn(f, tasks[k])];
    EntryAdded(f, tasks[k], f0);
    assert tasks[k] in tasks;
    forall t, u ensures u in PrevIn(f0, t) <==> t in tasks[..k] && u in ProducersOf(reg, t) {
      assert u in PrevIn(f, t) <==> t in tasks[..k] && u in ProducersOf(reg, t);
    }
    forall t, u ensures Occurs(PrevIn(f0, t), u) == Occurs(NextIn(f0, u), t) {
      assert Occurs(PrevIn(f, t), u) == Occurs(NextIn(f, u), t);
    }
  }

  lemma EntryAdded(f: Flow, t: TaskName, f0: Flow)
    requires f0 == f[t := NodeIn(f, t)]
    ensures forall x :: PrevIn(f0, x) == PrevIn(f, x)
    ensures forall x :: NextIn(f0, x) == NextIn(f, x)
  {
  }

  lemma WholeGraph(reg: Registry, exporters: seq<TaskName>, f: Flow, tasks: seq<TaskName>)
    requires Built(reg, f, tasks, |tasks|) && OnlyNeeded(reg, exporters, tasks) && exporters <= tasks
    ensures Transposed(f)
    ensures forall t :: t in f <==> t in tasks
    ensures forall t, u :: u in PrevIn(f, t) <==> t in f && u in ProducersOf(reg, t)
    ensures forall e :: e in exporters ==> e in f && Find(reg, e).Some?
    ensures forall t :: t in f ==> Find(reg, t).Some? && forall u :: u in ProducersOf(reg, t) ==> u in f
    ensures forall s: iset<TaskName> :: Closed(reg, s) && (forall e :: e in exporters ==> e in s) ==> forall t :: t in f ==> t in s
  {
    hide Transposed, Find, PrevIn, ProducersOf;
    assert tasks[..|tasks|] == tasks;
  }

  // ------------------------------------------------------------ a registry whose graph can be ordered

  /** The exporters need t: it is in every set that holds them and the producers of what its members depend on. */
  ghost predicate Needed(reg: Registry, exporters: seq<TaskName>, t: TaskName) {
    forall s: iset<TaskName> :: Closed(reg, s) && (forall e :: e in exporters ==> e in s) ==> t in s
  }

  /** No needed task depends on itself, however indirectly; nothing puts out the input path; and a needed task that
      nobody feeds is a head, that is, it depends on the input path alone. */
  ghost predicate SoundRegistry(reg: Registry, exporters: seq<TaskName>, rank: Ranks) {
    && (forall t, u :: Needed(reg, exporters, t) && u in ProducersOf(reg, t) ==> RankOf(rank, u) < RankOf(rank, t))
    && Makers(reg, PROF_PATH) == []
    && (forall t :: Needed(reg, exporters, t) && Find(reg, t).Some? && ProducersOf(reg, t) == [] ==>
          Find(reg, t).value.depends == [PROF_PATH])
  }

  /** What GetDag promises of its result, with its head tasks in some order. */
  ghost predicate IsDag(reg: Registry, exporters: seq<TaskName>, f: Flow, heads: seq<TaskName>) {
    && Transposed(f)
    && (forall t, u :: u in PrevIn(f, t) <==> t in f && u in ProducersOf(reg, t))
    && (forall t :: t in f <==> Needed(reg, exporters, t))
    && (forall t :: t in f ==> Find(reg, t).Some?)
    && (forall t :: t in heads <==> t in f && Find(reg, t).Some? && Find(reg, t).value.depends == [PROF_PATH])
  }

  lemma NeededNext(reg: Registry, exporters: seq<TaskName>, t: TaskName, u: TaskName)
    requires Needed(reg, exporters, t) && u in ProducersOf(reg, t)
    ensures Needed(reg, exporters, u)
  {
    hide ProducersOf;
  }

  /** Every task of the graph is fed, in the end, by a head. */
  lemma {:induction false} FedByHead(reg: Registry, exporters: seq<TaskName>, f: Flow, heads: seq<TaskName>, rank: Ranks,
                                     t: TaskName)
    requires SoundRegistry(reg, exporters, rank) && IsDag(reg, exporters, f, heads) && t in f
    ensures Reaches(f, heads, t)
    decreases RankOf(rank, t)
  {
    hide Find, Makers, PrevIn, NextIn, ProducersOf, Transposed, Reaches, Needed;
    var producers := ProducersOf(reg, t);
    if producers == [] {
      ReachesStart(f, heads, t);
    } else {
      var u := producers[0];
      assert u in ProducersOf(reg, t) && u in PrevIn(f, t);
      NeededNext(reg, exporters, t, u);
      FedByHead(reg, exporters, f, heads, rank, u);
      TransposedMirrors(f);
      ReachesNext(f, heads, u, t);
    }
  }

  /** So get_task_run_order ends on the graph of a sound registry, with exactly its tasks. */
  lemma DagCanBeOrdered(reg: Registry, exporters: seq<TaskName>, f: Flow, heads: seq<TaskName>, rank: Ranks)
    requires SoundRegistry(reg, exporters, rank) && IsDag(reg, exporters, f, heads)
    ensures Acyclic(f, rank) && Mirrored(f) && Grounded(f, heads)
    ensures forall t :: t in f <==> Reaches(f, heads, t)
    ensures forall t :: t in heads ==> PrevIn(f, t) == []
  {
    hide Find, Makers, PrevIn, NextIn, ProducersOf, Transposed, Reaches, Needed;
    TransposedMirrors(f);
    forall t, u | t in f && u in ProducersOf(reg, t) ensures u in f {
      NeededNext(reg, exporters, t, u);
    }
    forall t | t in f ensures Reaches(f, heads, t) {
      FedByHead(reg, exporters, f, heads, rank, t);
    }
    forall t | Reaches(f, heads, t) ensures t in f {
      OnlyTasks(reg, exporters, f, heads, t);
    }
    forall t | t in heads ensures PrevIn(f, t) == [] {
      HeadNeedsNothing(reg, exporters, f, heads, t);
    }
  }

  lemma OnlyTasks(reg: Registry, exporters: seq<TaskName>, f: Flow, heads: seq<TaskName>, t: TaskName)
    requires IsDag(reg, exporters, f, heads) && Reaches(f, heads, t)
    ensures t in f
  {
    hide Find, PrevIn, NextIn, ProducersOf, Transposed, Reaches, Needed;
    TransposedMirrors(f);
    forall v, w | v in f && w in NextIn(f, v) ensures w in f {
      assert v in PrevIn(f, w);
    }
    ReachesOnly(f, heads, (iset u | u in f), t);
  }

  lemma HeadNeedsNothing(reg: Registry, exporters: seq<TaskName>, f: Flow, heads: seq<TaskName>, t: TaskName)
    requires IsDag(reg, exporters, f, heads) && Makers(reg, PROF_PATH) == [] && t in heads
    ensures PrevIn(f, t) == []
  {
    hide Makers, PrevIn, NextIn, Transposed, Needed;
    assert [PROF_PATH][..0] == [];
    assert ProducersOf(reg, t) == Producers(reg, []) + Makers(reg, PROF_PATH);
    if PrevIn(f, t) != [] {
      var u := FirstOf(PrevIn(f, t));
    }
  }
}
