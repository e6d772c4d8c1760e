module SortPlugins {
  /** The order in which plugins run: Kahn's algorithm with cycle detection (plugins/sort_plugins.py), also when two plugins have
      the same name. */

  import opened Basics

  /** Names are only compared. */
  type Name = nat

  datatype Plugin = Plugin(name: Name, depends: seq<Name>)

  datatype SortResult =
    | Sorted(plugins: seq<Plugin>)
    | DependencyNotFound(plugin: Name, missing: Name)
    | DependencyCycle

  ghost predicate UniqueNames(plugins: seq<Plugin>) {
    forall i, j :: 0 <= i < j < |plugins| ==> plugins[i].name != plugins[j].name
  }

  ghost predicate Named(plugins: seq<Plugin>, n: Name) {
    exists k :: 0 <= k < |plugins| && plugins[k].name == n
  }

  /** A plugin called n depends on d. */
  ghost predicate DependsOn(plugins: seq<Plugin>, n: Name, d: Name) {
    exists k :: 0 <= k < |plugins| && plugins[k].name == n && d in plugins[k].depends
  }

  ghost predicate AllPresent(plugins: seq<Plugin>) {
    forall n, d :: DependsOn(plugins, n, d) ==> Named(plugins, d)
  }

  /** Following dependencies leads back to the start. */
  ghost predicate IsCycle(plugins: seq<Plugin>, path: seq<Name>) {
    && |path| > 1 && path[0] == path[|path| - 1]
    && forall k :: 0 <= k < |path| - 1 ==> DependsOn(plugins, path[k], path[k + 1])
  }

  ghost predicate HasCycle(plugins: seq<Plugin>) {
    exists path :: IsCycle(plugins, path)
  }

  ghost predicate IsFree(plugins: seq<Plugin>, n: Name) {
    forall d :: !DependsOn(plugins, n, d)
  }

  /** The names without dependencies among those of `part`, in its order. */
  ghost function FreeNames(part: seq<Plugin>, plugins: seq<Plugin>): seq<Name> {
    if part == [] then []
    else
      var name := part[|part| - 1].name;
      FreeNames(part[..|part| - 1], plugins) + if IsFree(plugins, name) then [name] else []
  }

  /** A name that two plugins have is not free of dependencies. */
  ghost predicate FreeOnce(plugins: seq<Plugin>) {
    forall i, j :: 0 <= i < j < |plugins| && plugins[i].name == plugins[j].name ==> !IsFree(plugins, plugins[i].name)
  }

  /** Every name has one plugin in `out`: the last one of that name. */
  ghost predicate OneOfEach(plugins: seq<Plugin>, out: seq<Plugin>) {
    && UniqueNames(out)
    && (forall n :: Named(out, n) <==> Named(plugins, n))
    && forall k :: 0 <= k < |out| ==> Named(plugins, out[k].name) && out[k] == PluginFor(plugins, out[k].name)
  }

  /** Every plugin comes after all that the plugins of its name depend on. */
  ghost predicate DependenciesFirst(plugins: seq<Plugin>, out: seq<Plugin>) {
    forall k, d :: 0 <= k < |out| && DependsOn(plugins, out[k].name, d) ==> Named(out[..k], d)
  }

  // ------------------------------------------------------------ counting

  function Occurs(ns: seq<Name>, n: Name): nat {
    multiset(ns)[n]
  }

  lemma OccursMore(ns: seq<Name>, x: Name, n: Name)
    ensures Occurs(ns + [x], n) == Occurs(ns, n) + if x == n then 1 else 0
  {
  }

  lemma OccursHead(ns: seq<Name>, n: Name)
    requires ns != []
    ensures Occurs(ns, n) == Occurs(ns[1..], n) + if ns[0] == n then 1 else 0
  {
    assert ns == [ns[0]] + ns[1..];
  }

  lemma OccursIn(ns: seq<Name>, n: Name)
    ensures Occurs(ns, n) > 0 <==> n in ns
  {
  }

  lemma {:induction false} OnceEach(ns: seq<Name>)
    ensures NoDup(ns) <==> forall n :: Occurs(ns, n) <= 1
  {
    hide Occurs;
    if ns == [] {
      assert forall n :: Occurs(ns, n) == 0 by {
        forall n ensures Occurs(ns, n) == 0 {
          OccursIn(ns, n);
        }
      }
    } else {
      var front, last := ns[..|ns| - 1], ns[|ns| - 1];
      assert ns == front + [last];
      OnceEach(front);
      forall n ensures Occurs(ns, n) == Occurs(front, n) + if n == last then 1 else 0 {
        OccursMore(front, last, n);
      }
      OccursIn(front, last);
      assert NoDup(ns) <==> NoDup(front) && last !in front;
    }
  }

  /** How many of the entries of `order` are for dependencies in `deps`, a repeated dependency counted as often as it occurs. */
  ghost function Taken(deps: seq<Name>, order: seq<Name>): nat {
    if deps == [] then 0 else Taken(deps[..|deps| - 1], order) + Occurs(order, deps[|deps| - 1])
  }

  lemma {:induction false} TakenNone(deps: seq<Name>)
    ensures Taken(deps, []) == 0
  {
    if deps != [] {
      TakenNone(deps[..|deps| - 1]);
    }
  }

  lemma {:induction false} TakenMore(deps: seq<Name>, order: seq<Name>, n: Name)
    ensures Taken(deps, order + [n]) == Taken(deps, order) + Occurs(deps, n)
  {
    hide Occurs;
    if deps == [] {
      OccursIn(deps, n);
    } else {
      var front, last := deps[..|deps| - 1], deps[|deps| - 1];
      TakenMore(front, order, n);
      OccursMore(order, n, last);
      OccursMore(front, last, n);
      assert deps == front + [last];
    }
  }

  /** When all dependencies have been taken, nothing is left to wait for ... */
  lemma {:induction false} TakenEnough(deps: seq<Name>, order: seq<Name>)
    requires forall d :: d in deps ==> d in order
    ensures Taken(deps, order) >= |deps|
  {
    if deps != [] {
      var front, last := deps[..|deps| - 1], deps[|deps| - 1];
      assert last in deps && forall d :: d in front ==> d in deps;
      TakenEnough(front, order);
      OccursIn(order, last);
    }
  }

  /** ... and the other way round, if nothing has been taken twice. */
  lemma {:induction false} TakenOnce(deps: seq<Name>, order: seq<Name>)
    requires NoDup(order)
    ensures Taken(deps, order) <= |deps|
    ensures Taken(deps, order) == |deps| ==> forall d :: d in deps ==> d in order
  {
    if deps != [] {
      var front, last := deps[..|deps| - 1], deps[|deps| - 1];
      TakenOnce(front, order);
      OnceEach(order);
      OccursIn(order, last);
      assert deps == front + [last];
    }
  }

  // ------------------------------------------------------------ the first loop: the graph

  function Edges(graph: map<Name, seq<Name>>, d: Name): seq<Name> {
    if d in graph then graph[d] else []
  }

  /** The graph and the in-degrees hold the dependencies `done`. */
  ghost predicate Graphed(done: map<Name, seq<Name>>, indegree: map<Name, int>, graph: map<Name, seq<Name>>) {
    && indegree.Keys == done.Keys
    && (forall n :: n in done ==> indegree[n] == |done[n]|)
    && (forall d, n :: Occurs(Edges(graph, d), n) == if n in done then Occurs(done[n], d) else 0)
  }

  lemma EdgeAdded(done: map<Name, seq<Name>>, indegree: map<Name, int>, graph: map<Name, seq<Name>>, n: Name, d: Name)
    requires Graphed(done, indegree, graph) && n in done
    ensures Graphed(done[n := done[n] + [d]], indegree[n := indegree[n] + 1], graph[d := Edges(graph, d) + [n]])
  {
    hide Occurs;
    var done', graph' := done[n := done[n] + [d]], graph[d := Edges(graph, d) + [n]];
    forall e, m ensures Occurs(Edges(graph', e), m) == if m in done' then Occurs(done'[m], e) else 0 {
      OccursMore(Edges(graph, d), n, m);
      OccursMore(done[n], d, e);
      assert Occurs(Edges(graph, e), m) == if m in done then Occurs(done[m], e) else 0;
    }
  }

  /** The dependencies of all plugins called n, in order. */
  ghost function Needs(plugins: seq<Plugin>, n: Name): seq<Name> {
    if plugins == [] then []
    else
      var last := plugins[|plugins| - 1];
      Needs(plugins[..|plugins| - 1], n) + if last.name == n then last.depends else []
  }

  lemma {:induction false} NeedsAre(plugins: seq<Plugin>, n: Name, d: Name)
    ensures d in Needs(plugins, n) <==> DependsOn(plugins, n, d)
  {
    if plugins != [] {
      var front, last := plugins[..|plugins| - 1], plugins[|plugins| - 1];
      NeedsAre(front, n, d);
      if DependsOn(front, n, d) {
        var k :| 0 <= k < |front| && front[k].name == n && d in front[k].depends;
        assert plugins[k] == front[k];
      }
      if DependsOn(plugins, n, d) && !(last.name == n && d in last.depends) {
        var k :| 0 <= k < |plugins| && plugins[k].name == n && d in plugins[k].depends;
        assert front[k] == plugins[k];
      }
    }
  }

  /** All dependencies of the first i plugins are entered, and of plugin i the first j. */
  ghost predicate Entered(plugins: seq<Plugin>, done: map<Name, seq<Name>>, i: nat, j: nat) {
    && i <= |plugins|
    && (forall n :: n in done <==> Named(plugins, n))
    && forall n :: n in done ==> done[n] == Needs(plugins[..i], n) + PartOf(plugins, i, j, n)
  }

  ghost function PartOf(plugins: seq<Plugin>, i: nat, j: nat, n: Name): seq<Name> {
    if i < |plugins| && plugins[i].name == n && j <= |plugins[i].depends| then plugins[i].depends[..j] else []
  }

  lemma EnteredMore(plugins: seq<Plugin>, done: map<Name, seq<Name>>, i: nat, j: nat)
    requires i < |plugins| && j < |plugins[i].depends| && Entered(plugins, done, i, j)
    ensures plugins[i].name in done
    ensures Entered(plugins, done[plugins[i].name := done[plugins[i].name] + [plugins[i].depends[j]]], i, j + 1)
  {
    hide Needs;
    var n, deps := plugins[i].name, plugins[i].depends;
    assert Named(plugins, n);
    assert deps[..j + 1] == deps[..j] + [deps[j]];
    assert Needs(plugins[..i], n) + deps[..j] + [deps[j]] == Needs(plugins[..i], n) + deps[..j + 1];
  }

  lemma EnteredNext(plugins: seq<Plugin>, done: map<Name, seq<Name>>, i: nat)
    requires i < |plugins| && Entered(plugins, done, i, |plugins[i].depends|)
    ensures Entered(plugins, done, i + 1, 0)
  {
    assert plugins[i].depends[..|plugins[i].depends|] == plugins[i].depends;
    assert plugins[..i + 1][..i] == plugins[..i];
    forall n | n in done ensures done[n] == Needs(plugins[..i + 1], n) + PartOf(plugins, i + 1, 0, n) {
      assert PartOf(plugins, i + 1, 0, n) == [];
      assert Needs(plugins[..i + 1], n) + [] == Needs(plugins[..i + 1], n);
    }
  }

  lemma NothingEntered(plugins: seq<Plugin>, indegree: map<Name, int>)
    requires forall n :: n in indegree <==> exists i :: 0 <= i < |plugins| && plugins[i].name == n
    requires forall n :: n in indegree ==> indegree[n] == 0
    ensures Entered(plugins, map n | n in indegree :: [], 0, 0) && Graphed(map n | n in indegree :: [], indegree, map[])
  {
    assert plugins[..0] == [];
    assert forall k :: 0 <= k < |plugins| ==> plugins[k].depends[..0] == [];
  }

  lemma KeysNamed(plugins: seq<Plugin>, done: map<Name, seq<Name>>, indegree: map<Name, int>, graph: map<Name, seq<Name>>, i: nat,
                  j: nat)
    requires Entered(plugins, done, i, j) && Graphed(done, indegree, graph)
    ensures indegree.Keys == done.Keys && forall n :: n in indegree <==> Named(plugins, n)
  {
  }

  /** What is known of the plugins when the graph is complete. */
  ghost predicate Depends(plugins: seq<Plugin>, done: map<Name, seq<Name>>) {
    && (forall n :: n in done <==> Named(plugins, n))
    && forall n, d :: n in done ==> (d in done[n] <==> DependsOn(plugins, n, d))
  }

  lemma AllEntered(plugins: seq<Plugin>, done: map<Name, seq<Name>>)
    requires Entered(plugins, done, |plugins|, 0)
    ensures Depends(plugins, done)
  {
    hide Needs, DependsOn;
    assert plugins[..|plugins|] == plugins;
    forall n, d | n in done ensures d in done[n] <==> DependsOn(plugins, n, d) {
      assert done[n] == Needs(plugins, n);
      NeedsAre(plugins, n, d);
    }
  }

  /** The graph, or the first dependency that no plugin provides. */
  method BuildGraph(plugins: seq<Plugin>)
      returns (missing: Option<(Name, Name)>, indegree: map<Name, int>, graph: map<Name, seq<Name>>, ghost done: map<Name, seq<Name>>)
    ensures missing.Some? ==> DependsOn(plugins, missing.value.0, missing.value.1) && !Named(plugins, missing.value.1)
    ensures missing.None? ==> AllPresent(plugins) && Depends(plugins, done) && Graphed(done, indegree, graph)
  {
    hide Graphed, Entered, Edges, Depends;
    indegree := map[];
    for k := 0 to |plugins|
      invariant forall n :: n in indegree <==> exists i :: 0 <= i < k && plugins[i].name == n
      invariant forall n :: n in indegree ==> indegree[n] == 0
    {
      indegree := indegree[plugins[k].name := 0];
    }
    done := map n | n in indegree :: [];
    graph := map[];
    NothingEntered(plugins, indegree);
    for i := 0 to |plugins|
      invariant Entered(plugins, done, i, 0) && Graphed(done, indegree, graph)
      invariant forall k, d :: 0 <= k < i && d in plugins[k].depends ==> Named(plugins, d)
    {
      var plugin := plugins[i];
      for j := 0 to |plugin.depends|
        invariant Entered(plugins, done, i, j) && Graphed(done, indegree, graph)
        invariant forall b :: 0 <= b < j ==> Named(plugins, plugin.depends[b])
      {
        var d := plugin.depends[j];
        KeysNamed(plugins, done, indegree, graph, i, j);
        if d !in indegree {
          return Some((plugin.name, d)), indegree, graph, done;
        }
        EnteredMore(plugins, done, i, j);
        EdgeAdded(done, indegree, graph, plugin.name, d);
        done := done[plugin.name := done[plugin.name] + [d]];
        graph := graph[d := Edges(graph, d) + [plugin.name]];
        indegree := indegree[plugin.name := indegree[plugin.name] + 1];
      }
      EnteredNext(plugins, done, i);
    }
    AllEntered(plugins, done);
    return None, indegree, graph, done;
  }

  // ------------------------------------------------------------ the second loop: placing

  /** The names of the plugins, repeated ones repeated. */
  function NamesOf(plugins: seq<Plugin>): (names: seq<Name>)
    ensures |names| == |plugins| && forall k :: 0 <= k < |names| ==> names[k] == plugins[k].name
  {
    if plugins == [] then [] else NamesOf(plugins[..|plugins| - 1]) + [plugins[|plugins| - 1].name]
  }

  /** The in-degrees count the dependencies that have not been taken yet, less those taken again; while the neighbours of a
      plugin are visited, `left` is what remains of them. */
  ghost predicate DegreesCount(done: map<Name, seq<Name>>, indegree: map<Name, int>, order: seq<Name>, left: seq<Name>) {
    && indegree.Keys == done.Keys
    && forall n :: n in done ==> indegree[n] == |done[n]| - Taken(done[n], order) + Occurs(left, n)
  }

  /** What has been put into the queue so far, `entered`: a name without dependencies once for each of its plugins, any other
      name once, when its in-degree fell to zero. */
  ghost predicate QueueCount(names: seq<Name>, done: map<Name, seq<Name>>, indegree: map<Name, int>, entered: seq<Name>)
    requires indegree.Keys == done.Keys
  {
    && (forall n :: n in entered ==> n in done)
    && forall n :: n in done ==>
         Occurs(entered, n) == if done[n] == [] then Occurs(names, n) else if indegree[n] <= 0 then 1 else 0
  }

  /** No name without dependencies occurs twice. */
  ghost predicate Simple(names: seq<Name>, done: map<Name, seq<Name>>) {
    forall n :: n in done && done[n] == [] ==> Occurs(names, n) <= 1
  }

  /** Everything that has been put into the queue needs only what was taken before. */
  ghost predicate InOrder(done: map<Name, seq<Name>>, order: seq<Name>, queue: seq<Name>) {
    && (forall k, d :: 0 <= k < |order| && order[k] in done && d in done[order[k]] ==> d in order[..k])
    && (forall n, d :: n in queue && n in done && d in done[n] ==> d in order)
  }

  /** The state of the loop over the queue. */
  ghost predicate Placing(names: seq<Name>, done: map<Name, seq<Name>>, indegree: map<Name, int>, order: seq<Name>,
                          queue: seq<Name>, left: seq<Name>) {
    && DegreesCount(done, indegree, order, left)
    && QueueCount(names, done, indegree, order + queue)
    && (Simple(names, done) ==> NoDup(order + queue) && InOrder(done, order, queue))
  }

  lemma SimpleNoDup(names: seq<Name>, done: map<Name, seq<Name>>, indegree: map<Name, int>, entered: seq<Name>)
    requires indegree.Keys == done.Keys && QueueCount(names, done, indegree, entered) && Simple(names, done)
    ensures NoDup(entered)
  {
    hide Occurs;
    forall n ensures Occurs(entered, n) <= 1 {
      OccursIn(entered, n);
    }
    OnceEach(entered);
  }

  lemma StartPlacing(names: seq<Name>, done: map<Name, seq<Name>>, indegree: map<Name, int>, graph: map<Name, seq<Name>>,
                     queue: seq<Name>)
    requires Graphed(done, indegree, graph)
    requires forall n :: Occurs(queue, n) == if n in done && done[n] == [] then Occurs(names, n) else 0
    ensures Placing(names, done, indegree, [], queue, [])
  {
    hide Occurs, Edges;
    assert [] + queue == queue;
    forall n | n in done ensures Taken(done[n], []) == 0 && Occurs([], n) == 0 {
      TakenNone(done[n]);
      OccursIn([], n);
    }
    forall n | n in queue ensures n in done && done[n] == [] {
      OccursIn(queue, n);
    }
    if Simple(names, done) {
      SimpleNoDup(names, done, indegree, queue);
    }
  }

  /** The head of the queue is taken, and its neighbours are still to be visited. */
  lemma TakeHead(names: seq<Name>, done: map<Name, seq<Name>>, degrees: map<Name, int>, graph: map<Name, seq<Name>>,
                 indegree: map<Name, int>, order: seq<Name>, queue: seq<Name>)
    requires Graphed(done, degrees, graph) && Placing(names, done, indegree, order, queue, []) && queue != []
    ensures Placing(names, done, indegree, order + [queue[0]], queue[1..], Edges(graph, queue[0]))
    ensures forall m :: m in Edges(graph, queue[0]) ==> m in done && done[m] != []
  {
    hide Edges, Occurs, QueueCount;
    var n := queue[0];
    assert order + [n] + queue[1..] == order + queue;
    forall m | m in done ensures indegree[m] == |done[m]| - Taken(done[m], order + [n]) + Occurs(Edges(graph, n), m) {
      TakenMore(done[m], order, n);
      OccursIn([], m);
    }
    forall m | m in Edges(graph, n) ensures m in done && done[m] != [] {
      OccursIn(Edges(graph, n), m);
      OccursIn(done[m], n);
    }
    if Simple(names, done) {
      HeadInOrder(done, order, queue);
    }
  }

  lemma HeadInOrder(done: map<Name, seq<Name>>, order: seq<Name>, queue: seq<Name>)
    requires InOrder(done, order, queue) && queue != []
    ensures InOrder(done, order + [queue[0]], queue[1..])
  {
    var longer := order + [queue[0]];
    forall k, d | 0 <= k < |longer| && longer[k] in done && d in done[longer[k]] ensures d in longer[..k] {
      if k < |order| {
        assert longer[..k] == order[..k];
      } else {
        assert longer[..k] == order && queue[0] in queue;
      }
    }
  }

  /** One neighbour: it is put into the queue when its in-degree falls to zero, and never again. */
  lemma VisitOne(names: seq<Name>, done: map<Name, seq<Name>>, indegree: map<Name, int>, order: seq<Name>, queue: seq<Name>,
                 left: seq<Name>)
    requires Placing(names, done, indegree, order, queue, left) && left != [] && left[0] in done && done[left[0]] != []
    ensures left[0] in indegree
    ensures var m := left[0];
            var indegree' := indegree[m := indegree[m] - 1];
            Placing(names, done, indegree', order, if indegree'[m] == 0 then queue + [m] else queue, left[1..])
  {
    hide Occurs, InOrder, Simple;
    var m := left[0];
    var indegree' := indegree[m := indegree[m] - 1];
    var queue' := if indegree'[m] == 0 then queue + [m] else queue;
    forall n | n in done ensures indegree'[n] == |done[n]| - Taken(done[n], order) + Occurs(left[1..], n) {
      OccursHead(left, n);
    }
    assert order + (queue + [m]) == order + queue + [m];
    forall n ensures Occurs(order + queue + [m], n) == Occurs(order + queue, n) + if n == m then 1 else 0 {
      OccursMore(order + queue, m, n);
    }
    assert QueueCount(names, done, indegree', order + queue');
    if Simple(names, done) {
      SimpleNoDup(names, done, indegree', order + queue');
      if indegree'[m] == 0 {
        AllTaken(done, indegree', order, queue, left[1..], m);
      }
    }
  }

  lemma AllTaken(done: map<Name, seq<Name>>, indegree: map<Name, int>, order: seq<Name>, queue: seq<Name>, left: seq<Name>, m: Name)
    requires DegreesCount(done, indegree, order, left) && m in done && indegree[m] == 0
    requires NoDup(order + queue) && InOrder(done, order, queue)
    ensures InOrder(done, order, queue + [m])
  {
    hide Occurs;
    forall i, j | 0 <= i < j < |order| ensures order[i] != order[j] {
      assert (order + queue)[i] == order[i] && (order + queue)[j] == order[j];
    }
    TakenOnce(done[m], order);
  }

  /** The visit to the neighbours of the plugin that was placed last. */
  method Visit(neighbours: seq<Name>, indegree0: map<Name, int>, queue0: seq<Name>, ghost names: seq<Name>,
               ghost done: map<Name, seq<Name>>, ghost order: seq<Name>)
      returns (indegree: map<Name, int>, queue: seq<Name>)
    requires Placing(names, done, indegree0, order, queue0, neighbours)
    requires forall m :: m in neighbours ==> m in done && done[m] != []
    ensures Placing(names, done, indegree, order, queue, []) && queue0 <= queue
  {
    hide Placing;
    indegree, queue := indegree0, queue0;
    assert neighbours[0..] == neighbours;
    for k := 0 to |neighbours|
      invariant Placing(names, done, indegree, order, queue, neighbours[k..]) && queue0 <= queue
    {
      var m := neighbours[k];
      assert neighbours[k..][0] == m && neighbours[k..][1..] == neighbours[k + 1..];
      VisitOne(names, done, indegree, order, queue, neighbours[k..]);
      indegree := indegree[m := indegree[m] - 1];
      if indegree[m] == 0 {
        queue := queue + [m];
      }
    }
    assert neighbours[|neighbours|..] == [];
  }

  /** No name is put into the queue more often than it has plugins, so the loop ends. */
  lemma EnteredFit(names: seq<Name>, done: map<Name, seq<Name>>, indegree: map<Name, int>, order: seq<Name>, queue: seq<Name>)
    requires Placing(names, done, indegree, order, queue, []) && forall n :: n in done ==> n in names
    ensures |order| + |queue| <= |names|
  {
    hide DegreesCount, Simple;
    var entered := order + queue;
    forall n ensures multiset(entered)[n] <= multiset(names)[n] {
      OccursIn(names, n);
      OccursIn(entered, n);
    }
    assert multiset(entered) <= multiset(names);
    assert multiset(names) == multiset(entered) + (multiset(names) - multiset(entered));
  }

  /** The initial queue: the name of every plugin whose in-degree is 0, in the given order. */
  method FirstQueue(plugins: seq<Plugin>, indegree: map<Name, int>) returns (queue: seq<Name>)
    requires forall n :: n in indegree <==> Named(plugins, n)
    ensures forall n :: Occurs(queue, n) == if n in indegree && indegree[n] == 0 then Occurs(NamesOf(plugins), n) else 0
    ensures (forall n :: n in indegree ==> (indegree[n] == 0 <==> IsFree(plugins, n))) ==> queue == FreeNames(plugins, plugins)
  {
    hide Occurs, IsFree;
    queue := [];
    assert forall n :: Occurs([], n) == 0 by {
      forall n ensures Occurs([], n) == 0 {
        OccursIn([], n);
      }
    }
    var names := NamesOf(plugins);
    for k := 0 to |plugins|
      invariant forall n :: Occurs(queue, n) == if n in indegree && indegree[n] == 0 then Occurs(names[..k], n) else 0
      invariant (forall n :: n in indegree ==> (indegree[n] == 0 <==> IsFree(plugins, n))) ==> queue == FreeNames(plugins[..k], plugins)
    {
      assert Named(plugins, plugins[k].name);
      assert names[..k + 1] == names[..k] + [names[k]];
      assert plugins[..k + 1][..k] == plugins[..k];
      forall n
        ensures Occurs(names[..k + 1], n) == Occurs(names[..k], n) + if names[k] == n then 1 else 0
        ensures Occurs(queue + [names[k]], n) == Occurs(queue, n) + if names[k] == n then 1 else 0 {
        OccursMore(names[..k], names[k], n);
        OccursMore(queue, names[k], n);
      }
      if indegree[plugins[k].name] == 0 {
        queue := queue + [plugins[k].name];
      }
    }
    assert names[..|plugins|] == names && plugins[..|plugins|] == plugins;
  }

  /** The placing loop. */
  method Place(degrees: map<Name, int>, graph: map<Name, seq<Name>>, queue0: seq<Name>, ghost names: seq<Name>,
               ghost done: map<Name, seq<Name>>)
      returns (order: seq<Name>, ghost indegree': map<Name, int>)
    requires Graphed(done, degrees, graph) && Placing(names, done, degrees, [], queue0, [])
    requires forall n :: n in done ==> n in names
    ensures Placing(names, done, indegree', order, [], []) && queue0 <= order
  {
    hide Graphed, Placing, Edges;
    var indegree, queue := degrees, queue0;
    order := [];
    while |queue| > 0
      invariant Placing(names, done, indegree, order, queue, []) && queue0 <= order + queue
      decreases |names| - |order|
    {
      var n := queue[0];
      assert order + [n] + queue[1..] == order + queue;
      EnteredFit(names, done, indegree, order, queue);
      TakeHead(names, done, degrees, graph, indegree, order, queue);
      order := order + [n];
      indegree, queue := Visit(Edges(graph, n), indegree, queue[1..], names, done, order);
    }
    indegree' := indegree;
    assert queue == [];
  }

  // ------------------------------------------------------------ what is left over

  /** The loop has ended. */
  ghost predicate Ended(plugins: seq<Plugin>, done: map<Name, seq<Name>>, indegree: map<Name, int>, order: seq<Name>) {
    Depends(plugins, done) && Placing(NamesOf(plugins), done, indegree, order, [], [])
  }

  lemma EndedCounts(plugins: seq<Plugin>, done: map<Name, seq<Name>>, indegree: map<Name, int>, order: seq<Name>)
    requires Ended(plugins, done, indegree, order)
    ensures indegree.Keys == done.Keys && QueueCount(NamesOf(plugins), done, indegree, order)
    ensures forall n :: n in done ==> indegree[n] == |done[n]| - Taken(done[n], order)
    ensures Simple(NamesOf(plugins), done) ==> NoDup(order) && InOrder(done, order, [])
  {
    assert order + [] == order;
    assert forall n :: Occurs([], n) == 0;
  }

  /** Everything that is left over waits for something that is left over. */
  lemma LeftOverWaits(plugins: seq<Plugin>, done: map<Name, seq<Name>>, indegree: map<Name, int>, order: seq<Name>, n: Name)
      returns (d: Name)
    requires Ended(plugins, done, indegree, order) && Named(plugins, n) && n !in order
    ensures DependsOn(plugins, n, d) && d !in order
  {
    hide DegreesCount, Occurs, InOrder, DependsOn;
    EndedCounts(plugins, done, indegree, order);
    OccursIn(order, n);
    NamedIn(plugins, n);
    OccursIn(NamesOf(plugins), n);
    if forall e :: e in done[n] ==> e in order {
      TakenEnough(done[n], order);
      assert false;
    }
    d :| d in done[n] && d !in order;
  }

  lemma NamedIn(plugins: seq<Plugin>, n: Name)
    ensures Named(plugins, n) <==> n in NamesOf(plugins)
  {
    if Named(plugins, n) {
      var k :| 0 <= k < |plugins| && plugins[k].name == n;
      assert NamesOf(plugins)[k] == n;
    }
  }

  /** Follow it long enough ... */
  lemma {:induction false} Chain(plugins: seq<Plugin>, done: map<Name, seq<Name>>, indegree: map<Name, int>, order: seq<Name>,
                                 n: Name, len: nat) returns (path: seq<Name>)
    requires Ended(plugins, done, indegree, order) && AllPresent(plugins) && Named(plugins, n) && n !in order
    ensures |path| == len + 1 && path[0] == n
    ensures forall k :: 0 <= k < |path| ==> path[k] in done
    ensures forall k :: 0 <= k < len ==> DependsOn(plugins, path[k], path[k + 1])
    decreases len
  {
    hide Placing, DependsOn;
    path := [n];
    if len > 0 {
      var d := LeftOverWaits(plugins, done, indegree, order, n);
      var rest := Chain(plugins, done, indegree, order, d, len - 1);
      path := [n] + rest;
    }
  }

  lemma DistinctFit(path: seq<Name>, names: set<Name>)
    requires NoDup(path) && forall k :: 0 <= k < |path| ==> path[k] in names
    ensures |path| <= |names|
  {
    hide Elems;
    assert names == Elems(path) + (names - Elems(path));
  }

  /** ... and it must come round. */
  lemma ChainRepeats(path: seq<Name>, names: set<Name>) returns (i: nat, j: nat)
    requires |path| > |names| && forall k :: 0 <= k < |path| ==> path[k] in names
    ensures i < j < |path| && path[i] == path[j]
  {
    if NoDup(path) {
      DistinctFit(path, names);
    }
    i, j :| 0 <= i < j < |path| && path[i] == path[j];
  }

  lemma CyclePart(plugins: seq<Plugin>, path: seq<Name>, i: nat, j: nat)
    requires i < j < |path| && path[i] == path[j]
    requires forall k :: 0 <= k < |path| - 1 ==> DependsOn(plugins, path[k], path[k + 1])
    ensures HasCycle(plugins)
  {
    hide DependsOn;
    var cycle := path[i..j + 1];
    forall k | 0 <= k < |cycle| - 1 ensures DependsOn(plugins, cycle[k], cycle[k + 1]) {
      assert cycle[k] == path[i + k] && cycle[k + 1] == path[i + k + 1];
    }
    assert IsCycle(plugins, cycle);
  }

  lemma LeftOverIsCyclic(plugins: seq<Plugin>, done: map<Name, seq<Name>>, indegree: map<Name, int>, order: seq<Name>, n: Name)
    requires Ended(plugins, done, indegree, order) && AllPresent(plugins) && Named(plugins, n) && n !in order
    ensures HasCycle(plugins)
  {
    hide Ended, AllPresent, DependsOn, HasCycle;
    var path := Chain(plugins, done, indegree, order, n, |done.Keys|);
    var i, j := ChainRepeats(path, done.Keys);
    CyclePart(plugins, path, i, j);
  }

  // ------------------------------------------------------------ a good order has no cycle

  lemma {:induction false} Descends(plugins: seq<Plugin>, out: seq<Plugin>, path: seq<Name>, k: nat) returns (p: nat)
    requires UniqueNames(out) && DependenciesFirst(plugins, out)
    requires forall i :: 0 <= i < |path| - 1 ==> DependsOn(plugins, path[i], path[i + 1])
    requires k < |path| && Named(out, path[0])
    ensures p < |out| && out[p].name == path[k]
    ensures forall q :: 0 <= q < |out| && out[q].name == path[0] ==> p + k <= q
    decreases k
  {
    hide DependsOn;
    if k == 0 {
      p :| 0 <= p < |out| && out[p].name == path[0];
    } else {
      var r := Descends(plugins, out, path, k - 1);
      assert DependsOn(plugins, path[k - 1], path[k - 1 + 1]);
      assert Named(out[..r], path[k]);
      p :| 0 <= p < r && out[..r][p].name == path[k];
    }
  }

  lemma SortedHasNoCycle(plugins: seq<Plugin>, out: seq<Plugin>)
    requires OneOfEach(plugins, out) && DependenciesFirst(plugins, out)
    ensures !HasCycle(plugins)
  {
    hide DependenciesFirst, PluginFor;
    if path :| IsCycle(plugins, path) {
      assert DependsOn(plugins, path[0], path[0 + 1]);
      assert Named(plugins, path[0]) && Named(out, path[0]);
      var p := Descends(plugins, out, path, |path| - 1);
    }
  }

  // ------------------------------------------------------------ the plugins of an order

  /** sorted_plugin_objects[n]: the last plugin called n. */
  function PluginFor(plugins: seq<Plugin>, n: Name): (p: Plugin)
    requires exists k :: 0 <= k < |plugins| && plugins[k].name == n
    ensures p in plugins && p.name == n
  {
    if plugins[|plugins| - 1].name == n then plugins[|plugins| - 1] else PluginFor(plugins[..|plugins| - 1], n)
  }

  ghost predicate Fetched(plugins: seq<Plugin>, order: seq<Name>, out: seq<Plugin>) {
    |out| == |order| &&
    forall k :: 0 <= k < |order| ==> Named(plugins, order[k]) && out[k] == PluginFor(plugins, order[k])
  }

  /** The plugins of the order. */
  method Fetch(plugins: seq<Plugin>, order: seq<Name>) returns (out: seq<Plugin>)
    requires forall k :: 0 <= k < |order| ==> Named(plugins, order[k])
    ensures Fetched(plugins, order, out)
  {
    out := [];
    for k := 0 to |order|
      invariant |out| == k && forall i :: 0 <= i < k ==> Named(plugins, order[i]) && out[i] == PluginFor(plugins, order[i])
    {
      assert Named(plugins, order[k]);
      out := out + [PluginFor(plugins, order[k])];
    }
  }

  lemma FetchedNames(plugins: seq<Plugin>, order: seq<Name>, out: seq<Plugin>)
    requires Fetched(plugins, order, out)
    ensures forall k :: 0 <= k < |out| ==> out[k].name == order[k]
    ensures UniqueNames(out) <==> NoDup(order)
    ensures forall n :: Named(out, n) <==> n in order
  {
    hide PluginFor;
    forall n | n in order ensures Named(out, n) {
      var k :| 0 <= k < |order| && order[k] == n;
      assert out[k].name == n;
    }
  }

  lemma FetchedEach(plugins: seq<Plugin>, order: seq<Name>, out: seq<Plugin>)
    requires Fetched(plugins, order, out) && NoDup(order) && forall n :: n in order <==> Named(plugins, n)
    ensures OneOfEach(plugins, out)
  {
    hide PluginFor, Named;
    FetchedNames(plugins, order, out);
  }

  lemma FetchedInOrder(plugins: seq<Plugin>, done: map<Name, seq<Name>>, order: seq<Name>, out: seq<Plugin>)
    requires Fetched(plugins, order, out) && Depends(plugins, done) && InOrder(done, order, [])
    ensures DependenciesFirst(plugins, out)
  {
    hide PluginFor, DependsOn;
    FetchedNames(plugins, order, out);
    forall k, d | 0 <= k < |out| && DependsOn(plugins, out[k].name, d) ensures Named(out[..k], d) {
      assert d in order[..k];
      var j :| 0 <= j < k && order[..k][j] == d;
      assert out[..k][j].name == d;
    }
  }

  // ------------------------------------------------------------ one plugin of each name

  lemma {:induction false} FewerElems(ns: seq<Name>)
    ensures NoDup(ns) <==> |Elems(ns)| == |ns|
  {
    if ns != [] {
      var front, last := ns[..|ns| - 1], ns[|ns| - 1];
      assert ns == front + [last];
      FewerElems(front);
      assert Elems(ns) == Elems(front) + {last};
      assert last in Elems(front) ==> Elems(front) + {last} == Elems(front);
      assert NoDup(ns) <==> NoDup(front) && last !in front;
    }
  }

  /** A complete order has as many entries as there are names if and only if none is repeated. */
  lemma CompleteOrder(done: map<Name, seq<Name>>, order: seq<Name>)
    requires forall n :: n in order <==> n in done
    ensures NoDup(order) <==> |order| == |done.Keys|
  {
    hide Elems;
    assert Elems(order) == done.Keys;
    FewerElems(order);
  }

  lemma IncompleteOrder(done: map<Name, seq<Name>>, order: seq<Name>, n: Name)
    requires NoDup(order) && (forall m :: m in order ==> m in done) && n in done && n !in order
    ensures |order| != |done.Keys|
  {
    hide Elems;
    FewerElems(order);
    assert Elems(order) <= done.Keys - {n};
    SubsetSize(Elems(order), done.Keys - {n});
  }

  /** Whether a name without dependencies occurs twice is the same question for the lists and for the graph. */
  lemma SimpleIsFreeOnce(plugins: seq<Plugin>, done: map<Name, seq<Name>>)
    requires Depends(plugins, done)
    ensures Simple(NamesOf(plugins), done) <==> FreeOnce(plugins)
  {
    hide DependsOn, Occurs;
    var names := NamesOf(plugins);
    forall n | n in done ensures done[n] == [] <==> IsFree(plugins, n) {
      if done[n] != [] {
        assert done[n][0] in done[n];
      }
    }
    if !Simple(names, done) {
      var n :| n in done && done[n] == [] && Occurs(names, n) > 1;
      var i, j := TwoPlaces(names, n);
      assert plugins[i].name == plugins[j].name == n;
    }
    if !FreeOnce(plugins) {
      var i, j :| 0 <= i < j < |plugins| && plugins[i].name == plugins[j].name && IsFree(plugins, plugins[i].name);
      assert Named(plugins, plugins[i].name);
      TwoOccur(names, i, j);
    }
  }

  lemma TwoPlaces(names: seq<Name>, n: Name) returns (i: nat, j: nat)
    requires Occurs(names, n) > 1
    ensures i < j < |names| && names[i] == n && names[j] == n
  {
    j :| 0 <= j < |names| && names[j] == n;
    assert names == names[..j] + [n] + names[j + 1..];
    if n in names[..j] {
      i :| 0 <= i < j && names[..j][i] == n;
    } else {
      i := j;
      assert n in names[i + 1..];
      var k :| 0 <= k < |names[i + 1..]| && names[i + 1..][k] == n;
      j := i + 1 + k;
    }
  }

  lemma TwoOccur(names: seq<Name>, i: nat, j: nat)
    requires i < j < |names| && names[i] == names[j]
    ensures Occurs(names, names[i]) > 1
  {
    assert names == names[..j] + [names[j]] + names[j + 1..];
    assert names[i] in names[..j];
  }

  /** How the loop ends, if no name without dependencies occurs twice. */
  lemma EndsWell(plugins: seq<Plugin>, done: map<Name, seq<Name>>, indegree: map<Name, int>, order: seq<Name>, out: seq<Plugin>)
    requires Ended(plugins, done, indegree, order) && AllPresent(plugins) && FreeOnce(plugins) && Fetched(plugins, order, out)
    ensures |order| == |done.Keys| <==> !HasCycle(plugins)
    ensures |order| == |done.Keys| ==> OneOfEach(plugins, out) && DependenciesFirst(plugins, out)
  {
    hide Placing, AllPresent, HasCycle, DependsOn, FreeOnce, QueueCount, Occurs, InOrder, Fetched, OneOfEach, DependenciesFirst,
         Named;
    EndedCounts(plugins, done, indegree, order);
    EnteredNamed(plugins, done, indegree, order);
    SimpleIsFreeOnce(plugins, done);
    if n :| n in done && n !in order {
      LeftOverIsCyclic(plugins, done, indegree, order, n);
      IncompleteOrder(done, order, n);
    } else {
      CompleteOrder(done, order);
      FetchedEach(plugins, order, out);
      FetchedInOrder(plugins, done, order, out);
      SortedHasNoCycle(plugins, out);
    }
  }

  lemma EnteredNamed(plugins: seq<Plugin>, done: map<Name, seq<Name>>, indegree: map<Name, int>, order: seq<Name>)
    requires Ended(plugins, done, indegree, order)
    ensures forall n :: n in order ==> n in done && Named(plugins, n)
  {
    EndedCounts(plugins, done, indegree, order);
  }

  /** How it ends otherwise: a name is repeated, and without a cycle there are too many entries. */
  lemma EndsBadly(plugins: seq<Plugin>, done: map<Name, seq<Name>>, indegree: map<Name, int>, order: seq<Name>)
    requires Ended(plugins, done, indegree, order) && AllPresent(plugins) && !FreeOnce(plugins)
    ensures !NoDup(order)
    ensures |order| == |done.Keys| ==> HasCycle(plugins)
  {
    hide Placing, AllPresent, HasCycle, DependsOn, FreeOnce, Occurs, InOrder, DegreesCount;
    EndedCounts(plugins, done, indegree, order);
    EnteredNamed(plugins, done, indegree, order);
    SimpleIsFreeOnce(plugins, done);
    OnceEach(order);
    if n :| n in done && n !in order {
      LeftOverIsCyclic(plugins, done, indegree, order, n);
    } else {
      CompleteOrder(done, order);
    }
  }

  /** Two plugins of one name without dependencies: nothing is missing, there is no cycle, and yet Sort reports one. */
  lemma TwinsHaveNoCycle(n: Name)
    ensures var twins := [Plugin(n, []), Plugin(n, [])];
            AllPresent(twins) && !HasCycle(twins) && !FreeOnce(twins)
  {
    var twins := [Plugin(n, []), Plugin(n, [])];
    assert forall m, d :: !DependsOn(twins, m, d);
    forall path ensures !IsCycle(twins, path) {
      assert |path| > 1 ==> !DependsOn(twins, path[0], path[0 + 1]);
    }
    assert twins[0].name == twins[1].name && IsFree(twins, twins[0].name);
  }

  lemma UniqueIsFreeOnce(plugins: seq<Plugin>)
    requires UniqueNames(plugins)
    ensures FreeOnce(plugins)
  {
  }

  /** If the names differ, one of each name is a permutation. */
  lemma OneOfEachPermutes(plugins: seq<Plugin>, out: seq<Plugin>)
    requires UniqueNames(plugins) && OneOfEach(plugins, out)
    ensures multiset(out) == multiset(plugins)
  {
    forall p | p in plugins ensures p in out {
      var i :| 0 <= i < |plugins| && plugins[i] == p;
      assert Named(plugins, p.name) && Named(out, p.name);
      var k :| 0 <= k < |out| && out[k].name == p.name;
      var a :| 0 <= a < |plugins| && plugins[a] == out[k];
    }
    forall p ensures multiset(out)[p] == multiset(plugins)[p] {
      if p in out {
        var k :| 0 <= k < |out| && out[k] == p;
        OnceIn(out, k);
        var a :| 0 <= a < |plugins| && plugins[a] == p;
        OnceIn(plugins, a);
      }
    }
  }

  lemma OnceIn(plugins: seq<Plugin>, a: nat)
    requires UniqueNames(plugins) && a < |plugins|
    ensures multiset(plugins)[plugins[a]] == 1
  {
    assert plugins == plugins[..a] + [plugins[a]] + plugins[a + 1..];
    assert plugins[a] !in plugins[..a] && plugins[a] !in plugins[a + 1..];
  }

  // ------------------------------------------------------------ sort_plugins

  /** sort_plugins, for any list.  A missing dependency is reported.  Otherwise, if no name without dependencies occurs twice, the
      answer is DependencyCycle exactly when the dependencies have a cycle, and else one plugin of each name with its dependencies
      first.  If such a name occurs twice, every list that is returned repeats a name, and without a cycle one is reported all the
      same. */
  method Sort(plugins: seq<Plugin>) returns (r: SortResult)
    ensures r.DependencyNotFound? <==> !AllPresent(plugins)
    ensures r.DependencyNotFound? ==> DependsOn(plugins, r.plugin, r.missing) && !Named(plugins, r.missing)
    ensures AllPresent(plugins) && FreeOnce(plugins) ==> (r.DependencyCycle? <==> HasCycle(plugins))
    ensures r.Sorted? ==> (FreeOnce(plugins) <==> OneOfEach(plugins, r.plugins) && DependenciesFirst(plugins, r.plugins))
    ensures r.Sorted? ==> (FreeOnce(plugins) <==> UniqueNames(r.plugins))
    ensures AllPresent(plugins) && !FreeOnce(plugins) && !HasCycle(plugins) ==> r.DependencyCycle?
    ensures r.Sorted? && UniqueNames(plugins) ==> multiset(r.plugins) == multiset(plugins)
    ensures r.Sorted? ==> FreeNames(plugins, plugins) <= NamesOf(r.plugins)
  {
    hide IsFree, FreeNames, NamesOf, AllPresent, Graphed, Depends, Placing, HasCycle, DependenciesFirst, Fetched, FreeOnce, UniqueNames, Occurs;
    var missing, indegree, graph;
    ghost var done;
    missing, indegree, graph, done := BuildGraph(plugins);
    if missing.Some? {
      Absent(plugins, missing.value.0, missing.value.1);
      return DependencyNotFound(missing.value.0, missing.value.1);
    }
    GraphNames(plugins, done, indegree, graph);
    FreeDegrees(plugins, done, indegree, graph);
    var queue := FirstQueue(plugins, indegree);
    StartPlacing(NamesOf(plugins), done, indegree, graph, queue);
    var order;
    ghost var left;
    order, left := Place(indegree, graph, queue, NamesOf(plugins), done);
    EnteredNamed(plugins, done, left, order);
    var out := Fetch(plugins, order);
    FetchedNames(plugins, order, out);
    assert NamesOf(out) == order;
    if FreeOnce(plugins) {
      EndsWell(plugins, done, left, order, out);
    } else {
      EndsBadly(plugins, done, left, order);
    }
    if |order| != |indegree| {
      return DependencyCycle;
    }
    if UniqueNames(plugins) {
      UniqueIsFreeOnce(plugins);
      OneOfEachPermutes(plugins, out);
    }
    return Sorted(out);
  }

  lemma FreeDegrees(plugins: seq<Plugin>, done: map<Name, seq<Name>>, indegree: map<Name, int>, graph: map<Name, seq<Name>>)
    requires Depends(plugins, done) && Graphed(done, indegree, graph)
    ensures forall n :: n in indegree ==> (indegree[n] == 0 <==> IsFree(plugins, n))
  {
    hide DependsOn;
    GraphNames(plugins, done, indegree, graph);
    forall n | n in indegree ensures indegree[n] == 0 <==> IsFree(plugins, n) {
      assert done[n] != [] ==> done[n][0] in done[n];
    }
  }

  lemma Absent(plugins: seq<Plugin>, n: Name, d: Name)
    requires DependsOn(plugins, n, d) && !Named(plugins, d)
    ensures !AllPresent(plugins)
  {
  }

  lemma GraphNames(plugins: seq<Plugin>, done: map<Name, seq<Name>>, indegree: map<Name, int>, graph: map<Name, seq<Name>>)
    requires Depends(plugins, done) && Graphed(done, indegree, graph)
    ensures indegree.Keys == done.Keys && |indegree| == |done.Keys|
    ensures forall n :: n in indegree <==> Named(plugins, n)
    ensures forall n :: n in done ==> n in NamesOf(plugins) && (indegree[n] == 0 <==> done[n] == [])
  {
    assert |indegree| == |indegree.Keys|;
    forall n | n in done ensures n in NamesOf(plugins) {
      NamedIn(plugins, n);
    }
  }
}
