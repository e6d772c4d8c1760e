module TaskGraph {
  /** The task graph: run order and the part of it that one data source feeds (task_register.py). */

  import opened Basics
  import opened TaskModel

  datatype Node = Node(prev: seq<TaskName>, next: seq<TaskName>)

  /** dag_task_flow; a missing task has no neighbours. */
  type Flow = map<TaskName, Node>

  function PrevIn(f: Flow, t: TaskName): seq<TaskName> {
    if t in f then f[t].prev else []
  }

  function NextIn(f: Flow, t: TaskName): seq<TaskName> {
    if t in f then f[t].next else []
  }

  // ------------------------------------------------------------ reachability

  ghost predicate Path(f: Flow, path: seq<TaskName>) {
    |path| > 0 && forall k :: 0 <= k < |path| - 1 ==> path[k + 1] in NextIn(f, path[k])
  }

  ghost predicate PathTo(f: Flow, from: seq<TaskName>, path: seq<TaskName>, t: TaskName) {
    Path(f, path) && path[0] in from && path[|path| - 1] == t
  }

  ghost predicate Reaches(f: Flow, from: seq<TaskName>, t: TaskName) {
    exists path :: PathTo(f, from, path, t)
  }

  lemma ReachesStart(f: Flow, from: seq<TaskName>, t: TaskName)
    requires t in from
    ensures Reaches(f, from, t)
  {
    assert PathTo(f, from, [t], t);
  }

  lemma ReachesNext(f: Flow, from: seq<TaskName>, t: TaskName, u: TaskName)
    requires Reaches(f, from, t) && u in NextIn(f, t)
    ensures Reaches(f, from, u)
  {
    var path :| PathTo(f, from, path, t);
    assert PathTo(f, from, path + [u], u);
  }

  /** The reachable tasks are the least set that holds the start and is closed under next. */
  lemma {:induction false} ReachesLeast(f: Flow, from: seq<TaskName>, s: iset<TaskName>, path: seq<TaskName>)
    requires forall t :: t in from ==> t in s
    requires forall t, u :: t in s && u in NextIn(f, t) ==> u in s
    requires Path(f, path) && path[0] in from
    ensures path[|path| - 1] in s
    decreases |path|
  {
    if |path| > 1 {
      var front := path[..|path| - 1];
      ReachesLeast(f, from, s, front);
      assert path[|path| - 2 + 1] in NextIn(f, path[|path| - 2]);
    }
  }

  lemma ReachesOnly(f: Flow, from: seq<TaskName>, s: iset<TaskName>, t: TaskName)
    requires forall t :: t in from ==> t in s
    requires forall t, u :: t in s && u in NextIn(f, t) ==> u in s
    requires Reaches(f, from, t)
    ensures t in s
  {
    var path :| PathTo(f, from, path, t);
    ReachesLeast(f, from, s, path);
  }

  ghost function Everything(f: Flow, from: seq<TaskName>): set<TaskName> {
    (set t | t in from) + (set t, u | t in f.Keys && u in NextIn(f, t) :: u)
  }

  ghost function ReachSet(f: Flow, from: seq<TaskName>): (r: set<TaskName>)
    ensures forall t :: t in r <==> Reaches(f, from, t)
  {
    assert forall t :: Reaches(f, from, t) ==> t in Everything(f, from) by {
      forall t | Reaches(f, from, t) ensures t in Everything(f, from) {
        ReachesOnly(f, from, (iset u | u in Everything(f, from)), t);
      }
    }
    set t | t in Everything(f, from) && Reaches(f, from, t)
  }

  // ------------------------------------------------------------ the run order

  type Ranks = map<TaskName, nat>

  function RankOf(rank: Ranks, t: TaskName): nat {
    if t in rank then rank[t] else 0
  }

  /** The graph has no cycle. */
  ghost predicate Acyclic(f: Flow, rank: Ranks) {
    forall t, u :: u in PrevIn(f, t) ==> RankOf(rank, u) < RankOf(rank, t)
  }

  /** prev and next mirror each other. */
  ghost predicate Mirrored(f: Flow) {
    forall t, u :: u in PrevIn(f, t) <==> t in NextIn(f, u)
  }

  /** Whatever a reachable task needs is reachable as well. */
  ghost predicate Grounded(f: Flow, heads: seq<TaskName>) {
    forall t, u :: Reaches(f, heads, t) && u in PrevIn(f, t) ==> Reaches(f, heads, u)
  }

  /** Every task comes after all the tasks it needs. */
  ghost predicate Topological(f: Flow, order: seq<TaskName>) {
    forall k, u :: 0 <= k < |order| && u in PrevIn(f, order[k]) ==> u in order[..k]
  }

  predicate AllIn(ts: seq<TaskName>, done: set<TaskName>) {
    forall k :: 0 <= k < |ts| ==> ts[k] in done
  }

  /** The task can be appended to the order now. */
  predicate Ready(f: Flow, done: set<TaskName>, t: TaskName) {
    t !in done && AllIn(PrevIn(f, t), done)
  }

  // ------------------------------------------------------------ the walk of get_task_run_order

  /** The state of the loop: the queue, the tasks that are done, and the order so far. */
  datatype Walk = Walk(queue: seq<TaskName>, done: set<TaskName>, order: seq<TaskName>)

  function StartWalk(heads: seq<TaskName>): Walk {
    Walk(heads, {}, [])
  }

  /** One turn of the loop: the task at the head is dropped, appended to the order, or put back at the end. */
  function Turn(f: Flow, w: Walk): Walk
    requires w.queue != []
  {
    var t, rest := w.queue[0], w.queue[1..];
    if t in w.done then w.(queue := rest)
    else if AllIn(PrevIn(f, t), w.done) then Walk(rest + NextIn(f, t), w.done + {t}, w.order + [t])
    else w.(queue := rest + [t])
  }

  /** At most n turns: the loop stops at an empty queue. */
  ghost function Turns(f: Flow, w: Walk, n: nat): Walk
    decreases n
  {
    if n == 0 || w.queue == [] then w else Turns(f, Turn(f, w), n - 1)
  }

  ghost predicate Ends(f: Flow, heads: seq<TaskName>) {
    exists n: nat :: Turns(f, StartWalk(heads), n).queue == []
  }

  lemma {:induction false} OneMoreTurn(f: Flow, w: Walk, n: nat)
    ensures Turns(f, w, n + 1) == if Turns(f, w, n).queue == [] then Turns(f, w, n) else Turn(f, Turns(f, w, n))
    decreases n
  {
    hide Turn;
    if n > 0 && w.queue != [] {
      OneMoreTurn(f, Turn(f, w), n - 1);
    }
  }

  /** What every turn keeps. */
  ghost predicate InWalk(f: Flow, heads: seq<TaskName>, w: Walk) {
    && NoDup(w.order) && Topological(f, w.order) && (forall t :: t in w.order <==> t in w.done)
    && (forall t :: t in w.done || t in w.queue ==> Reaches(f, heads, t))
    && (forall t :: t in heads ==> t in w.done || t in w.queue)
    && (forall t, u :: t in w.done && u in NextIn(f, t) ==> u in w.done || u in w.queue)
  }

  lemma WalkStarts(f: Flow, heads: seq<TaskName>)
    ensures InWalk(f, heads, StartWalk(heads))
  {
    hide NextIn, Reaches;
    forall t | t in heads ensures Reaches(f, heads, t) {
      ReachesStart(f, heads, t);
    }
  }

  lemma TopologicalGrows(f: Flow, order: seq<TaskName>, t: TaskName)
    requires Topological(f, order) && forall u :: u in PrevIn(f, t) ==> u in order
    ensures Topological(f, order + [t])
  {
    var longer := order + [t];
    forall k, u | 0 <= k < |longer| && u in PrevIn(f, longer[k]) ensures u in longer[..k] {
      if k < |order| {
        assert longer[..k] == order[..k];
      } else {
        assert longer[..k] == order;
      }
    }
  }

  lemma InQueue(w: Walk, t: TaskName)
    requires w.queue != []
    ensures t in w.queue <==> t == w.queue[0] || t in w.queue[1..]
  {
    assert w.queue == [w.queue[0]] + w.queue[1..];
  }

  lemma TurnKeeps(f: Flow, heads: seq<TaskName>, w: Walk)
    requires InWalk(f, heads, w) && w.queue != []
    ensures InWalk(f, heads, Turn(f, w))
  {
    hide Reaches, Topological, NextIn, PrevIn, NoDup;
    var t := w.queue[0];
    forall u ensures u in w.queue <==> u == t || u in w.queue[1..] {
      InQueue(w, u);
    }
    if t !in w.done && AllIn(PrevIn(f, t), w.done) {
      TopologicalGrows(f, w.order, t);
      NoDupGrows(w.order, t);
      forall u | u in NextIn(f, t) ensures Reaches(f, heads, u) {
        ReachesNext(f, heads, t, u);
      }
    }
  }

  lemma NoDupGrows(order: seq<TaskName>, t: TaskName)
    requires NoDup(order) && t !in order
    ensures NoDup(order + [t])
  {
  }

  lemma {:induction false} TurnsKeep(f: Flow, heads: seq<TaskName>, w: Walk, n: nat)
    requires InWalk(f, heads, w)
    ensures InWalk(f, heads, Turns(f, w, n))
    decreases n
  {
    hide InWalk, Turn;
    if n > 0 && w.queue != [] {
      TurnKeeps(f, heads, w);
      TurnsKeep(f, heads, Turn(f, w), n - 1);
    }
  }

  /** Every reachable task once, each after the tasks it needs. */
  ghost predicate IsRunOrder(f: Flow, heads: seq<TaskName>, order: seq<TaskName>) {
    NoDup(order) && Topological(f, order) && forall t :: t in order <==> Reaches(f, heads, t)
  }

  lemma WalkEnded(f: Flow, heads: seq<TaskName>, w: Walk)
    requires InWalk(f, heads, w) && w.queue == []
    ensures IsRunOrder(f, heads, w.order)
  {
    hide Reaches, Topological, NextIn, NoDup;
    forall t | Reaches(f, heads, t) ensures t in w.order {
      ReachesOnly(f, heads, (iset u | u in w.done), t);
    }
  }

  // ------------------------------------------------------------ when the walk ends

  /** What is reachable has no cycle: everything a reachable task needs ranks below it. */
  ghost predicate Layered(f: Flow, heads: seq<TaskName>, rank: Ranks) {
    forall t, u :: Reaches(f, heads, t) && u in PrevIn(f, t) ==> RankOf(rank, u) < RankOf(rank, t)
  }

  lemma AcyclicIsLayered(f: Flow, heads: seq<TaskName>, rank: Ranks)
    requires Acyclic(f, rank)
    ensures Layered(f, heads, rank)
  {
  }

  /** How far the first ready task is from the head of the queue. */
  ghost function FirstReady(f: Flow, done: set<TaskName>, queue: seq<TaskName>): nat {
    if queue == [] || Ready(f, done, queue[0]) then 0 else 1 + FirstReady(f, done, queue[1..])
  }

  lemma {:induction false} ReadyInFront(f: Flow, done: set<TaskName>, queue: seq<TaskName>, more: seq<TaskName>, t: TaskName)
    requires t in queue && Ready(f, done, t)
    ensures FirstReady(f, done, queue + more) == FirstReady(f, done, queue) < |queue|
  {
    assert (queue + more)[0] == queue[0];
    if !Ready(f, done, queue[0]) {
      assert t in queue[1..];
      assert (queue + more)[1..] == queue[1..] + more;
      ReadyInFront(f, done, queue[1..], more, t);
    }
  }

  lemma {:induction false} LowestOf(rank: Ranks, ts: set<TaskName>) returns (t: TaskName)
    requires ts != {}
    ensures t in ts && forall u :: u in ts ==> RankOf(rank, t) <= RankOf(rank, u)
    decreases |ts|
  {
    var first :| first in ts;
    t := first;
    var others := ts - {first};
    assert forall u :: u in ts ==> u == first || u in others;
    if others != {} {
      var u := LowestOf(rank, others);
      if RankOf(rank, u) < RankOf(rank, first) {
        t := u;
      }
    }
  }

  lemma HeadOrHasPrev(f: Flow, heads: seq<TaskName>, t: TaskName)
    requires Mirrored(f) && Reaches(f, heads, t)
    ensures t in heads || PrevIn(f, t) != []
  {
    var path :| PathTo(f, heads, path, t);
    if |path| > 1 {
      var u := path[|path| - 2];
      assert path[|path| - 2 + 1] in NextIn(f, u);
      assert u in PrevIn(f, t);
    }
  }

  /** While a reachable task is missing, a ready one waits in the queue: no rotation goes on for ever. */
  lemma SomeReady(f: Flow, heads: seq<TaskName>, rank: Ranks, w: Walk) returns (t: TaskName)
    requires Layered(f, heads, rank) && Mirrored(f) && Grounded(f, heads) && InWalk(f, heads, w)
    requires ReachSet(f, heads) - w.done != {}
    ensures t in w.queue && Ready(f, w.done, t)
  {
    hide Reaches, PrevIn, NextIn, Topological, NoDup, RankOf;
    t := LowestOf(rank, ReachSet(f, heads) - w.done);
    forall k | 0 <= k < |PrevIn(f, t)| ensures PrevIn(f, t)[k] in w.done {
      var u := PrevIn(f, t)[k];
      assert u in PrevIn(f, t) && Reaches(f, heads, t) && Reaches(f, heads, u);
      assert u in ReachSet(f, heads) && RankOf(rank, u) < RankOf(rank, t);
    }
    HeadOrHasPrev(f, heads, t);
    if t !in heads {
      var u := PrevIn(f, t)[0];
      assert u in PrevIn(f, t) && t in NextIn(f, u);
    }
  }

  /** Every turn drops a task that is done, or one that cannot be ready moves out of the way of one that is, or one is done. */
  lemma TurnSpends(f: Flow, heads: seq<TaskName>, rank: Ranks, w: Walk)
    requires Layered(f, heads, rank) && Mirrored(f) && Grounded(f, heads) && InWalk(f, heads, w) && w.queue != []
    ensures var all, w' := ReachSet(f, heads), Turn(f, w);
            || all - w'.done < all - w.done
            || (w'.done == w.done && FirstReady(f, w.done, w'.queue) < FirstReady(f, w.done, w.queue))
  {
    hide Reaches, PrevIn, NextIn, Topological, Layered, Mirrored, Grounded;
    var t, all := w.queue[0], ReachSet(f, heads);
    assert t in all;
    if t !in w.done {
      if AllIn(PrevIn(f, t), w.done) {
        assert t in all - w.done && t !in all - Turn(f, w).done;
      } else {
        var v := SomeReady(f, heads, rank, w);
        InQueue(w, v);
        ReadyInFront(f, w.done, w.queue[1..], [t], v);
      }
    }
  }

  lemma {:induction false} WalkEnds(f: Flow, heads: seq<TaskName>, rank: Ranks, w: Walk) returns (n: nat)
    requires Layered(f, heads, rank) && Mirrored(f) && Grounded(f, heads) && InWalk(f, heads, w)
    ensures Turns(f, w, n).queue == []
    decreases ReachSet(f, heads) - w.done, FirstReady(f, w.done, w.queue)
  {
    hide Turn, InWalk, Layered, Mirrored, Grounded, Reaches, FirstReady;
    n := 0;
    if w.queue != [] {
      TurnSpends(f, heads, rank, w);
      TurnKeeps(f, heads, w);
      n := WalkEnds(f, heads, rank, Turn(f, w));
      n := n + 1;
    }
  }

  /** get_task_run_order: every task reachable from the heads, once, each after the tasks it needs. */
  method GetTaskRunOrder(heads: seq<TaskName>, f: Flow, ghost rank: Ranks) returns (order: seq<TaskName>)
    requires Layered(f, heads, rank) && Mirrored(f) && Grounded(f, heads)
    ensures IsRunOrder(f, heads, order)
    ensures exists n: nat :: Turns(f, StartWalk(heads), n) == Walk([], (set t | t in order), order)
  {
    hide Layered, Mirrored, Grounded, Reaches, Topological, NoDup, PrevIn, NextIn, AllIn, InWalk, FirstReady, Turns;
    order := [];
    var done: set<TaskName> := {};
    var queue := heads;
    ghost var all, n := ReachSet(f, heads), 0;
    WalkStarts(f, heads);
    NoTurn(f, StartWalk(heads));
    while |queue| > 0
      invariant Turns(f, StartWalk(heads), n) == Walk(queue, done, order) && InWalk(f, heads, Walk(queue, done, order))
      decreases all - done, FirstReady(f, done, queue)
    {
      ghost var w := Walk(queue, done, order);
      TurnSpends(f, heads, rank, w);
      TurnKeeps(f, heads, w);
      OneMoreTurn(f, StartWalk(heads), n);
      n := n + 1;
      var t := queue[0];
      queue := queue[1..];
      if t in done {
        continue;
      }
      if AllIn(PrevIn(f, t), done) {
        order := order + [t];
        done := done + {t};
        queue := queue + NextIn(f, t);
      } else {
        queue := queue + [t];
      }
    }
    WalkEnded(f, heads, Walk(queue, done, order));
    DoneIsOrder(f, heads, Walk(queue, done, order));
  }

  lemma NoTurn(f: Flow, w: Walk)
    ensures Turns(f, w, 0) == w
  {
  }

  lemma DoneIsOrder(f: Flow, heads: seq<TaskName>, w: Walk)
    requires InWalk(f, heads, w)
    ensures w.done == set t | t in w.order
  {
  }

  // ------------------------------------------------------------ positions

  function PositionOf(order: seq<TaskName>, t: TaskName): (k: nat)
    requires t in order
    ensures k < |order| && order[k] == t
  {
    if order[|order| - 1] == t then |order| - 1 else PositionOf(order[..|order| - 1], t)
  }

  function Positions(order: seq<TaskName>): Ranks {
    map t | t in order :: PositionOf(order, t)
  }

  lemma {:induction false} PositionIs(order: seq<TaskName>, k: nat)
    requires NoDup(order) && k < |order|
    ensures PositionOf(order, order[k]) == k
  {
    assert order[PositionOf(order, order[k])] == order[k];
  }

  /** A run order exists only if whatever a reachable task needs is reachable, and comes before it. */
  lemma OrderNeedsGround(f: Flow, heads: seq<TaskName>, order: seq<TaskName>)
    requires IsRunOrder(f, heads, order)
    ensures Grounded(f, heads) && Layered(f, heads, Positions(order))
  {
    hide Reaches, PrevIn, PositionOf;
    forall t, u | Reaches(f, heads, t) && u in PrevIn(f, t)
      ensures u in order && t in order && PositionOf(order, u) < PositionOf(order, t)
    {
      var k :| 0 <= k < |order| && order[k] == t;
      assert u in order[..k];
      var j :| 0 <= j < k && order[..k][j] == u;
      PositionIs(order, j);
      PositionIs(order, k);
    }
  }

  /** The loop ends if and only if whatever a reachable task needs is reachable as well, and what is reachable has no cycle. */
  lemma RunOrderEndsExactlyWhen(f: Flow, heads: seq<TaskName>)
    requires Mirrored(f)
    ensures Ends(f, heads) <==> Grounded(f, heads) && exists rank :: Layered(f, heads, rank)
  {
    hide Mirrored, Grounded, Layered, Turns, InWalk, Positions;
    WalkStarts(f, heads);
    if Ends(f, heads) {
      var n: nat :| Turns(f, StartWalk(heads), n).queue == [];
      var w := Turns(f, StartWalk(heads), n);
      TurnsKeep(f, heads, StartWalk(heads), n);
      WalkEnded(f, heads, w);
      OrderNeedsGround(f, heads, w.order);
    }
    if Grounded(f, heads) && exists rank :: Layered(f, heads, rank) {
      var rank :| Layered(f, heads, rank);
      var n := WalkEnds(f, heads, rank, StartWalk(heads));
    }
  }

  // ------------------------------------------------------------ the part one data source feeds

  /** The tasks of `order` that are in `keep`, in the same order. */
  function Restrict(order: seq<TaskName>, keep: set<TaskName>): (r: seq<TaskName>)
    ensures forall t :: t in r <==> t in order && t in keep
  {
    if order == [] then []
    else
      var last := order[|order| - 1];
      assert order == order[..|order| - 1] + [last];
      Restrict(order[..|order| - 1], keep) + if last in keep then [last] else []
  }

  /** The first k tasks of the walk have had their successors added. */
  ghost predicate Scanned(f: Flow, walk: seq<TaskName>, k: nat, tasks: set<TaskName>) {
    k <= |walk| && forall j, u :: 0 <= j < k && u in NextIn(f, walk[j]) ==> u in tasks
  }

  lemma ScannedMore(f: Flow, before: seq<TaskName>, walk: seq<TaskName>, k: nat, start: set<TaskName>, tasks: set<TaskName>)
    requires Scanned(f, before, k, start) && before <= walk && start <= tasks && k < |before|
    requires forall u :: u in NextIn(f, before[k]) ==> u in tasks
    ensures Scanned(f, walk, k + 1, tasks)
  {
    assert forall j :: 0 <= j < |before| ==> walk[j] == before[j];
  }

  lemma ScannedAll(f: Flow, source: TaskName, walk: seq<TaskName>, tasks: set<TaskName>)
    requires Scanned(f, walk, |walk|, tasks) && source in tasks && forall t :: t in walk <==> t in tasks
    requires tasks <= ReachSet(f, [source])
    ensures tasks == ReachSet(f, [source])
  {
    hide NextIn;
    forall t, u | t in tasks && u in NextIn(f, t) ensures u in tasks {
      assert t in walk;
      var j :| 0 <= j < |walk| && walk[j] == t;
    }
    forall t | Reaches(f, [source], t) ensures t in tasks {
      ReachesOnly(f, [source], (iset u | u in tasks), t);
    }
  }

  /** filter_dag: what is reachable from a data source, and the run order restricted to it. */
  method FilterDag(f: Flow, order: seq<TaskName>, source: TaskName) returns (tasks: set<TaskName>, filtered: seq<TaskName>)
    ensures tasks == ReachSet(f, [source])
    ensures filtered == Restrict(order, tasks)
  {
    hide Reaches, NextIn, Scanned;
    tasks := {source};
    var walk := [source];
    var k := 0;
    ghost var all := ReachSet(f, [source]);
    ReachesStart(f, [source], source);
    NothingScanned(f, walk, tasks);
    while k < |walk|
      invariant k <= |walk| && source in tasks && tasks <= all
      invariant forall t :: t in walk <==> t in tasks
      invariant Scanned(f, walk, k, tasks)
      decreases all - tasks, |walk| - k
    {
      var nexts := NextIn(f, walk[k]);
      ghost var start, before := tasks, walk;
      for j := 0 to |nexts|
        invariant start <= tasks <= all && before <= walk
        invariant forall u :: u in walk <==> u in tasks
        invariant forall i :: 0 <= i < j ==> nexts[i] in tasks
        invariant tasks == start ==> walk == before
      {
        var u := nexts[j];
        ReachesNext(f, [source], before[k], u);
        if u !in tasks {
          tasks := tasks + {u};
          walk := walk + [u];
        }
      }
      ScannedMore(f, before, walk, k, start, tasks);
      k := k + 1;
    }
    ScannedAll(f, source, walk, tasks);
    filtered := [];
    for j := 0 to |order|
      invariant filtered == Restrict(order[..j], tasks)
    {
      assert order[..j + 1][..j] == order[..j];
      if order[j] in tasks {
        filtered := filtered + [order[j]];
      }
    }
    assert order[..|order|] == order;
  }

  lemma NothingScanned(f: Flow, walk: seq<TaskName>, tasks: set<TaskName>)
    ensures Scanned(f, walk, 0, tasks)
  {
  }
}
