/**
 TaskManager as the program has it: one object whose methods update the task
 table, the pool owners and the queues in place.  Each method is proved against
 the function of TaskModel that describes it on values.
 */
module TaskManagers {
  import opened Basics
  import opened Collectives
  import opened TaskModel
  import opened TaskGraph

  function PrevMap(f: Flow): (prev: map<TaskName, seq<TaskName>>)
    ensures forall t, pools :: PrevOf(Layout(prev, pools), t) == PrevIn(f, t)
  {
    map t | t in f :: f[t].prev
  }

  // ------------------------------------------------------------ no source data

  predicate Marked(info: map<TaskName, TaskInfo>, t: TaskName) {
    InfoOf(info, t).state == NoSourceData
  }

  /** Everything the task needs has no source data. */
  ghost predicate Starved(f: Flow, info: map<TaskName, TaskInfo>, t: TaskName) {
    PrevIn(f, t) != [] && forall u :: u in PrevIn(f, t) ==> Marked(info, u)
  }

  /** Nothing but marks has been added. */
  ghost predicate OnlyMarks(info: map<TaskName, TaskInfo>, info': map<TaskName, TaskInfo>) {
    forall t :: InfoOf(info', t) == if Marked(info', t) then InfoOf(info, t).(state := NoSourceData) else InfoOf(info, t)
  }

  /** The marks added since `info` are on t, or on starved tasks. */
  ghost predicate MarksSound(f: Flow, info: map<TaskName, TaskInfo>, info': map<TaskName, TaskInfo>, t: TaskName) {
    forall u :: Marked(info', u) && !Marked(info, u) && u != t ==> Starved(f, info', u)
  }

  /** What has become starved since `info` is marked, except possibly the tasks of `todo`. */
  ghost predicate MarksComplete(f: Flow, info: map<TaskName, TaskInfo>, info': map<TaskName, TaskInfo>, todo: seq<TaskName>) {
    forall u :: Starved(f, info', u) && !Starved(f, info, u) ==> Marked(info', u) || u in todo
  }

  ghost predicate MarksKept(info: map<TaskName, TaskInfo>, info': map<TaskName, TaskInfo>) {
    forall u :: Marked(info, u) ==> Marked(info', u)
  }

  lemma FirstMark(f: Flow, info: map<TaskName, TaskInfo>, info': map<TaskName, TaskInfo>, t: TaskName)
    requires Mirrored(f) && info' == info[t := InfoOf(info, t).(state := NoSourceData)]
    ensures OnlyMarks(info, info') && MarksSound(f, info, info', t) && MarksComplete(f, info, info', NextIn(f, t))
    ensures MarksKept(info, info') && Marked(info', t)
  {
    hide PrevIn, NextIn;
  }

  /** One more successor has been dealt with: it was not starved, or it and what it starves have been marked. */
  lemma NextMark(f: Flow, start: map<TaskName, TaskInfo>, before: map<TaskName, TaskInfo>, info: map<TaskName, TaskInfo>,
                 t: TaskName, todo: seq<TaskName>)
    requires todo != []
    requires OnlyMarks(start, before) && MarksSound(f, start, before, t) && MarksComplete(f, start, before, todo)
    requires MarksKept(start, before)
    requires if Starved(f, before, todo[0])
             then && OnlyMarks(before, info) && MarksSound(f, before, info, todo[0]) && MarksComplete(f, before, info, [])
                  && MarksKept(before, info) && Marked(info, todo[0])
             else info == before
    ensures OnlyMarks(start, info) && MarksSound(f, start, info, t) && MarksComplete(f, start, info, todo[1..])
    ensures MarksKept(start, info)
  {
    hide PrevIn;
    assert forall u :: u in todo <==> u == todo[0] || u in todo[1..];
    StarvedKept(f, before, info);
  }

  lemma StarvedKept(f: Flow, info: map<TaskName, TaskInfo>, info': map<TaskName, TaskInfo>)
    requires MarksKept(info, info')
    ensures forall u :: Starved(f, info, u) ==> Starved(f, info', u)
  {
  }

  lemma MarkStays(info: map<TaskName, TaskInfo>, info': map<TaskName, TaskInfo>, t: TaskName)
    requires Marked(info, t) && (info' == info || MarksKept(info, info'))
    ensures Marked(info', t)
  {
  }

  // ------------------------------------------------------------ new processes

  function Numbers(from: nat, count: nat): (r: seq<ProcId>)
    ensures |r| == count && forall x :: 0 <= x < count ==> r[x] == from + x
  {
    seq(count, x requires 0 <= x => from + x)
  }

  /** How a new pool changes the entry of a task. */
  function WithPool(ti: TaskInfo, pool: PoolId, procs: seq<ProcId>, walks: bool, source: bool): TaskInfo {
    ti.(waitPools := ti.waitPools + if walks then [pool] else [],
        queues := ti.queues + if source then procs else [])
  }

  /** The pool has been entered for the tasks of `walks`, and its processes for the tasks of `sources`. */
  ghost predicate PoolAdded(before: map<TaskName, TaskInfo>, info: map<TaskName, TaskInfo>, pool: PoolId, procs: seq<ProcId>,
                            walks: seq<TaskName>, sources: seq<TaskName>) {
    forall t :: InfoOf(info, t) == WithPool(InfoOf(before, t), pool, procs, t in walks, t in sources)
  }

  lemma NoPoolYet(info: map<TaskName, TaskInfo>, pool: PoolId, procs: seq<ProcId>)
    ensures PoolAdded(info, info, pool, procs, [], [])
  {
    forall t ensures InfoOf(info, t) == WithPool(InfoOf(info, t), pool, procs, false, false) {
      assert InfoOf(info, t).waitPools + [] == InfoOf(info, t).waitPools;
      assert InfoOf(info, t).queues + [] == InfoOf(info, t).queues;
    }
  }

  lemma PoolWaits(before: map<TaskName, TaskInfo>, info: map<TaskName, TaskInfo>, pool: PoolId, procs: seq<ProcId>,
                  order: seq<TaskName>, k: nat)
    requires NoDup(order) && k < |order| && PoolAdded(before, info, pool, procs, order[..k], [])
    ensures var ti := InfoOf(info, order[k]);
            PoolAdded(before, info[order[k] := ti.(waitPools := ti.waitPools + [pool])], pool, procs, order[..k + 1], [])
  {
    var t, ti := order[k], InfoOf(info, order[k]);
    var info' := info[t := ti.(waitPools := ti.waitPools + [pool])];
    assert order[..k + 1] == order[..k] + [t] && t !in order[..k];
    forall u ensures InfoOf(info', u) == WithPool(InfoOf(before, u), pool, procs, u in order[..k + 1], false) {
      assert InfoOf(info, u) == WithPool(InfoOf(before, u), pool, procs, u in order[..k], u in []);
      assert InfoOf(before, t).waitPools + [] + [pool] == InfoOf(before, t).waitPools + [pool];
    }
  }

  lemma PoolStarts(before: map<TaskName, TaskInfo>, info: map<TaskName, TaskInfo>, pool: PoolId, procs: seq<ProcId>,
                   order: seq<TaskName>, source: TaskName)
    requires PoolAdded(before, info, pool, procs, order, [])
    ensures var ti := InfoOf(info, source);
            PoolAdded(before, info[source := ti.(queues := ti.queues + procs)], pool, procs, order, [source])
  {
    var ti := InfoOf(info, source);
    var info' := info[source := ti.(queues := ti.queues + procs)];
    forall u ensures InfoOf(info', u) == WithPool(InfoOf(before, u), pool, procs, u in order, u in [source]) {
      assert InfoOf(info, u) == WithPool(InfoOf(before, u), pool, procs, u in order, u in []);
      assert InfoOf(before, source).queues + [] + procs == InfoOf(before, source).queues + procs;
    }
  }

  datatype Gathered = Raised | Nothing | Row(row: seq<Data>)

  class TaskManager {
    const dag: Flow
    /** task_manager_info_dict; a missing entry reads as a fresh one. */
    var info: map<TaskName, TaskInfo>
    var owner: seq<Option<TaskName>>
    /** The queues of each pool's processes. */
    var pools: seq<seq<ProcId>>
    /** What has been put into each process's queue and not been read. */
    var channels: seq<seq<Reply>>
    var status: Status

    function View(): Manager
      reads this
    {
      Manager(info, owner, channels, status)
    }

    function Graph(): Layout
      reads this
    {
      Layout(PrevMap(dag), pools)
    }

    constructor (dag: Flow)
      ensures this.dag == dag && pools == []
      ensures View() == Manager(map[], [], [], Looping)
    {
      this.dag := dag;
      info, owner, pools, channels, status := map[], [], [], [], Looping;
    }

    // ---------------------------------------------------------- setting up

    /** create_pool: `count` new processes, which walk through `order` and start at the data source. */
    method CreatePool(source: TaskName, count: nat, order: seq<TaskName>)
      requires NoDup(order)
      modifies this`info, this`owner, this`pools, this`channels
      ensures owner == old(owner) + [Some(source)]
      ensures pools == old(pools) + [Numbers(|old(channels)|, count)]
      ensures PoolAdded(old(info), info, |old(pools)|, Numbers(|old(channels)|, count), order, [source])
      ensures channels == PutGo(old(channels) + Repeat([], count), InfoOf(info, source).queues, false)
    {
      hide PoolAdded;
      var pool := |pools|;
      var queues := Numbers(|channels|, count);
      owner := owner + [Some(source)];
      NoPoolYet(info, pool, queues);
      for k := 0 to |order|
        invariant owner == old(owner) + [Some(source)] && pools == old(pools) && channels == old(channels)
        invariant PoolAdded(old(info), info, pool, queues, order[..k], [])
      {
        PoolWaits(old(info), info, pool, queues, order, k);
        var ti := InfoOf(info, order[k]);
        info := info[order[k] := ti.(waitPools := ti.waitPools + [pool])];
      }
      assert order[..|order|] == order;
      pools := pools + [queues];
      channels := channels + Repeat([], count);
      PoolStarts(old(info), info, pool, queues, order, source);
      var ti := InfoOf(info, source);
      info := info[source := ti.(queues := ti.queues + queues)];
      SendGo(source, false);
    }

    /** set_no_source_data.  The recursion ends because it goes up the ranks of an acyclic graph. */
    method SetNoSourceData(t: TaskName, ghost rank: Ranks, ghost top: nat)
      requires Acyclic(dag, rank) && Mirrored(dag) && forall u :: RankOf(rank, u) <= top
      modifies this`info
      ensures OnlyMarks(old(info), info) && MarksKept(old(info), info) && Marked(info, t)
      ensures MarksSound(dag, old(info), info, t) && MarksComplete(dag, old(info), info, [])
      decreases top - RankOf(rank, t)
    {
      hide OnlyMarks, MarksSound, MarksComplete, MarksKept, PrevIn, NextIn;
      info := info[t := InfoOf(info, t).(state := NoSourceData)];
      FirstMark(dag, old(info), info, t);
      var nexts := NextIn(dag, t);
      for k := 0 to |nexts|
        invariant OnlyMarks(old(info), info) && MarksKept(old(info), info) && Marked(info, t)
        invariant MarksSound(dag, old(info), info, t) && MarksComplete(dag, old(info), info, nexts[k..])
      {
        ghost var before := info;
        var u := nexts[k];
        var prevs := PrevIn(dag, u);
        assert u in nexts && t in prevs;
        var noSource := true;
        for j := 0 to |prevs|
          invariant noSource && forall i :: 0 <= i < j ==> Marked(info, prevs[i])
        {
          if !Marked(info, prevs[j]) {
            noSource := false;
            break;
          }
        }
        assert noSource <==> Starved(dag, info, u);
        if noSource {
          SetNoSourceData(u, rank, top);
        }
        assert nexts[k..][0] == u && nexts[k..][1..] == nexts[k + 1..];
        NextMark(dag, old(info), before, info, t, nexts[k..]);
        MarkStays(before, info, t);
      }
      assert nexts[|nexts|..] == [];
    }

    // ---------------------------------------------------------- sending

    method SendToOneProcess(t: TaskName, index: nat, r: Reply)
      modifies this`channels
      ensures View() == SendToProcess(old(View()), t, index, r)
    {
      var queues := InfoOf(info, t).queues;
      if index < |queues| {
        channels := Put(channels, queues[index], r);
      }
    }

    method SendToOneTask(t: TaskName, r: Reply)
      modifies this`channels
      ensures View() == SendToTask(old(View()), t, r)
    {
      var queues := InfoOf(info, t).queues;
      for k := 0 to |queues|
        invariant channels == PutAll(old(channels), queues[..k], r)
      {
        assert queues[..k + 1][..k] == queues[..k];
        channels := Put(channels, queues[k], r);
      }
      assert queues[..|queues|] == queues;
    }

    method SendGo(t: TaskName, failed: bool)
      modifies this`channels
      ensures View() == old(View()).(channels := PutGo(old(channels), InfoOf(info, t).queues, failed))
    {
      var queues := InfoOf(info, t).queues;
      for k := 0 to |queues|
        invariant channels == PutGo(old(channels), queues[..k], failed)
      {
        assert queues[..k + 1][..k] == queues[..k];
        SendToOneProcess(t, k, if failed then ErrorReply else Go(k));
      }
      assert queues[..|queues|] == queues;
    }

    // ---------------------------------------------------------- gathering

    /** What fill_gater_data leaves behind. */
    ghost predicate Took(taken: Taken, before: Manager, g: Gathered)
      reads this
    {
      match taken
      case Crash => g == Raised && View() == before
      case NoRow(m) => g == Nothing && View() == m
      case FullRow(m, row) => g == Row(row) && View() == m
    }

    method FillGatherData(t: TaskName, index: Option<nat>, d: Data, ignoreErrorState: bool) returns (g: Gathered)
      modifies this`info
      ensures Took(TaskModel.FillGatherData(old(View()), t, index, d, ignoreErrorState), old(View()), g)
    {
      var ti := InfoOf(info, t);
      if ti.state == Error && !ignoreErrorState {
        return Nothing;
      }
      var k := 0;
      while k < |ti.deque|
        invariant k <= |ti.deque| && info == old(info)
        invariant FirstOpen(ti.deque, index, 0) == FirstOpen(ti.deque, index, k)
      {
        var row := ti.deque[k];
        if index.None? || index.value >= |row| {
          return Raised;
        }
        if row[index.value].Filled? {
          k := k + 1;
          continue;
        }
        row := row[index.value := Filled(d)];
        var deque := ti.deque[k := row];
        if k == 0 && AllFilled(row) {
          info := info[t := ti.(deque := deque[1..])];
          return Row(Values(row));
        }
        info := info[t := ti.(deque := deque)];
        return Nothing;
      }
      var count := |ti.queues|;
      if count == 1 {
        info := info[t := ti];
        return Row([d]);
      }
      if index.None? || index.value >= count {
        return Raised;
      }
      var row := seq(count, _ => Unfilled)[index.value := Filled(d)];
      info := info[t := ti.(deque := ti.deque + [row])];
      return Nothing;
    }

    method SetTaskError(t: TaskName, index: Option<nat>, err: Option<int>) returns (g: Gathered)
      modifies this`info
      ensures match TaskModel.SetTaskError(old(View()), t, index, err)
              case Crash => g == Raised && owner == old(owner) && channels == old(channels) && status == old(status)
              case NoRow(m) => g == Nothing && View() == m
              case FullRow(m, row) => g == Row(row) && View() == m
    {
      var ti := InfoOf(info, t);
      if ti.state != Error {
        ti := ti.(deque := []);
      }
      info := info[t := ti.(state := Error)];
      g := FillGatherData(t, index, Err(err), true);
    }

    // ---------------------------------------------------------- finishing

    method IsAllPrevFinished(t: TaskName) returns (ready: bool, failed: bool)
      ensures ready <==> AllPrevFinished(Graph(), View(), t)
      ensures ready ==> (failed <==> SomePrevFailed(Graph(), info, t))
    {
      var prevs := PrevOf(Graph(), t);
      failed := false;
      for k := 0 to |prevs|
        invariant failed <==> exists i :: 0 <= i < k && InfoOf(info, prevs[i]).state == Error
        invariant forall i :: 0 <= i < k ==> Settled(InfoOf(info, prevs[i]).state)
      {
        var st := InfoOf(info, prevs[k]).state;
        if st == Error {
          failed := true;
        }
        if !Settled(st) {
          return false, failed;
        }
      }
      var waits := InfoOf(info, t).waitPools;
      for k := 0 to |waits|
        invariant forall i :: 0 <= i < k ==> waits[i] < |owner| && owner[waits[i]] == Some(t)
      {
        if waits[k] >= |owner| || owner[waits[k]] != Some(t) {
          return false, failed;
        }
      }
      return true, failed;
    }

    /** The body of the loop of set_task_finished; a pool number out of range raises. */
    method HandOverPool(i: PoolId, nextTask: Option<TaskName>)
      modifies this`info, this`owner, this`channels, this`status
      ensures View() == HandOver(Graph(), old(View()), i, nextTask)
    {
      if i >= |owner| || i >= |pools| {
        status := Crashed;
        return;
      }
      owner := owner[i := nextTask];
      if nextTask.None? {
        return;
      }
      var t := nextTask.value;
      var ti := InfoOf(info, t);
      info := info[t := ti.(queues := ti.queues + pools[i])];
      var ready, failed := IsAllPrevFinished(t);
      if ti.state != Unstart {
        return;
      }
      if ready {
        ghost var joined := View();
        assert InfoOf(joined.info, t) == ti.(queues := ti.queues + pools[i]);
        assert failed == SomePrevFailed(Graph(), joined.info, t);
        info := info[t := InfoOf(info, t).(state := Started)];
        SendGo(t, failed);
        assert View() == StartTask(Graph(), joined, t);
      }
    }

    /** `order` is the order in which the set of pairs happens to be iterated. */
    method SetTaskFinished(t: TaskName, nextTasks: set<(PoolId, Option<TaskName>)>)
        returns (ghost order: seq<(PoolId, Option<TaskName>)>)
      modifies this`info, this`owner, this`channels, this`status
      ensures Lists(order, nextTasks)
      ensures View() == TaskModel.SetTaskFinished(Graph(), old(View()), t, order)
    {
      var ti := InfoOf(info, t);
      info := info[t := ti.(state := if ti.state == Error then Error else Finished)];
      ghost var marked := View();
      var rest := nextTasks;
      order := [];
      while rest != {} && status != Crashed
        invariant rest <= nextTasks && Lists(order, nextTasks - rest)
        invariant View() == HandOverAll(Graph(), marked, order)
        decreases rest
      {
        var pair :| pair in rest;
        ListOneMore(order, nextTasks - rest, pair);
        OneMoreHandOver(Graph(), marked, order, pair);
        assert nextTasks - (rest - {pair}) == nextTasks - rest + {pair};
        rest := rest - {pair};
        HandOverPool(pair.0, pair.1);
        order := order + [pair];
      }
      ghost var left := ListSet(rest);
      assert nextTasks == (nextTasks - rest) + rest;
      ListBoth(order, nextTasks - rest, left, rest);
      NothingAfterCrash(Graph(), marked, order, left);
      order := order + left;
    }

    // ---------------------------------------------------------- the loop

    /** is_all_finished: `is_alive` is a method that is never called, so its second half is never true. */
    method IsAllFinished() returns (finished: bool)
      ensures finished <==> forall i :: 0 <= i < |owner| ==> owner[i].None?
    {
      for k := 0 to |owner|
        invariant forall i :: 0 <= i < k ==> owner[i].None?
      {
        if owner[k].Some? {
          return false;
        }
      }
      return true;
    }

    method StopIfFinished()
      modifies this`status
      ensures View() == Settle(old(View()))
    {
      var finished := IsAllFinished();
      if finished && status == Looping {
        status := Stopped;
      }
    }

    /** One turn of the loop of start(), for any message but "crash", "broadcast" and "send_to". */
    method Turn(msg: Msg) returns (ghost pairs: seq<(PoolId, Option<TaskName>)>)
      requires status == Looping
      modifies this`info, this`owner, this`channels, this`status
      ensures PairsFit(old(View()), msg, pairs)
      ensures var m' := Handle(Graph(), old(View()), msg, pairs);
              && owner == m'.owner && channels == m'.channels && status == m'.status
              && (status != Crashed ==> info == m'.info)
    {
      pairs := [];
      match msg.body {
        case FinishedMsg(pool, nextTask, afterError) =>
          var g := FillGatherData(msg.task, msg.index, Fin(pool, nextTask), afterError);
          if g == Raised {
            status := Crashed;
            return;
          }
          if g.Row? {
            SendToOneTask(msg.task, FinishedReply);
            if !AllFin(g.row) {
              status := Crashed;
              return;
            }
            pairs := SetTaskFinished(msg.task, PairsOf(g.row));
          }
          StopIfFinished();
        case ErrorMsg(err) =>
          if err.Some? {
            SendToOneTask(msg.task, ErrorReply);
          }
          var g := SetTaskError(msg.task, msg.index, err);
          if g == Raised {
            status := Crashed;
            return;
          }
          if g.Row? {
            SendToOneTask(msg.task, ErrorGather(g.row));
          }
          StopIfFinished();
        case Gather(dst, v) =>
          var g := FillGatherData(msg.task, msg.index, Val(v), false);
          if g == Raised {
            status := Crashed;
            return;
          }
          if g.Row? {
            SendToOneProcess(msg.task, dst, TaskModel.Gathered(g.row));
          }
        case AllGather(v) =>
          var g := FillGatherData(msg.task, msg.index, Val(v), false);
          if g == Raised {
            status := Crashed;
            return;
          }
          if g.Row? {
            SendToOneTask(msg.task, AllGathered(g.row));
          }
      }
    }
  }

  // ------------------------------------------------------------ hand-overs one after the other

  lemma {:induction false} OneMoreHandOver(l: Layout, m: Manager, order: seq<(PoolId, Option<TaskName>)>,
                                           pair: (PoolId, Option<TaskName>))
    requires HandOverAll(l, m, order).status != Crashed
    ensures HandOverAll(l, m, order + [pair]) == HandOver(l, HandOverAll(l, m, order), pair.0, pair.1)
    decreases order
  {
    hide HandOver;
    if order == [] {
      assert [pair][1..] == [] && [] + [pair] == [pair];
    } else {
      assert (order + [pair])[1..] == order[1..] + [pair];
      if m.status != Crashed {
        OneMoreHandOver(l, HandOver(l, m, order[0].0, order[0].1), order[1..], pair);
      }
    }
  }

  lemma {:induction false} NothingAfterCrash(l: Layout, m: Manager, order: seq<(PoolId, Option<TaskName>)>,
                                             left: seq<(PoolId, Option<TaskName>)>)
    requires left == [] || HandOverAll(l, m, order).status == Crashed
    ensures HandOverAll(l, m, order + left) == HandOverAll(l, m, order)
    decreases order
  {
    hide HandOver;
    if left == [] {
      assert order + left == order;
    } else if order == [] {
      assert order + left == left;
    } else {
      assert (order + left)[1..] == order[1..] + left;
      if m.status != Crashed {
        NothingAfterCrash(l, HandOver(l, m, order[0].0, order[0].1), order[1..], left);
      }
    }
  }
}
