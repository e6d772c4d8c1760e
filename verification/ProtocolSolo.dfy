/** When no task is shared by two pools, the indices always number the processes, so every run completes, failures or not. */
module ProtocolSolo {
  import opened Basics
  import opened Collectives
  import opened TaskModel
  import opened TaskProtocol
  import opened ProtocolInvariant
  import ProcessSteps
  import ManagerHandOver
  import ManagerSteps
  import opened ProtocolRuns
  import opened ProtocolProgress
  import ProtocolOutcome
  import opened ProtocolErrors

  ghost predicate NoSharedTask(c: Config) {
    forall i, j, t :: InPool(c, i, t) && InPool(c, j, t) ==> i == j
  }

  /** No task that comes before position r in the ordered task list is shared. */
  ghost predicate NoSharedBelow(c: Config, r: nat) {
    forall i, j, t :: InPool(c, i, t) && InPool(c, j, t) && Rank(c, t) < r ==> i == j
  }

  /** A process that has been started holds its place in its pool as its index. */
  ghost predicate IndexFits(c: Config, p: ProcId, pr: Process) {
    && p < |c.home| && c.home[p] < |c.pools|
    && match pr.index
       case None => pr.at == 0 && pr.phase.WaitGo?
       case Some(v) => v < |c.pools[c.home[p]].procs| && c.pools[c.home[p]].procs[v] == p
  }

  /** The process has not got past the first receive of the task at position r. */
  predicate Early(c: Config, p: ProcId, pr: Process, r: nat) {
    pr.at < |OrderOf(c, p)| &&
    (Rank(c, OrderOf(c, p)[pr.at]) < r || (Rank(c, OrderOf(c, p)[pr.at]) == r && pr.phase.WaitGo?))
  }

  /** Up to position r every pool works alone. */
  ghost predicate SoloOk(c: Config, s: State, r: nat) {
    && |s.m.owner| == |c.pools|
    && (forall i :: 0 <= i < |c.pools| && s.m.owner[i].Some? && Rank(c, s.m.owner[i].value) < r ==>
          InfoOf(s.m.info, s.m.owner[i].value).queues == c.pools[i].procs)
    && (forall p :: 0 <= p < |s.procs| && Early(c, p, s.procs[p], r) ==> IndexFits(c, p, s.procs[p]))
  }

  ghost predicate NoneMisaligned(c: Config, s: State) {
    forall t: TaskName :: !Misaligned(c, s, t)
  }

  lemma SoloActive(c: Config, owner: Owners, i: PoolId, t: TaskName, r: nat)
    requires NoSharedBelow(c, r) && Rank(c, t) < r && OwnersOk(c, owner, {}) && i < |owner| && owner[i] == Some(t)
    ensures Active(c, owner, {}, t)
    ensures forall j: PoolId :: Owns(owner, {}, j, t) ==> j == i
  {
    assert InPool(c, i, t);
  }

  // ------------------------------------------------------------ aligned indices

  /** A process without an index is at its data source, which has no predecessor to fail. */
  lemma IndexSet(c: Config, s: State, h: History, p: ProcId, t: TaskName)
    requires Inv(c, s, h, {}) && p < |s.procs| && IndexFits(c, p, s.procs[p])
    requires s.m.owner[c.home[p]] == Some(t) && SomePrevFailed(LayoutOf(c), s.m.info, t)
    ensures s.procs[p].index.Some?
  {
    hide OrdersOk, PoolsOk, NoSourceOk, TaskOk, SeatedOk, Active;
    assert ProcOk(c, s.m.info, s.m.owner, h, {}, p, s.procs[p], s.m.channels[p]);
  }

  lemma SoloAligned(c: Config, s: State, h: History, t: TaskName, r: nat)
    requires NoSharedBelow(c, r) && Inv(c, s, h, {}) && SoloOk(c, s, r) && Rank(c, t) < r
    ensures !Misaligned(c, s, t)
  {
    hide Inv, NoSharedBelow, Numbered, SoloOk;
    if Active(c, s.m.owner, {}, t) && SomePrevFailed(LayoutOf(c), s.m.info, t) {
      SoloNumbered(c, s, h, t, r);
    }
  }

  /** A process of an active task is there, or still has to read the "finished" of the task before. */
  lemma EarlyAt(c: Config, s: State, h: History, t: TaskName, p: ProcId, r: nat)
    requires Inv(c, s, h, {}) && Active(c, s.m.owner, {}, t) && p in Joined(c, t) && Rank(c, t) < r
    ensures p < |s.procs| && Early(c, p, s.procs[p], r)
  {
    hide PoolsOk, GraphOk, NoSourceOk, TaskOk, ProcOk, PairsFit, Active;
    StateShape(c, s, h);
    OwnerAt(c, s, h, p);
    OwnsIt(c, s.m.owner, t, c.home[p]);
  }

  lemma OwnsIt(c: Config, owner: Owners, t: TaskName, i: PoolId)
    requires Active(c, owner, {}, t) && i < |c.pools| && InPool(c, i, t)
    ensures Owns(owner, {}, i, t) && !PassedBy(c, owner, {}, i, t)
  {
  }

  lemma SoloNumbered(c: Config, s: State, h: History, t: TaskName, r: nat)
    requires NoSharedBelow(c, r) && Inv(c, s, h, {}) && SoloOk(c, s, r) && Rank(c, t) < r
    requires Active(c, s.m.owner, {}, t) && SomePrevFailed(LayoutOf(c), s.m.info, t)
    ensures Numbered(s.procs, Joined(c, t))
  {
    hide OrdersOk, GraphOk, NoSourceOk, TaskOk, ProcOk, SomePrevFailed;
    var i :| 0 <= i < |c.pools| && InPool(c, i, t);
    assert Owns(s.m.owner, {}, i, t);
    ManagerHandOver.Members(c, i);
    var procs := c.pools[i].procs;
    assert forall p: ProcId :: p in procs <==> p in Joined(c, t);
    SameSize(procs, Joined(c, t));
    forall p | p in Joined(c, t) ensures p < |s.procs| && s.procs[p].index.Some? && c.home[p] == i && IndexFits(c, p, s.procs[p]) {
      EarlyAt(c, s, h, t, p, r);
      IndexSet(c, s, h, p, t);
    }
  }

  // ------------------------------------------------------------ process steps

  lemma FirstReply(c: Config, seat: Seat, ti: TaskInfo, hi: Hist, ch: seq<Reply>, pr: Process)
    requires SeatedOk(c, seat, ti, hi, WaitGo, ch, pr) && ch != []
    ensures ch[0] == if hi.failed then ErrorReply else Go(seat.x)
  {
    hide NothingYet;
    if hi.failed {
      assert ErrorsAfter([], ch);
      assert ch[0] == ch[0..][0];
    } else if ti.state == Error {
      assert ErrorsAfter([Go(seat.x)], ch);
      assert ch[0] == ch[..1][0];
    }
  }

  lemma SoloRecv(c: Config, s: State, h: History, p: ProcId, r: nat)
    requires Inv(c, s, h, {}) && SoloOk(c, s, r) && Enabled(c, s, Recv(p))
    requires Early(c, p, Receive(c.home[p], OrderOf(c, p), s.procs[p], s.m.channels[p][0]), r)
    ensures IndexFits(c, p, Receive(c.home[p], OrderOf(c, p), s.procs[p], s.m.channels[p][0]))
  {
    hide PoolsOk, GraphOk, NoSourceOk, TaskOk, ProcOk, SeatedOk, Active, HistShape, SomePrevFailed, DequeOk;
    var pr, ch := s.procs[p], s.m.channels[p];
    RanksRise(c, p, pr.at);
    assert Early(c, p, pr, r);
    assert IndexFits(c, p, pr);
    if !Lagging(pr, ch) && pr.phase.WaitGo? {
      var t, x := ProcessSteps.FindSeat(c, s, h, p);
      FirstReply(c, Seat(t, c.home[p], NextTask(OrderOf(c, p), pr.at), x), InfoOf(s.m.info, t), HistOf(h, t), ch, pr);
      if HistOf(h, t).failed {
        IndexSet(c, s, h, p, t);
      }
    }
  }

  lemma RanksRise(c: Config, p: ProcId, k: nat)
    requires OrdersOk(c)
    ensures k + 1 < |OrderOf(c, p)| ==> Rank(c, OrderOf(c, p)[k]) < Rank(c, OrderOf(c, p)[k + 1])
  {
  }

  // ------------------------------------------------------------ manager steps

  /** The processes that a sequence of hand-overs brings to task v. */
  function Joining(l: Layout, pools: nat, pairs: seq<(PoolId, Option<TaskName>)>, v: TaskName): seq<ProcId>
    decreases pairs
  {
    if pairs == [] then []
    else
      (if pairs[0].0 < pools && pairs[0].0 < |l.pools| && pairs[0].1 == Some(v) then l.pools[pairs[0].0] else [])
      + Joining(l, pools, pairs[1..], v)
  }

  lemma HandOverQueues(l: Layout, m: Manager, i: PoolId, next: Option<TaskName>, v: TaskName)
    ensures |HandOver(l, m, i, next).owner| == |m.owner|
    ensures InfoOf(HandOver(l, m, i, next).info, v).queues
            == InfoOf(m.info, v).queues + if i < |m.owner| && i < |l.pools| && next == Some(v) then l.pools[i] else []
  {
    hide AllPrevFinished, SomePrevFailed, PutGo;
    assert InfoOf(m.info, v).queues + [] == InfoOf(m.info, v).queues;
  }

  lemma {:induction false} HandOverAllQueues(l: Layout, m: Manager, pairs: seq<(PoolId, Option<TaskName>)>, v: TaskName)
    ensures HandOverAll(l, m, pairs).status != Crashed ==>
              InfoOf(HandOverAll(l, m, pairs).info, v).queues == InfoOf(m.info, v).queues + Joining(l, |m.owner|, pairs, v)
    decreases pairs
  {
    hide HandOver;
    if pairs == [] {
      assert InfoOf(m.info, v).queues + [] == InfoOf(m.info, v).queues;
    } else {
      HandOverQueues(l, m, pairs[0].0, pairs[0].1, v);
      HandOverAllQueues(l, HandOver(l, m, pairs[0].0, pairs[0].1), pairs[1..], v);
    }
  }

  lemma TakenQueues(m: Manager, t: TaskName, index: Option<nat>, d: Data, ignore: bool, v: TaskName)
    ensures var taken := FillGatherData(m, t, index, d, ignore);
            !taken.Crash? ==> InfoOf(taken.m.info, v).queues == InfoOf(m.info, v).queues && taken.m.owner == m.owner
  {
    hide Fill;
  }

  /** One turn of the manager's loop changes the queues of a task only by what the hand-overs bring. */
  lemma HandleQueues(l: Layout, m: Manager, msg: Msg, pairs: seq<(PoolId, Option<TaskName>)>, v: TaskName)
    ensures || Handle(l, m, msg, pairs).status == Crashed
            || InfoOf(Handle(l, m, msg, pairs).info, v).queues == InfoOf(m.info, v).queues
            || InfoOf(Handle(l, m, msg, pairs).info, v).queues == InfoOf(m.info, v).queues + Joining(l, |m.owner|, pairs, v)
  {
    hide FillGatherData, HandOverAll, PutAll, Put, Joining;
    match msg.body {
      case FinishedMsg(pool, next, afterError) =>
        TakenQueues(m, msg.task, msg.index, Fin(pool, next), afterError, v);
        var taken := FillGatherData(m, msg.task, msg.index, Fin(pool, next), afterError);
        if taken.FullRow? {
          HandOverAllQueues(l, MarkFinished(SendToTask(taken.m, msg.task, FinishedReply), msg.task), pairs, v);
        }
      case ErrorMsg(err) =>
        var told := if err.Some? then SendToTask(m, msg.task, ErrorReply) else m;
        var ti := InfoOf(told.info, msg.task);
        TakenQueues(WithInfo(told, msg.task, ti.(state := Error, deque := if ti.state == Error then ti.deque else [])),
                    msg.task, msg.index, Err(err), true, v);
      case Gather(dst, w) => TakenQueues(m, msg.task, msg.index, Val(w), false, v);
      case AllGather(w) => TakenQueues(m, msg.task, msg.index, Val(w), false, v);
    }
  }

  /** If they all come from one pool, each once, they are that pool's processes in its order. */
  lemma {:induction false} JoiningIsPool(c: Config, pairs: seq<(PoolId, Option<TaskName>)>, v: TaskName, j: PoolId)
    requires PoolsOk(c) && j < |c.pools|
    requires var joining := Joining(LayoutOf(c), |c.pools|, pairs, v);
             NoDup(joining) && forall p :: p in joining ==> p < |c.home| && c.home[p] == j
    ensures Joining(LayoutOf(c), |c.pools|, pairs, v) in [[], c.pools[j].procs]
    decreases pairs
  {
    hide PoolsOk, NoDup;
    if pairs != [] {
      var joining, rest := Joining(LayoutOf(c), |c.pools|, pairs, v), Joining(LayoutOf(c), |c.pools|, pairs[1..], v);
      var i := pairs[0].0;
      if i < |c.pools| && pairs[0].1 == Some(v) {
        var procs := c.pools[i].procs;
        assert joining == procs + rest;
        RestNoDup(procs, rest);
        JoiningIsPool(c, pairs[1..], v, j);
        ManagerHandOver.Members(c, i);
        assert procs[0] in procs && procs[0] in joining;
        assert i == j;
        OnceOnly(procs, rest);
      } else {
        assert joining == rest;
        JoiningIsPool(c, pairs[1..], v, j);
      }
    }
  }

  lemma OnceOnly(a: seq<ProcId>, b: seq<ProcId>)
    requires NoDup(a + b) && a != [] && b in [[], a]
    ensures a + b == a
  {
    assert forall k :: 0 <= k < |b| ==> (a + b)[|a| + k] == b[k];
    assert (a + b)[0] == a[0];
  }

  lemma RestNoDup(a: seq<ProcId>, b: seq<ProcId>)
    requires NoDup(a + b)
    ensures NoDup(b)
    ensures forall p :: p in b ==> p in a + b
  {
    forall x, y | 0 <= x < y < |b| ensures b[x] != b[y] {
      assert (a + b)[|a| + x] == b[x] && (a + b)[|a| + y] == b[y];
    }
  }

  /** A task that its pool has not come to yet has no queues. */
  lemma NotYetThere(c: Config, s: State, h: History, t: TaskName, j: PoolId, v: TaskName, r: nat)
    requires NoSharedBelow(c, r) && Rank(c, v) < r && Inv(c, s, h, {})
    requires j < |s.m.owner| && s.m.owner[j] == Some(t) && ManagerHandOver.IsNext(c, t, j, Some(v))
    ensures InfoOf(s.m.info, v).queues == []
  {
    hide GraphOk, NoSourceOk, ProcOk, PoolsOk;
    var order := c.pools[j].order;
    var k :| 0 <= k < |order| && order[k] == t && Some(v) == NextTask(order, k);
    assert InPool(c, j, v) && Rank(c, t) < Rank(c, v);
    assert !PassedBy(c, s.m.owner, {}, j, v) && !Owns(s.m.owner, {}, j, v);
    assert TaskOk(c, s.m.info, s.m.owner, h, {}, v);
    var queues := InfoOf(s.m.info, v).queues;
    assert forall p: ProcId :: p < |c.home| ==> !Owns(s.m.owner, {}, c.home[p], v);
    NobodyQueues(queues);
  }

  lemma NobodyQueues(queues: seq<ProcId>)
    requires forall p: ProcId :: p !in queues
    ensures queues == []
  {
    if queues != [] {
      var p := FirstOf(queues);
    }
  }

  lemma QueuesAfter(c: Config, s': State, h': History, j: PoolId, v: TaskName, r: nat)
    requires NoSharedBelow(c, r) && Rank(c, v) < r && Inv(c, s', h', {}) && j < |s'.m.owner| && s'.m.owner[j] == Some(v)
    ensures var queues := InfoOf(s'.m.info, v).queues;
            NoDup(queues) && forall p: ProcId :: p in queues <==> p < |c.home| && c.home[p] == j
  {
    hide OrdersOk, GraphOk, NoSourceOk, ProcOk, TaskOk, Active, ActiveOk;
    SoloActive(c, s'.m.owner, j, v, r);
    ProcessSteps.TaskQueues(c, s', h', v);
    ManagerHandOver.Homes(c);
  }

  lemma AppendedNothing(a: seq<ProcId>, b: seq<ProcId>)
    requires NoDup(a + b) && forall p :: p in b ==> p in a
    ensures b == []
  {
    assert b != [] ==> b[0] in a && (a + b)[|a|] == b[0];
    assert forall x :: 0 <= x < |a| ==> (a + b)[x] == a[x];
  }

  lemma SoloManage(c: Config, s: State, h: History, a: Act, j: PoolId, r: nat)
    requires NoSharedBelow(c, r) && Inv(c, s, h, {}) && SoloOk(c, s, r) && NoneMisaligned(c, s) && Enabled(c, s, a) && a.Manage?
    requires var m' := Do(c, s, a).m; j < |c.pools| && j < |m'.owner| && m'.owner[j].Some? && Rank(c, m'.owner[j].value) < r
    ensures var m' := Do(c, s, a).m; InfoOf(m'.info, m'.owner[j].value).queues == c.pools[j].procs
  {
    hide Inv, NoSharedBelow, PairsFit, Handle, Joining, Aligned, Active, Misaligned, IndexFits, NoDup, ManagerHandOver.IsNext,
         QueuesOk;
    var m' := Do(c, s, a).m;
    var h', t, x := ManagerSteps.ManageKeeps(c, s, h, a.p, a.pairs);
    NumberedIffAligned(c, s, h, t);
    assert ManagerSteps.Hands(c, s.m.owner, m'.owner, t, j);
    var v := m'.owner[j].value;
    var before, joining := InfoOf(s.m.info, v).queues, Joining(LayoutOf(c), |s.m.owner|, a.pairs, v);
    HandleQueues(LayoutOf(c), s.m, s.procs[a.p].out[0], a.pairs, v);
    QueuesAfter(c, Do(c, s, a), h', j, v, r);
    PoolHas(c, s, h, j);
    if s.m.owner[j] == Some(v) {
      if InfoOf(m'.info, v).queues != before {
        assert forall p :: p in joining ==> p in before + joining;
        AppendedNothing(before, joining);
      }
    } else {
      NotYetThere(c, s, h, t, j, v, r);
      assert [] + joining == joining;
      JoiningIsPool(c, a.pairs, v, j);
    }
  }

  lemma PoolHas(c: Config, s: State, h: History, j: PoolId)
    requires Inv(c, s, h, {}) && j < |c.pools|
    ensures PoolsOk(c) && |s.m.owner| == |c.pools|
    ensures c.pools[j].procs != [] && forall p: ProcId :: p in c.pools[j].procs <==> p < |c.home| && c.home[p] == j
    ensures exists p: ProcId :: p < |c.home| && c.home[p] == j
  {
    hide OrdersOk, GraphOk, NoSourceOk, ProcOk, TaskOk;
    ManagerHandOver.Members(c, j);
    assert c.pools[j].procs[0] in c.pools[j].procs;
  }

  lemma SoloStep(c: Config, s: State, h: History, a: Act, r: nat)
    requires NoSharedBelow(c, r) && Inv(c, s, h, {}) && SoloOk(c, s, r) && NoneMisaligned(c, s) && Enabled(c, s, a)
    ensures SoloOk(c, Do(c, s, a), r)
  {
    hide Inv, NoSharedBelow, NoneMisaligned, Handle, Receive, PairsFit, IndexFits;
    var s' := Do(c, s, a);
    match a {
      case Manage(p, pairs) =>
        var h', t, x := ManagerSteps.ManageKeeps(c, s, h, p, pairs);
        OwnersCount(c, s', h');
        forall j | 0 <= j < |c.pools| && s'.m.owner[j].Some? && Rank(c, s'.m.owner[j].value) < r
          ensures InfoOf(s'.m.info, s'.m.owner[j].value).queues == c.pools[j].procs
        {
          SoloManage(c, s, h, a, j, r);
        }
        forall q | 0 <= q < |s'.procs| && Early(c, q, s'.procs[q], r) ensures IndexFits(c, q, s'.procs[q]) {
          assert Early(c, q, s.procs[q], r);
          SameIndexFits(c, q, s.procs[q], s'.procs[q]);
        }
      case Recv(p) =>
        forall q | 0 <= q < |s'.procs| && Early(c, q, s'.procs[q], r) ensures IndexFits(c, q, s'.procs[q]) {
          if q == p {
            SoloRecv(c, s, h, p, r);
          }
        }
      case Contribute(p, v) => SoloOwn(c, s, a, r);
      case Fail(p, e) => SoloOwn(c, s, a, r);
    }
  }

  lemma SameIndexFits(c: Config, q: ProcId, pr: Process, pr': Process)
    requires IndexFits(c, q, pr) && pr'.at == pr.at && pr'.phase == pr.phase && pr'.index == pr.index
    ensures IndexFits(c, q, pr')
  {
  }

  lemma SoloOwn(c: Config, s: State, a: Act, r: nat)
    requires SoloOk(c, s, r) && Enabled(c, s, a) && (a.Contribute? || a.Fail?)
    ensures SoloOk(c, Do(c, s, a), r)
  {
    assert Early(c, a.p, s.procs[a.p], r) ==> IndexFits(c, a.p, s.procs[a.p]);
  }

  lemma OwnersCount(c: Config, s: State, h: History)
    requires Inv(c, s, h, {})
    ensures |s.m.owner| == |c.pools|
  {
    hide WellFormed, NoSourceOk, ProcOk, TaskOk;
  }

  /** Past every position: the whole run is solo. */
  ghost predicate AboveAll(c: Config, r: nat) {
    forall t :: Rank(c, t) < r
  }

  lemma {:induction false} SomeAbove(ranks: map<TaskName, nat>) returns (r: nat)
    ensures forall t :: t in ranks ==> ranks[t] < r
    decreases |ranks|
  {
    if ranks == map[] {
      r := 0;
    } else {
      var t :| t in ranks;
      r := SomeAbove(ranks - {t});
      r := if ranks[t] < r then r else ranks[t] + 1;
      forall u | u in ranks ensures ranks[u] < r {
        assert u != t ==> u in ranks - {t};
      }
    }
  }

  lemma NoSharedAnywhere(c: Config) returns (r: nat)
    requires NoSharedTask(c)
    ensures NoSharedBelow(c, r) && AboveAll(c, r)
  {
    r := SomeAbove(c.rank);
    r := r + 1;
  }

  lemma NeverMisaligned(c: Config, s: State, h: History, r: nat)
    requires NoSharedBelow(c, r) && AboveAll(c, r) && Inv(c, s, h, {}) && SoloOk(c, s, r)
    ensures NoneMisaligned(c, s)
  {
    hide Inv, NoSharedBelow, SoloOk, Misaligned;
    forall t: TaskName ensures !Misaligned(c, s, t) {
      SoloAligned(c, s, h, t, r);
    }
  }

  lemma {:induction false} SoloRun(c: Config, s: State, h: History, acts: seq<Act>, s': State, r: nat)
    requires NoSharedBelow(c, r) && AboveAll(c, r) && Inv(c, s, h, {}) && SoloOk(c, s, r) && Runs(c, s, acts, s')
    ensures SoloOk(c, s', r)
    decreases acts
  {
    hide Inv, Do, Enabled, SoloOk, NoSharedBelow, AboveAll, NoneMisaligned;
    if acts != [] {
      NeverMisaligned(c, s, h, r);
      SoloStep(c, s, h, acts[0], r);
      var h1 := StepKeeps(c, s, h, acts[0]);
      SoloRun(c, Do(c, s, acts[0]), h1, acts[1..], s', r);
    }
  }

  lemma InitialSolo(c: Config, s: State, r: nat)
    requires WellFormed(c) && Initial(c, s)
    ensures SoloOk(c, s, r)
  {
    hide OrdersOk, GraphOk;
    forall i | 0 <= i < |c.pools| ensures s.m.owner[i].Some? && InfoOf(s.m.info, s.m.owner[i].value).queues == c.pools[i].procs {
      assert InPool(c, i, c.pools[i].order[0]);
      assert InitialTask(c, s.m, c.pools[i].order[0]);
    }
    forall p | 0 <= p < |s.procs| ensures IndexFits(c, p, s.procs[p]) {
      var i := c.home[p];
      assert p in c.pools[i].procs;
      var x :| 0 <= x < |c.pools[i].procs| && c.pools[i].procs[x] == p;
      assert AtFirstReceive(s, c.pools[i].procs);
    }
  }

  /** Without a shared task no run comes to a misaligned one, so every run that can go no further is complete. */
  lemma SoloPoolsComplete(c: Config, s: State)
    requires WellFormed(c) && NoSharedTask(c) && Reachable(c, s)
    ensures forall t: TaskName :: !Misaligned(c, s, t)
    ensures ProtocolOutcome.Quiescent(c, s) ==> ProtocolOutcome.Complete(c, s)
  {
    hide Inv, Do, Enabled, WellFormed, Initial, SoloOk, NoSharedTask, NoSharedBelow, AboveAll, Misaligned,
         ProtocolOutcome.Quiescent, ProtocolOutcome.Complete;
    var s0, acts :| Initial(c, s0) && Runs(c, s0, acts, s);
    var r := NoSharedAnywhere(c);
    InitialGood(c, s0);
    InitialSolo(c, s0, r);
    SoloRun(c, s0, StartHistory(c, s0.m), acts, s, r);
    var h := RunKeeps(c, s0, StartHistory(c, s0.m), acts, s);
    NeverMisaligned(c, s, h, r);
    if ProtocolOutcome.Quiescent(c, s) {
      ProtocolOutcome.EndsComplete(c, s);
    }
  }
}
