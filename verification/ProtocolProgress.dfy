/** When the task protocol can get stuck: exactly at a task that inherits indices which do not number its processes. */
module ProtocolProgress {
  import opened Basics
  import opened Collectives
  import opened TaskModel
  import opened TaskProtocol
  import opened ProtocolInvariant
  import ProcessSteps
  import opened ManagerFrames
  import ManagerAccepts
  import ManagerErrors
  import ManagerErrorSteps
  import opened ManagerRelease
  import ManagerHandOver
  import ManagerSteps
  import ProtocolRuns

  // ------------------------------------------------------------ misaligned tasks

  /** The processes of the pools that walk through task t. */
  ghost function Joined(c: Config, t: TaskName): set<ProcId> {
    set p: ProcId | p < |c.home| && InPool(c, c.home[p], t)
  }

  /** The indices of the processes number them one to one.  (A single process needs no index.) */
  ghost predicate Numbered(procs: seq<Process>, members: set<ProcId>) {
    || |members| == 1
    || ((forall p :: p in members ==> p < |procs| && procs[p].index.Some? && procs[p].index.value < |members|) &&
        (forall p, q :: p in members && q in members && p != q ==> procs[p].index != procs[q].index))
  }

  /** Task t was started with "error", so its processes keep the indices of their previous tasks, and these clash. */
  ghost predicate Misaligned(c: Config, s: State, t: TaskName) {
    && Active(c, s.m.owner, {}, t)
    && SomePrevFailed(LayoutOf(c), s.m.info, t)
    && !Numbered(s.procs, Joined(c, t))
  }

  lemma SameSize(queues: seq<ProcId>, members: set<ProcId>)
    requires NoDup(queues) && forall p: ProcId :: p in queues <==> p in members
    ensures |queues| == |members|
  {
    assert Elems(queues) == members;
  }

  /** The queues of an active task are those of the processes of its pools. */
  lemma QueuesAreJoined(c: Config, owner: Owners, t: TaskName, queues: seq<ProcId>)
    requires PoolsOk(c) && OwnersOk(c, owner, {}) && Active(c, owner, {}, t) && QueuesOk(c, owner, {}, t, queues)
    ensures forall p: ProcId :: p in queues <==> p in Joined(c, t)
    ensures |queues| == |Joined(c, t)|
  {
    forall p: ProcId ensures p in queues <==> p in Joined(c, t) {
      if p in Joined(c, t) {
        assert Owns(owner, {}, c.home[p], t);
      }
    }
    SameSize(queues, Joined(c, t));
  }

  lemma FailedIndex(c: Config, t: TaskName, ti: TaskInfo, hi: Hist, x: nat, q: ProcId, pr: Process, ch: seq<Reply>)
    requires q < |c.home| && x < |hi.cols| && hi.failed && SeatFine(c, t, ti, hi, x, q, pr, ch)
    ensures pr.index == hi.cols[x]
  {
    hide InRun, BaseOf, ErrorsAfter, AllErrors, Aligned, NothingYet, OneError, ErrorThenFinish, MinLen;
  }

  lemma NumberedIffAligned(c: Config, s: State, h: History, t: TaskName)
    requires Inv(c, s, h, {}) && Active(c, s.m.owner, {}, t)
    ensures HistOf(h, t).failed <==> SomePrevFailed(LayoutOf(c), s.m.info, t)
    ensures Misaligned(c, s, t) <==> !Aligned(HistOf(h, t).cols)
  {
    hide OrdersOk, GraphOk, NoSourceOk, TaskOk, ProcOk, SeatFine, DequeOk, Active, HistShape, SomePrevFailed, Joined, QueuesOk;
    SeatsOf(c, s, h, t);
    var ti, hi := InfoOf(s.m.info, t), HistOf(h, t);
    ManagerAccepts.ShapeLengths(hi, |ti.queues|);
    QueuesAreJoined(c, s.m.owner, t, ti.queues);
    if hi.failed {
      forall x | 0 <= x < |ti.queues| ensures ti.queues[x] < |s.procs| && s.procs[ti.queues[x]].index == hi.cols[x] {
        FailedIndex(c, t, ti, hi, x, ti.queues[x], s.procs[ti.queues[x]], s.m.channels[ti.queues[x]]);
      }
      ManagerSteps.QueueFacts(c, s.m.owner, t, ti.queues);
      IndicesNumber(s.procs, ti.queues, hi.cols, Joined(c, t));
    } else {
      ManagerErrorSteps.IdentityAligned(hi, |ti.queues|);
    }
  }

  /** In every reachable state the seats of an active task are the distinct indices its messages carry, unless it is misaligned. */
  lemma MisalignedIfClashing(c: Config, s: State, t: TaskName) returns (h: History)
    requires WellFormed(c) && Reachable(c, s) && Active(c, s.m.owner, {}, t)
    ensures Inv(c, s, h, {}) && (HistOf(h, t).failed <==> SomePrevFailed(LayoutOf(c), s.m.info, t))
    ensures Misaligned(c, s, t) <==> !Aligned(HistOf(h, t).cols)
  {
    hide Inv, WellFormed, Reachable, Active, Misaligned, Aligned;
    h := ProtocolRuns.ReachableGood(c, s);
    NumberedIffAligned(c, s, h, t);
  }

  lemma IndicesNumber(procs: seq<Process>, queues: seq<ProcId>, cols: seq<Option<nat>>, members: set<ProcId>)
    requires |cols| == |queues| == |members| && NoDup(queues) && forall p: ProcId :: p in queues <==> p in members
    requires forall x :: 0 <= x < |queues| ==> queues[x] < |procs| && procs[queues[x]].index == cols[x]
    ensures Numbered(procs, members) <==> Aligned(cols)
  {
    if |cols| != 1 {
      if Numbered(procs, members) {
        forall x | 0 <= x < |cols| ensures cols[x].Some? && cols[x].value < |cols| {
          assert queues[x] in members;
        }
        forall x, y | 0 <= x < y < |cols| ensures cols[x] != cols[y] {
          assert queues[x] in members && queues[y] in members;
        }
      }
      if Aligned(cols) {
        forall p, q | p in members && q in members && p != q ensures procs[p].index != procs[q].index {
          assert p in queues && q in queues;
          var x :| 0 <= x < |queues| && queues[x] == p;
          var y :| 0 <= y < |queues| && queues[y] == q;
          ManagerErrors.ColsDistinct(cols, x, y);
        }
        forall p | p in members ensures p < |procs| && procs[p].index.Some? && procs[p].index.value < |members| {
          assert p in queues;
        }
      }
    }
  }

  // ------------------------------------------------------------ the earliest task

  lemma {:induction false} EarliestIn(c: Config, owner: Owners, n: nat) returns (i: nat)
    requires n <= |owner| && exists j :: 0 <= j < n && owner[j].Some?
    ensures i < n && owner[i].Some?
    ensures forall j :: 0 <= j < n && owner[j].Some? ==> Rank(c, owner[i].value) <= Rank(c, owner[j].value)
  {
    if exists j :: 0 <= j < n - 1 && owner[j].Some? {
      i := EarliestIn(c, owner, n - 1);
      if owner[n - 1].Some? && Rank(c, owner[n - 1].value) < Rank(c, owner[i].value) {
        i := n - 1;
      }
    } else {
      i := n - 1;
    }
  }

  /** The earliest task any pool is at is owned by every pool that walks through it. */
  lemma EarliestActive(c: Config, s: State, h: History, i: PoolId)
    requires Inv(c, s, h, {}) && i < |s.m.owner| && s.m.owner[i].Some?
    requires forall j :: 0 <= j < |s.m.owner| && s.m.owner[j].Some? ==> Rank(c, s.m.owner[i].value) <= Rank(c, s.m.owner[j].value)
    ensures Active(c, s.m.owner, {}, s.m.owner[i].value)
  {
    hide PoolsOk, GraphOk, NoSourceOk, ProcOk, ActiveOk, QueuesOk;
    var t := s.m.owner[i].value;
    assert InPool(c, i, t) && !PassedBy(c, s.m.owner, {}, i, t);
    assert TaskOk(c, s.m.info, s.m.owner, h, {}, t);
    forall j | 0 <= j < |c.pools| && InPool(c, j, t) && !PassedBy(c, s.m.owner, {}, j, t)
      ensures Owns(s.m.owner, {}, j, t)
    {
      SameRankSameTask(c, j, t, s.m.owner[j].value);
    }
  }

  /** In every reachable state: no pool is ahead at the globally earliest owned task, so its barriers can fill. */
  lemma EarliestIsOwned(c: Config, s: State, i: PoolId)
    requires WellFormed(c) && Reachable(c, s) && i < |s.m.owner| && s.m.owner[i].Some?
    requires forall j :: 0 <= j < |s.m.owner| && s.m.owner[j].Some? ==> Rank(c, s.m.owner[i].value) <= Rank(c, s.m.owner[j].value)
    ensures Active(c, s.m.owner, {}, s.m.owner[i].value)
  {
    hide Inv, WellFormed, Reachable, Active;
    var h := ProtocolRuns.ReachableGood(c, s);
    EarliestActive(c, s, h, i);
  }

  lemma SameRankSameTask(c: Config, j: PoolId, t: TaskName, u: TaskName)
    requires OrdersOk(c) && j < |c.pools| && InPool(c, j, t) && InPool(c, j, u) && Rank(c, t) == Rank(c, u)
    ensures t == u
  {
    var order := c.pools[j].order;
    var a :| 0 <= a < |order| && order[a] == t;
    ManagerHandOver.RankIn(c, j, a, u);
  }

  // ------------------------------------------------------------ enabled steps

  /** Every message can be handled: the set of a finish row has some iteration order. */
  lemma SomePairsFit(m: Manager, msg: Msg) returns (pairs: seq<(PoolId, Option<TaskName>)>)
    ensures PairsFit(m, msg, pairs)
  {
    hide FillGatherData, Lists;
    pairs := [];
    if msg.body.FinishedMsg? {
      var taken := FillGatherData(m, msg.task, msg.index, Fin(msg.body.pool, msg.body.next), msg.body.afterError);
      if taken.FullRow? && AllFin(taken.row) {
        pairs := ListSet(PairsOf(taken.row));
      }
    }
  }

  /** Nothing in its queue, its outbox or its code lets this process, or the manager for it, take a step. */
  ghost predicate Blocked(pr: Process, ch: seq<Reply>) {
    pr.out == [] && !pr.phase.Running? && (Waiting(pr.phase) ==> ch == [])
  }

  lemma AtInOrder(c: Config, s: State, h: History, q: ProcId)
    requires Inv(c, s, h, {}) && q < |s.procs| && Waiting(s.procs[q].phase) && s.m.channels[q] != []
    ensures s.procs[q].at < |OrderOf(c, q)|
  {
    hide OrdersOk, GraphOk, NoSourceOk, TaskOk, SeatedOk, Active;
    var pr, ch := s.procs[q], s.m.channels[q];
    ManagerHandOver.Homes(c);
    assert ProcOk(c, s.m.info, s.m.owner, h, {}, q, pr, ch);
    if !Lagging(pr, ch) {
      var t, x := ProcessSteps.FindSeat(c, s, h, q);
    }
  }

  lemma UnblockedSteps(c: Config, s: State, h: History, q: ProcId) returns (a: Act)
    requires Inv(c, s, h, {}) && q < |s.procs| && s.m.status == Looping
    requires !Blocked(s.procs[q], s.m.channels[q])
    ensures Enabled(c, s, a) && !a.Fail?
  {
    hide OrdersOk, PoolsOk, GraphOk, NoSourceOk, TaskOk, ProcOk, SeatedOk, Active, PairsFit, ActiveOk, HistShape;
    var pr := s.procs[q];
    if pr.out != [] {
      var pairs := SomePairsFit(s.m, pr.out[0]);
      a := Manage(q, pairs);
    } else if pr.phase.Running? {
      var t, x := ProcessSteps.FindSeat(c, s, h, q);
      a := Contribute(q, 0);
    } else {
      AtInOrder(c, s, h, q);
      a := Recv(q);
    }
  }

  // ------------------------------------------------------------ blocked seats

  /** Before any error: a blocked process has contributed to a row that is still open. */
  lemma BlockedNormal(c: Config, seat: Seat, hi: Hist, pr: Process, ch: seq<Reply>)
    requires seat.x < |hi.normal| && NormalOk(c, seat, hi, pr.phase, ch, pr) && Blocked(pr, ch)
    requires MinLen(hi.normal) <= |Program(c, seat.t)|
    ensures |hi.normal[seat.x]| > MinLen(hi.normal)
  {
    hide MinLen, NoneOutstanding;
  }

  /** After an error: a blocked process waits in error_sync, or for the last "finished". */
  lemma BlockedError(c: Config, seat: Seat, hi: Hist, pr: Process, ch: seq<Reply>)
    requires seat.x < |hi.normal| == |hi.cols| == |hi.after| && ErrorOk(c, seat, hi, pr.phase, ch, pr) && Blocked(pr, ch)
    ensures if MinLen(hi.after) == 0 then OneError(hi, seat.x) else ErrorThenFinish(hi, seat.x, Fin(seat.pool, seat.next))
  {
    hide MinLen, NoneOutstanding, BaseOf, NothingYet, OneError, ErrorThenFinish;
  }

  lemma BlockedSeat(c: Config, t: TaskName, ti: TaskInfo, hi: Hist, y: nat, q: ProcId, pr: Process, ch: seq<Reply>)
    requires q < |c.home| && HistShape(hi, |ti.queues|) && DequeOk(c, t, ti, hi) && y < |ti.queues|
    requires SeatFine(c, t, ti, hi, y, q, pr, ch) && Blocked(pr, ch) && Aligned(hi.cols)
    ensures if ti.state == Error || hi.failed
            then ColOf(hi.cols, y) < |hi.after| && |hi.after[ColOf(hi.cols, y)]| == if MinLen(hi.after) == 0 then 1 else 2
            else |hi.normal[y]| > MinLen(hi.normal)
  {
    hide MinLen, Staircase, ErrorOk, NormalOk, Aligned;
    assert !Lagging(pr, ch);
    var seat := SeatOf(c, t, y, q, pr, ch);
    if ti.state == Error || hi.failed {
      BlockedError(c, seat, hi, pr, ch);
    } else {
      BlockedNormal(c, seat, hi, pr, ch);
    }
  }

  /** The process that has contributed least. */
  lemma LeastContributor(c: Config, t: TaskName, ti: TaskInfo, hi: Hist) returns (y: nat)
    requires HistShape(hi, |ti.queues|) && DequeOk(c, t, ti, hi) && Aligned(hi.cols)
    ensures y < |ti.queues| == |hi.normal| == |hi.cols| == |hi.after|
    ensures if ti.state == Error || hi.failed
            then && MinLen(hi.after) <= 1 && ColOf(hi.cols, y) < |hi.after|
                 && |hi.after[ColOf(hi.cols, y)]| == MinLen(hi.after)
            else |hi.normal[y]| == MinLen(hi.normal)
  {
    hide Staircase, Aligned, MinLen;
    if ti.state == Error || hi.failed {
      var col := MinLenWitness(hi.after);
      y := AlignedCovers(hi.cols, col);
      if ti.state != Error {
        ManagerErrors.EmptyAfter(hi.after);
      }
    } else {
      y := MinLenWitness(hi.normal);
    }
  }

  /** In an active task whose indices are aligned, the process that has contributed least is not blocked. */
  lemma SomeUnblocked(c: Config, s: State, h: History, t: TaskName) returns (q: ProcId)
    requires Inv(c, s, h, {}) && Active(c, s.m.owner, {}, t) && Aligned(HistOf(h, t).cols)
    ensures q < |s.procs| && !Blocked(s.procs[q], s.m.channels[q])
  {
    hide OrdersOk, PoolsOk, GraphOk, NoSourceOk, TaskOk, ProcOk, SeatFine, DequeOk, HistShape, Active, Aligned, MinLen, Blocked,
         QueuesOk;
    SeatsOf(c, s, h, t);
    var ti, hi := InfoOf(s.m.info, t), HistOf(h, t);
    var y := LeastContributor(c, t, ti, hi);
    q := ti.queues[y];
    if Blocked(s.procs[q], s.m.channels[q]) {
      BlockedSeat(c, t, ti, hi, y, q, s.procs[q], s.m.channels[q]);
    }
  }

  // ------------------------------------------------------------ deadlock freedom

  /** Deadlock freedom: while some pool owns a task, some step other than an exception is enabled, unless the protocol
      is at a misaligned task. */
  lemma NoDeadlock(c: Config, s: State) returns (a: Act)
    requires WellFormed(c) && Reachable(c, s) && s.m.status == Looping
    requires exists i :: 0 <= i < |s.m.owner| && s.m.owner[i].Some?
    requires forall t: TaskName :: !Misaligned(c, s, t)
    ensures Enabled(c, s, a) && !a.Fail?
  {
    hide Reachable, WellFormed, Inv, Misaligned, Enabled, Active, Aligned, Blocked;
    var h := ProtocolRuns.ReachableGood(c, s);
    var i := EarliestIn(c, s.m.owner, |s.m.owner|);
    EarliestActive(c, s, h, i);
    var t := s.m.owner[i].value;
    NumberedIffAligned(c, s, h, t);
    var q := SomeUnblocked(c, s, h, t);
    a := UnblockedSteps(c, s, h, q);
  }
}
