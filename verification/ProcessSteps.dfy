/** Every step of a worker process keeps the protocol invariant. */
module ProcessSteps {
  import opened Basics
  import opened Collectives
  import opened TaskModel
  import opened TaskProtocol
  import opened ProtocolInvariant

  // ------------------------------------------------------------ one seat

  lemma ReceiveNormal(c: Config, seat: Seat, hi: Hist, order: seq<TaskName>, pr: Process, ch: seq<Reply>)
    requires seat.x < |hi.normal| && !hi.failed
    requires pr.at < |order| && order[pr.at] == seat.t
    requires NormalOk(c, seat, hi, pr.phase, ch, pr) && ch != [] && Waiting(pr.phase)
    ensures var pr' := Receive(seat.pool, order, pr, ch[0]);
            && NormalOk(c, seat, hi, pr'.phase, ch[1..], pr')
            && pr'.at == pr.at && pr'.phase.Running? && pr'.out == pr.out
  {
    var acc := hi.normal[seat.x];
    if pr.phase.WaitGo? {
      assert StreamOk(c, seat, Some(seat.x), [], [], acc);
    } else {
      assert pr.phase.WaitReply?;
      assert ch == HeldReply(c, seat.t, pr.phase.done, hi.normal);
    }
  }

  lemma ReceiveErrorWhileWaiting(c: Config, seat: Seat, hi: Hist, order: seq<TaskName>, pr: Process, ch: seq<Reply>)
    requires seat.x < |hi.normal| == |hi.cols| == |hi.after|
    requires pr.at < |order| && order[pr.at] == seat.t
    requires ErrorOk(c, seat, hi, pr.phase, ch, pr) && ch != []
    requires pr.phase.WaitReply? || pr.phase.WaitFinish? || (pr.phase.WaitGo? && hi.failed)
    ensures var pr' := Receive(seat.pool, order, pr, ch[0]);
            && ErrorOk(c, seat, hi, pr'.phase, ch[1..], pr')
            && pr'.at == pr.at && !pr'.phase.WaitFinish? && !pr'.phase.WaitFinishAfterError?
  {
    hide ErrorOk, Receive;
    if pr.phase.WaitReply? && BaseOf(c, seat.t, pr.phase, hi.normal) != [] {
      ReceiveHeld(c, seat, hi, order, pr, ch);
    } else {
      ReceiveError(c, seat, hi, order, pr, ch);
    }
  }

  /** It reads the first "error". */
  lemma ReceiveError(c: Config, seat: Seat, hi: Hist, order: seq<TaskName>, pr: Process, ch: seq<Reply>)
    requires seat.x < |hi.normal| == |hi.cols| == |hi.after|
    requires pr.at < |order| && order[pr.at] == seat.t
    requires ErrorOk(c, seat, hi, pr.phase, ch, pr) && ch != []
    requires pr.phase.WaitReply? || pr.phase.WaitFinish? || (pr.phase.WaitGo? && hi.failed)
    requires !pr.phase.WaitGo? ==> BaseOf(c, seat.t, pr.phase, hi.normal) == []
    ensures var pr' := Receive(seat.pool, order, pr, ch[0]);
            ErrorOk(c, seat, hi, pr'.phase, ch[1..], pr') && pr'.at == pr.at && pr'.phase.WaitErrorGather?
  {
    hide ErrorsAfter, AllErrors, MinLen, RowAt, BaseOf, InRun;
    ErrorNext(ch);
    var pr' := Receive(seat.pool, order, pr, ch[0]);
    assert pr'.out[..|pr'.out| - 1] == pr.out;
  }

  /** It reads the reply that was due before the error. */
  lemma ReceiveHeld(c: Config, seat: Seat, hi: Hist, order: seq<TaskName>, pr: Process, ch: seq<Reply>)
    requires seat.x < |hi.normal| == |hi.cols| == |hi.after|
    requires pr.at < |order| && order[pr.at] == seat.t
    requires ErrorOk(c, seat, hi, pr.phase, ch, pr) && ch != []
    requires pr.phase.WaitReply? && BaseOf(c, seat.t, pr.phase, hi.normal) != []
    ensures var pr' := Receive(seat.pool, order, pr, ch[0]);
            ErrorOk(c, seat, hi, pr'.phase, ch[1..], pr') && pr'.at == pr.at && pr'.phase.Running?
  {
    hide ErrorsAfter, AllErrors, MinLen, RowAt, Stale;
    ErrorsNext(BaseOf(c, seat.t, pr.phase, hi.normal), ch);
  }

  lemma ErrorNext(ch: seq<Reply>)
    requires ErrorsAfter([], ch)
    ensures ch != [] && ch[0] == ErrorReply && AllErrors(ch[1..])
  {
    assert ch[0..] == ch;
  }

  lemma ErrorsNext(base: seq<Reply>, ch: seq<Reply>)
    requires ErrorsAfter(base, ch) && |base| == 1
    ensures ch[0] == base[0] && ErrorsAfter([], ch[1..])
  {
    assert ch[..1][0] == ch[0];
    assert ch[1..][0..] == ch[1..];
  }

  lemma ReceiveGoInError(c: Config, seat: Seat, hi: Hist, order: seq<TaskName>, pr: Process, ch: seq<Reply>)
    requires seat.x < |hi.normal| == |hi.cols| == |hi.after| && !hi.failed && hi.cols[seat.x] == Some(seat.x)
    requires pr.at < |order| && order[pr.at] == seat.t
    requires ErrorOk(c, seat, hi, pr.phase, ch, pr) && pr.phase.WaitGo?
    ensures ch != []
    ensures var pr' := Receive(seat.pool, order, pr, ch[0]);
            ErrorOk(c, seat, hi, pr'.phase, ch[1..], pr') && pr'.at == pr.at && pr'.phase.Running?
  {
    assert ErrorsAfter([Go(seat.x)], ch);
    assert ch[0] == ch[..1][0];
    var pr' := Receive(seat.pool, order, pr, ch[0]);
    assert BaseOf(c, seat.t, pr'.phase, hi.normal) == [];
    assert ch[1..][0..] == ch[1..];
    assert ErrorsAfter([], ch[1..]);
  }

  lemma ReceiveInErrorBarrier(c: Config, seat: Seat, hi: Hist, order: seq<TaskName>, pr: Process, ch: seq<Reply>)
    requires seat.x < |hi.normal| == |hi.cols| == |hi.after|
    requires pr.at < |order| && order[pr.at] == seat.t && seat.next == NextTask(order, pr.at)
    requires ErrorOk(c, seat, hi, pr.phase, ch, pr) && ch != []
    requires pr.phase.WaitErrorGather? || pr.phase.WaitFinishAfterError?
    ensures var pr' := Receive(seat.pool, order, pr, ch[0]);
            && ErrorOk(c, seat, hi, pr'.phase, ch[1..], pr')
            && pr'.at == pr.at && (pr'.phase == WaitErrorGather || ch[1..] == [])
  {
    if !ch[0].ErrorReply? {
      assert ch[0] == ch[..1][0];
    } else if pr.out == [] && MinLen(hi.after) != 0 {
      assert ch[1..][..|ch[1..]| - 1] == ch[..|ch| - 1][1..];
    }
  }

  /** A receive of a process that sits in an active task. */
  lemma ReceiveSeated(c: Config, seat: Seat, ti: TaskInfo, hi: Hist, order: seq<TaskName>, pr: Process, ch: seq<Reply>)
    requires HistShape(hi, |hi.cols|)
    requires pr.at < |order| && order[pr.at] == seat.t && seat.next == NextTask(order, pr.at)
    requires SeatedOk(c, seat, ti, hi, pr.phase, ch, pr) && ch != [] && Waiting(pr.phase)
    ensures var pr' := Receive(seat.pool, order, pr, ch[0]);
            SeatedOk(c, seat, ti, hi, pr'.phase, ch[1..], pr') && pr'.at == pr.at && !Lagging(pr', ch[1..])
  {
    hide ErrorOk, NormalOk, Receive;
    if ti.state == Error || hi.failed {
      if pr.phase.WaitErrorGather? || pr.phase.WaitFinishAfterError? {
        ReceiveInErrorBarrier(c, seat, hi, order, pr, ch);
      } else if pr.phase.WaitGo? && !hi.failed {
        ReceiveGoInError(c, seat, hi, order, pr, ch);
      } else {
        ReceiveErrorWhileWaiting(c, seat, hi, order, pr, ch);
      }
    } else {
      ReceiveNormal(c, seat, hi, order, pr, ch);
    }
  }

  lemma IssueInRun(c: Config, seat: Seat, rows: nat, order: seq<TaskName>, pr: Process, v: int)
    requires pr.at < |order| && order[pr.at] == seat.t && seat.next == NextTask(order, pr.at)
    requires pr.phase.Running? && InRun(c, seat, rows, pr.phase, pr.index, pr.sent)
    requires rows <= |pr.sent|
    ensures var pr' := Issue(c, seat.pool, order, pr, v);
            && InRun(c, seat, rows, pr'.phase, pr'.index, pr'.sent)
            && pr'.index == pr.index && pr'.at == pr.at
            && |pr'.sent| == |pr.sent| + 1 && pr'.sent[..|pr.sent|] == pr.sent
            && pr'.out == pr.out + [MsgFor(c, seat, pr.index, |pr.sent|, pr'.sent[|pr.sent|])]
            && (pr'.phase.Running? || pr'.phase.WaitFinish? || (pr'.phase.WaitReply? && pr'.phase.done == |pr'.sent|))
  {
  }

  lemma StreamOkIssue(c: Config, seat: Seat, pr: Process, pr': Process, acc: seq<Data>)
    requires StreamOk(c, seat, pr.index, pr.out, pr.sent, acc)
    requires pr'.index == pr.index && |pr'.sent| == |pr.sent| + 1 && pr'.sent[..|pr.sent|] == pr.sent
    requires pr'.out == pr.out + [MsgFor(c, seat, pr.index, |pr.sent|, pr'.sent[|pr.sent|])]
    ensures StreamOk(c, seat, pr'.index, pr'.out, pr'.sent, acc)
  {
    assert pr'.sent[..|acc|] == pr'.sent[..|pr.sent|][..|acc|];
    forall y | 0 <= y < |pr'.out|
      ensures pr'.out[y] == MsgFor(c, seat, pr'.index, |acc| + y, pr'.sent[|acc| + y])
    {
      if y < |pr.out| {
        assert pr'.sent[|acc| + y] == pr'.sent[..|pr.sent|][|acc| + y];
      }
    }
  }

  /** Contributing: the message joins the outbox, and the process waits exactly when a reply is due to it. */
  lemma IssueSeated(c: Config, seat: Seat, ti: TaskInfo, hi: Hist, order: seq<TaskName>, pr: Process,
                    ch: seq<Reply>, v: int)
    requires HistShape(hi, |hi.cols|)
    requires pr.at < |order| && order[pr.at] == seat.t && seat.next == NextTask(order, pr.at)
    requires SeatedOk(c, seat, ti, hi, pr.phase, ch, pr) && pr.phase.Running?
    ensures var pr' := Issue(c, seat.pool, order, pr, v);
            SeatedOk(c, seat, ti, hi, pr'.phase, ch, pr') && pr'.at == pr.at && !Lagging(pr', ch)
  {
    var pr' := Issue(c, seat.pool, order, pr, v);
    var acc := hi.normal[seat.x];
    assert MinLen(hi.normal) <= |acc|;
    IssueInRun(c, seat, MinLen(hi.normal), order, pr, v);
    assert BaseOf(c, seat.t, pr'.phase, hi.normal) == [];
    if ti.state == Error || hi.failed {
      IssueKeepsError(c, seat, hi, pr, pr', ch);
    } else {
      StreamOkIssue(c, seat, pr, pr', acc);
    }
  }

  lemma IssueKeepsError(c: Config, seat: Seat, hi: Hist, pr: Process, pr': Process, ch: seq<Reply>)
    requires seat.x < |hi.normal| == |hi.cols| == |hi.after|
    requires ErrorOk(c, seat, hi, pr.phase, ch, pr) && pr.phase.Running?
    requires InRun(c, seat, MinLen(hi.normal), pr'.phase, pr'.index, pr'.sent)
    requires pr'.index == pr.index && |pr'.sent| == |pr.sent| + 1 && pr'.sent[..|pr.sent|] == pr.sent
    requires pr'.out == pr.out + [MsgFor(c, seat, pr.index, |pr.sent|, pr'.sent[|pr.sent|])]
    requires BaseOf(c, seat.t, pr'.phase, hi.normal) == []
    requires pr'.phase.Running? || pr'.phase.WaitFinish? || pr'.phase.WaitReply?
    ensures ErrorOk(c, seat, hi, pr'.phase, ch, pr') && !Lagging(pr', ch)
  {
    assert hi.normal[seat.x] <= pr'.sent by {
      assert pr.sent <= pr'.sent;
    }
    assert ErrorsAfter([], ch);
    assert ch[0..] == ch;
    assert Stale(seat, pr'.out);
  }

  lemma FailSeated(c: Config, seat: Seat, ti: TaskInfo, hi: Hist, order: seq<TaskName>, pr: Process,
                   ch: seq<Reply>, e: int)
    requires HistShape(hi, |hi.cols|)
    requires pr.at < |order| && order[pr.at] == seat.t
    requires SeatedOk(c, seat, ti, hi, pr.phase, ch, pr) && pr.phase.Running?
    ensures var pr' := SendError(seat.t, pr, Some(e));
            SeatedOk(c, seat, ti, hi, pr'.phase, ch, pr') && pr'.at == pr.at && !Lagging(pr', ch)
  {
    var pr' := SendError(seat.t, pr, Some(e));
    assert pr'.out[..|pr'.out| - 1] == pr.out;
    if ti.state == Error || hi.failed {
      assert ErrorsAfter([], ch);
      assert ch[0..] == ch;
    }
  }

  // ------------------------------------------------------------ the whole state

  ghost function WithProc(s: State, p: ProcId, pr: Process, ch: seq<Reply>): State
    requires p < |s.procs| == |s.m.channels|
  {
    State(s.m.(channels := s.m.channels[p := ch]), s.procs[p := pr])
  }

  /** A change of one process and its own queue is judged by that process alone. */
  lemma LocalStep(c: Config, s: State, h: History, p: ProcId, pr: Process, ch: seq<Reply>)
    requires Inv(c, s, h, {}) && p < |s.procs|
    requires ProcOk(c, s.m.info, s.m.owner, h, {}, p, pr, ch)
    ensures Inv(c, WithProc(s, p, pr, ch), h, {})
  {
    hide ProcOk, TaskOk, OrdersOk, GraphOk, NoSourceOk;
    var s' := WithProc(s, p, pr, ch);
    forall q | 0 <= q < |s'.procs|
      ensures ProcOk(c, s'.m.info, s'.m.owner, h, {}, q, s'.procs[q], s'.m.channels[q])
    {
      assert ProcOk(c, s.m.info, s.m.owner, h, {}, q, s.procs[q], s.m.channels[q]);
    }
    forall t | InSomePool(c, t) ensures TaskOk(c, s'.m.info, s'.m.owner, h, {}, t) {
      assert TaskOk(c, s.m.info, s.m.owner, h, {}, t);
    }
  }

  /** A process that is not idle sits in the active task its pool owns. */
  lemma FindSeat(c: Config, s: State, h: History, p: ProcId) returns (t: TaskName, x: nat)
    requires Inv(c, s, h, {}) && p < |s.procs|
    requires !Lagging(s.procs[p], s.m.channels[p])
    requires s.m.channels[p] != [] || s.procs[p].out != [] || !(s.procs[p].phase.WaitGo? || s.procs[p].phase.Exited?)
    ensures var i := c.home[p]; i < |c.pools| && InPool(c, i, t) && s.m.owner[i] == Some(t)
    ensures Active(c, s.m.owner, {}, t) && ActiveOk(c, s.m.info, h, t)
    ensures HistShape(HistOf(h, t), |HistOf(h, t).cols|)
    ensures x < |InfoOf(s.m.info, t).queues| && InfoOf(s.m.info, t).queues[x] == p
    ensures var order, pr := OrderOf(c, p), s.procs[p];
            && pr.at < |order| && order[pr.at] == t
            && SeatedOk(c, Seat(t, c.home[p], NextTask(order, pr.at), x), InfoOf(s.m.info, t), HistOf(h, t),
                        pr.phase, s.m.channels[p], pr)
  {
    var i, pr, ch := c.home[p], s.procs[p], s.m.channels[p];
    assert ProcOk(c, s.m.info, s.m.owner, h, {}, p, pr, ch);
    assert s.m.owner[i].Some? && Active(c, s.m.owner, {}, s.m.owner[i].value);
    t := s.m.owner[i].value;
    ActiveNotPassed(c, s.m.owner, {}, t);
    assert TaskOk(c, s.m.info, s.m.owner, h, {}, t);
    assert QueuesOk(c, s.m.owner, {}, t, InfoOf(s.m.info, t).queues);
    assert p in InfoOf(s.m.info, t).queues;
    x :| 0 <= x < |InfoOf(s.m.info, t).queues| && InfoOf(s.m.info, t).queues[x] == p;
  }

  lemma ActiveNotPassed(c: Config, owner: Owners, released: set<PoolId>, t: TaskName)
    requires Active(c, owner, released, t)
    ensures !Passed(c, owner, released, t)
  {
    var i :| 0 <= i < |c.pools| && InPool(c, i, t);
    assert Owns(owner, released, i, t);
  }

  /** A process whose position is the seat's and whose queue and outbox fit the seat is fine. */
  lemma ReSeat(c: Config, s: State, h: History, p: ProcId, t: TaskName, x: nat, pr: Process, ch: seq<Reply>)
    requires Inv(c, s, h, {}) && p < |s.procs|
    requires c.home[p] < |c.pools| && s.m.owner[c.home[p]] == Some(t) && Active(c, s.m.owner, {}, t)
    requires QueuesOk(c, s.m.owner, {}, t, InfoOf(s.m.info, t).queues)
    requires x < |InfoOf(s.m.info, t).queues| && InfoOf(s.m.info, t).queues[x] == p
    requires var order := OrderOf(c, p);
             && pr.at < |order| && order[pr.at] == t && !Lagging(pr, ch)
             && SeatedOk(c, Seat(t, c.home[p], NextTask(order, pr.at), x), InfoOf(s.m.info, t), HistOf(h, t),
                         pr.phase, ch, pr)
    ensures ProcOk(c, s.m.info, s.m.owner, h, {}, p, pr, ch)
  {
    hide SeatedOk, OrdersOk, GraphOk, TaskOk, NoSourceOk, Active;
  }

  lemma RecvKeeps(c: Config, s: State, h: History, p: ProcId)
    requires Inv(c, s, h, {}) && Enabled(c, s, Recv(p))
    ensures Inv(c, Do(c, s, Recv(p)), h, {})
  {
    hide SeatedOk, ProcOk, WellFormed, TaskOk, NoSourceOk, QueuesOk, ActiveOk, HistShape, Active, OwnersOk;
    var pr, ch, order := s.procs[p], s.m.channels[p], OrderOf(c, p);
    var pr' := Receive(c.home[p], order, pr, ch[0]);
    if Lagging(pr, ch) {
      SameView(c, s, h, p, pr, ch, pr', ch[1..]);
    } else {
      var t, x := FindSeat(c, s, h, p);
      ReceiveSeated(c, Seat(t, c.home[p], NextTask(order, pr.at), x), InfoOf(s.m.info, t), HistOf(h, t), order, pr, ch);
      TaskQueues(c, s, h, t);
      ReSeat(c, s, h, p, t, x, pr', ch[1..]);
    }
    LocalStep(c, s, h, p, pr', ch[1..]);
    assert Do(c, s, Recv(p)) == WithProc(s, p, pr', ch[1..]);
  }

  lemma TaskQueues(c: Config, s: State, h: History, t: TaskName)
    requires Inv(c, s, h, {}) && Active(c, s.m.owner, {}, t)
    ensures QueuesOk(c, s.m.owner, {}, t, InfoOf(s.m.info, t).queues) && ActiveOk(c, s.m.info, h, t)
  {
    ActiveNotPassed(c, s.m.owner, {}, t);
    assert TaskOk(c, s.m.info, s.m.owner, h, {}, t);
  }

  lemma SeatedIgnoresAt(c: Config, seat: Seat, ti: TaskInfo, hi: Hist, ph: Phase, ch: seq<Reply>, pr: Process, pr': Process)
    requires SeatedOk(c, seat, ti, hi, ph, ch, pr)
    requires pr'.out == pr.out && pr'.index == pr.index && pr'.sent == pr.sent
    ensures SeatedOk(c, seat, ti, hi, ph, ch, pr')
  {
  }

  /** Reading a "finished" only moves what the invariant had already counted. */
  lemma SameView(c: Config, s: State, h: History, p: ProcId, pr: Process, ch: seq<Reply>, pr': Process, ch': seq<Reply>)
    requires Inv(c, s, h, {}) && p < |s.procs|
    requires ProcOk(c, s.m.info, s.m.owner, h, {}, p, pr, ch)
    requires Lagging(pr, ch) && pr' == Advance(OrderOf(c, p), pr) && ch' == ch[1..]
    ensures ProcOk(c, s.m.info, s.m.owner, h, {}, p, pr', ch')
  {
    hide SeatedOk, OrdersOk, GraphOk, TaskOk, NoSourceOk;
    var i, order := c.home[p], OrderOf(c, p);
    var k := AtOf(pr, ch);
    assert AtOf(pr', ch') == k && RestOf(pr', ch') == RestOf(pr, ch) && PhaseOf(order, pr', ch') == PhaseOf(order, pr, ch);
    if s.m.owner[i].Some? && Active(c, s.m.owner, {}, s.m.owner[i].value) {
      var t := s.m.owner[i].value;
      forall x | 0 <= x < |InfoOf(s.m.info, t).queues| && InfoOf(s.m.info, t).queues[x] == p
        ensures SeatedOk(c, Seat(t, i, NextTask(order, k), x), InfoOf(s.m.info, t), HistOf(h, t),
                         PhaseOf(order, pr', ch'), RestOf(pr', ch'), pr')
      {
        SeatedIgnoresAt(c, Seat(t, i, NextTask(order, k), x), InfoOf(s.m.info, t), HistOf(h, t),
                        PhaseOf(order, pr, ch), RestOf(pr, ch), pr, pr');
      }
    }
  }

  lemma ContributeKeeps(c: Config, s: State, h: History, p: ProcId, v: int)
    requires Inv(c, s, h, {}) && Enabled(c, s, Contribute(p, v))
    ensures Inv(c, Do(c, s, Contribute(p, v)), h, {})
  {
    hide SeatedOk, ProcOk, WellFormed, TaskOk, NoSourceOk, QueuesOk, ActiveOk, HistShape, Active, OwnersOk;
    var pr, ch, order := s.procs[p], s.m.channels[p], OrderOf(c, p);
    var t, x := FindSeat(c, s, h, p);
    var pr' := Issue(c, c.home[p], order, pr, v);
    IssueSeated(c, Seat(t, c.home[p], NextTask(order, pr.at), x), InfoOf(s.m.info, t), HistOf(h, t), order, pr, ch, v);
    TaskQueues(c, s, h, t);
    ReSeat(c, s, h, p, t, x, pr', ch);
    LocalStep(c, s, h, p, pr', ch);
    assert Do(c, s, Contribute(p, v)) == WithProc(s, p, pr', ch);
  }

  lemma FailKeeps(c: Config, s: State, h: History, p: ProcId, e: int)
    requires Inv(c, s, h, {}) && Enabled(c, s, Fail(p, e))
    ensures Inv(c, Do(c, s, Fail(p, e)), h, {})
  {
    hide SeatedOk, ProcOk, WellFormed, TaskOk, NoSourceOk, QueuesOk, ActiveOk, HistShape, Active, OwnersOk;
    var pr, ch, order := s.procs[p], s.m.channels[p], OrderOf(c, p);
    var t, x := FindSeat(c, s, h, p);
    var pr' := SendError(t, pr, Some(e));
    FailSeated(c, Seat(t, c.home[p], NextTask(order, pr.at), x), InfoOf(s.m.info, t), HistOf(h, t), order, pr, ch, e);
    TaskQueues(c, s, h, t);
    ReSeat(c, s, h, p, t, x, pr', ch);
    LocalStep(c, s, h, p, pr', ch);
    assert Do(c, s, Fail(p, e)) == WithProc(s, p, pr', ch);
  }
}
