/**
 The task protocol with the manager's one inbound FIFO queue made explicit: a
 process puts its messages into its own buffer, from which they reach the
 manager's queue one by one, in any interleaving with those of other processes
 (multiprocessing.Queue); the manager always takes the head.  It refines
 TaskProtocol, so everything proved there holds here.
 */
module ProtocolQueue {
  import opened Basics
  import opened TaskModel
  import opened TaskProtocol
  import opened ProtocolInvariant
  import opened ProtocolRuns
  import opened ProtocolTheorems
  import ProtocolProgress
  import opened ProtocolOutcome
  import ProtocolTermination

  /** In `s` the outbox of a process holds what has not been delivered to the manager's queue yet. */
  datatype Queued = Queued(s: State, inbox: seq<(ProcId, Msg)>)

  datatype QueueAct =
    | Deliver(p: ProcId)
    | Take(pairs: seq<(PoolId, Option<TaskName>)>)
    | Own(a: Act)

  ghost predicate QueueEnabled(c: Config, q: Queued, a: QueueAct) {
    match a
    case Deliver(p) => p < |q.s.procs| && q.s.procs[p].out != []
    case Take(pairs) => q.s.m.status == Looping && q.inbox != [] && PairsFit(q.s.m, q.inbox[0].1, pairs)
    case Own(a) => !a.Manage? && Enabled(c, q.s, a)
  }

  ghost function QueueDo(c: Config, q: Queued, a: QueueAct): Queued
    requires QueueEnabled(c, q, a)
  {
    match a
    case Deliver(p) =>
      var pr := q.s.procs[p];
      Queued(Update(q.s, p, pr.(out := pr.out[1..])), q.inbox + [(p, pr.out[0])])
    case Take(pairs) => Queued(q.s.(m := Handle(LayoutOf(c), q.s.m, q.inbox[0].1, pairs)), q.inbox[1..])
    case Own(a) => q.(s := Do(c, q.s, a))
  }

  ghost predicate QueueRuns(c: Config, q: Queued, acts: seq<QueueAct>, q': Queued)
    decreases acts
  {
    if acts == [] then q' == q
    else QueueEnabled(c, q, acts[0]) && QueueRuns(c, QueueDo(c, q, acts[0]), acts[1..], q')
  }

  ghost predicate QueueReachable(c: Config, q: Queued) {
    exists s0, acts :: Initial(c, s0) && QueueRuns(c, Queued(s0, []), acts, q)
  }

  // ------------------------------------------------------------ the abstraction

  /** What process p has in the manager's queue. */
  function SentBy(inbox: seq<(ProcId, Msg)>, p: ProcId): seq<Msg> {
    if inbox == [] then []
    else (if inbox[0].0 == p then [inbox[0].1] else []) + SentBy(inbox[1..], p)
  }

  function WithQueued(pr: Process, queued: seq<Msg>): Process {
    pr.(out := queued + pr.out)
  }

  function Abstract(q: Queued): (s: State)
    ensures s.m == q.s.m && |s.procs| == |q.s.procs|
    ensures forall p :: 0 <= p < |s.procs| ==> s.procs[p] == WithQueued(q.s.procs[p], SentBy(q.inbox, p))
  {
    State(q.s.m, seq(|q.s.procs|, p requires 0 <= p < |q.s.procs| => WithQueued(q.s.procs[p], SentBy(q.inbox, p))))
  }

  ghost predicate QueueShape(c: Config, q: Queued) {
    && |q.s.procs| == |q.s.m.channels| == |c.home|
    && forall k :: 0 <= k < |q.inbox| ==> q.inbox[k].0 < |c.home|
  }

  lemma SameStates(s: State, s': State)
    requires s.m == s'.m && |s.procs| == |s'.procs| && forall p :: 0 <= p < |s.procs| ==> s.procs[p] == s'.procs[p]
    ensures s == s'
  {
    assert s.procs == s'.procs;
  }

  lemma {:induction false} SentByAppend(inbox: seq<(ProcId, Msg)>, p: ProcId, msg: Msg, q: ProcId)
    ensures SentBy(inbox + [(p, msg)], q) == SentBy(inbox, q) + if p == q then [msg] else []
  {
    var longer := inbox + [(p, msg)];
    if inbox == [] {
      assert longer[1..] == [] && longer[0] == (p, msg);
    } else {
      SentByAppend(inbox[1..], p, msg, q);
      var rest := SentBy(inbox[1..], q);
      assert longer[0] == inbox[0] && longer[1..] == inbox[1..] + [(p, msg)];
      assert SentBy(longer, q) == (if inbox[0].0 == q then [inbox[0].1] else []) + SentBy(longer[1..], q);
      assert SentBy(inbox, q) == (if inbox[0].0 == q then [inbox[0].1] else []) + rest;
    }
  }

  lemma DeliverStutters(c: Config, q: Queued, p: ProcId)
    requires QueueEnabled(c, q, Deliver(p))
    ensures Abstract(QueueDo(c, q, Deliver(p))) == Abstract(q)
  {
    hide SentBy;
    var q', out := QueueDo(c, q, Deliver(p)), q.s.procs[p].out;
    forall r | 0 <= r < |q.s.procs| ensures Abstract(q').procs[r] == Abstract(q).procs[r] {
      SentByAppend(q.inbox, p, out[0], r);
      if r == p {
        assert SentBy(q.inbox, p) + [out[0]] + out[1..] == SentBy(q.inbox, p) + out;
      } else {
        assert SentBy(q.inbox, r) + [] == SentBy(q.inbox, r);
      }
    }
    SameStates(Abstract(q'), Abstract(q));
  }

  lemma TakeManages(c: Config, q: Queued, pairs: seq<(PoolId, Option<TaskName>)>)
    requires QueueShape(c, q) && QueueEnabled(c, q, Take(pairs))
    ensures var p := q.inbox[0].0;
            && Enabled(c, Abstract(q), Manage(p, pairs))
            && Do(c, Abstract(q), Manage(p, pairs)) == Abstract(QueueDo(c, q, Take(pairs)))
  {
    hide PairsFit, Handle;
    var p, msg := q.inbox[0].0, q.inbox[0].1;
    var q', s := QueueDo(c, q, Take(pairs)), Abstract(q);
    assert s.procs[p].out[0] == msg;
    assert s.procs[p].out[1..] == SentBy(q.inbox[1..], p) + q.s.procs[p].out;
    var s' := Do(c, s, Manage(p, pairs));
    forall r | 0 <= r < |q.s.procs| ensures s'.procs[r] == Abstract(q').procs[r] {
      assert r != p ==> [] + SentBy(q.inbox[1..], r) == SentBy(q.inbox[1..], r);
    }
    SameStates(s', Abstract(q'));
  }

  lemma ReceiveUnderQueue(i: PoolId, order: seq<TaskName>, pr: Process, r: Reply, queued: seq<Msg>)
    requires pr.at < |order|
    ensures Receive(i, order, WithQueued(pr, queued), r) == WithQueued(Receive(i, order, pr, r), queued)
  {
    assert forall msg :: (queued + pr.out) + [msg] == queued + (pr.out + [msg]);
  }

  lemma IssueUnderQueue(c: Config, i: PoolId, order: seq<TaskName>, pr: Process, v: int, e: int, queued: seq<Msg>)
    requires pr.at < |order| && pr.phase.Running?
    ensures Issue(c, i, order, WithQueued(pr, queued), v) == WithQueued(Issue(c, i, order, pr, v), queued)
    ensures SendError(order[pr.at], WithQueued(pr, queued), Some(e)) == WithQueued(SendError(order[pr.at], pr, Some(e)), queued)
  {
    assert forall msg :: (queued + pr.out) + [msg] == queued + (pr.out + [msg]);
  }

  lemma OwnSteps(c: Config, q: Queued, a: Act)
    requires QueueShape(c, q) && QueueEnabled(c, q, Own(a))
    ensures Enabled(c, Abstract(q), a) && Do(c, Abstract(q), a) == Abstract(QueueDo(c, q, Own(a)))
  {
    hide Receive, Issue, SendError, SentBy;
    var order, pr, queued := OrderOf(c, a.p), q.s.procs[a.p], SentBy(q.inbox, a.p);
    match a {
      case Recv(p) => ReceiveUnderQueue(c.home[p], order, pr, q.s.m.channels[p][0], queued);
      case Contribute(p, v) => IssueUnderQueue(c, c.home[p], order, pr, v, 0, queued);
      case Fail(p, e) => IssueUnderQueue(c, c.home[p], order, pr, 0, e, queued);
    }
    SameStates(Do(c, Abstract(q), a), Abstract(QueueDo(c, q, Own(a))));
  }

  lemma ShapeStays(c: Config, q: Queued, h: History, a: QueueAct)
    requires QueueShape(c, q) && QueueEnabled(c, q, a) && Inv(c, Abstract(q), h, {})
    ensures QueueShape(c, QueueDo(c, q, a))
  {
    hide Inv, Handle, PairsFit, Receive, Issue, SendError;
    if a.Take? {
      TakeManages(c, q, a.pairs);
      var h' := StepKeeps(c, Abstract(q), h, Manage(q.inbox[0].0, a.pairs));
      InvShape(c, Do(c, Abstract(q), Manage(q.inbox[0].0, a.pairs)), h');
    }
  }

  lemma InvShape(c: Config, s: State, h: History)
    requires Inv(c, s, h, {})
    ensures |s.procs| == |s.m.channels| == |c.home|
  {
    hide WellFormed, OwnersOk, NoSourceOk, TaskOk, ProcOk;
  }

  /** One step of the queue is one step of the protocol, or none. */
  ghost function StepsOf(q: Queued, a: QueueAct): seq<Act>
    requires a.Take? ==> q.inbox != []
  {
    match a
    case Deliver(p) => []
    case Take(pairs) => [Manage(q.inbox[0].0, pairs)]
    case Own(a) => [a]
  }

  lemma StepRefines(c: Config, q: Queued, a: QueueAct)
    requires QueueShape(c, q) && QueueEnabled(c, q, a)
    ensures Runs(c, Abstract(q), StepsOf(q, a), Abstract(QueueDo(c, q, a)))
  {
    hide Enabled, Do;
    match a {
      case Deliver(p) => DeliverStutters(c, q, p);
      case Take(pairs) =>
        TakeManages(c, q, pairs);
        assert StepsOf(q, a)[1..] == [];
      case Own(b) =>
        OwnSteps(c, q, b);
        assert StepsOf(q, a)[1..] == [];
    }
  }

  lemma {:induction false} RunRefines(c: Config, q: Queued, h: History, acts: seq<QueueAct>, q': Queued) returns (steps: seq<Act>)
    requires QueueShape(c, q) && Inv(c, Abstract(q), h, {}) && QueueRuns(c, q, acts, q')
    ensures QueueShape(c, q') && Runs(c, Abstract(q), steps, Abstract(q'))
    decreases acts
  {
    hide QueueEnabled, QueueDo, Inv, Enabled, Do, QueueShape, Abstract;
    steps := [];
    if acts != [] {
      var q1 := QueueDo(c, q, acts[0]);
      StepRefines(c, q, acts[0]);
      ShapeStays(c, q, h, acts[0]);
      CanTake(c, q, acts[0]);
      var h1 := RunKeeps(c, Abstract(q), h, StepsOf(q, acts[0]), Abstract(q1));
      var rest := RunRefines(c, q1, h1, acts[1..], q');
      steps := StepsOf(q, acts[0]) + rest;
      RunsJoin(c, Abstract(q), StepsOf(q, acts[0]), Abstract(q1), rest, Abstract(q'));
    }
  }

  lemma CanTake(c: Config, q: Queued, a: QueueAct)
    requires QueueEnabled(c, q, a)
    ensures a.Take? ==> q.inbox != []
  {
  }

  /** The protocol with its queue refines the protocol: seen through the abstraction, every state it reaches is reachable. */
  lemma QueueRefines(c: Config, q: Queued)
    requires WellFormed(c) && QueueReachable(c, q)
    ensures QueueShape(c, q) && Reachable(c, Abstract(q))
  {
    hide QueueRuns, Inv, WellFormed, Runs, Initial;
    var s0, acts :| Initial(c, s0) && QueueRuns(c, Queued(s0, []), acts, q);
    InitialGood(c, s0);
    EmptyQueue(s0);
    InvShape(c, s0, StartHistory(c, s0.m));
    var steps := RunRefines(c, Queued(s0, []), StartHistory(c, s0.m), acts, q);
  }

  lemma EmptyQueue(s: State)
    ensures Abstract(Queued(s, [])) == s
  {
    forall p | 0 <= p < |s.procs| ensures Abstract(Queued(s, [])).procs[p] == s.procs[p] {
      assert [] + s.procs[p].out == s.procs[p].out;
    }
    SameStates(Abstract(Queued(s, [])), s);
  }

  // ------------------------------------------------------------ what carries over

  /** Barrier safety, whatever is still in the queue. */
  lemma QueueBarrierSafety(c: Config, q: Queued, p: ProcId, t: TaskName)
    requires WellFormed(c) && QueueReachable(c, q) && InsideRun(c, q.s, p, t)
    ensures forall u :: u in PrevTasks(c, t) ==> Cleared(c, q.s, u)
  {
    hide QueueReachable, Reachable, WellFormed, SentBy;
    QueueRefines(c, q);
    BarrierSafety(c, Abstract(q), p, t);
    forall u | u in PrevTasks(c, t) ensures Cleared(c, q.s, u) {
      assert Cleared(c, Abstract(q), u);
      forall r | 0 <= r < |q.s.procs| && InSomePool(c, u) && u in OrderOf(c, r) ensures HasFinished(c, q.s, r, u) {
        assert HasFinished(c, Abstract(q), r, u);
      }
    }
  }

  /** If the protocol can go on, so can the protocol with its queue. */
  lemma CanMove(c: Config, q: Queued, b: Act) returns (a: QueueAct)
    requires Enabled(c, Abstract(q), b)
    ensures QueueEnabled(c, q, a)
  {
    hide PairsFit, SentBy;
    if b.Manage? {
      if q.inbox == [] {
        NothingQueued(q.inbox, b.p, q.s.procs[b.p].out);
        a := Deliver(b.p);
      } else {
        var pairs := ProtocolProgress.SomePairsFit(q.s.m, q.inbox[0].1);
        a := Take(pairs);
      }
    } else {
      a := Own(b);
    }
  }

  lemma NothingQueued(inbox: seq<(ProcId, Msg)>, p: ProcId, out: seq<Msg>)
    requires inbox == []
    ensures SentBy(inbox, p) + out == out
  {
  }

  /** Deadlock freedom: a message is on its way to the manager, or in its queue, or some process can go on. */
  lemma QueueNoDeadlock(c: Config, q: Queued) returns (a: QueueAct)
    requires WellFormed(c) && QueueReachable(c, q) && q.s.m.status == Looping
    requires exists i :: 0 <= i < |q.s.m.owner| && q.s.m.owner[i].Some?
    requires forall t: TaskName :: !ProtocolProgress.Misaligned(c, Abstract(q), t)
    ensures QueueEnabled(c, q, a)
  {
    hide QueueReachable, Reachable, WellFormed, PairsFit, ProtocolProgress.Misaligned;
    QueueRefines(c, q);
    var b := ProtocolProgress.NoDeadlock(c, Abstract(q));
    a := CanMove(c, q, b);
  }

  function Outboxes(s: State): (outs: seq<seq<Msg>>)
    ensures |outs| == |s.procs| && forall p :: 0 <= p < |s.procs| ==> outs[p] == s.procs[p].out
  {
    seq(|s.procs|, p requires 0 <= p < |s.procs| => s.procs[p].out)
  }

  ghost function QueueMeasure(c: Config, q: Queued): nat {
    2 * ProtocolTermination.Measure(c, Abstract(q)) + Total(Outboxes(q.s))
  }

  lemma OwnOutboxes(c: Config, s: State, a: Act)
    requires Enabled(c, s, a) && !a.Manage?
    ensures Total(Outboxes(Do(c, s, a))) <= Total(Outboxes(s)) + 1
  {
    hide Total, PairsFit, Handle;
    var s' := Do(c, s, a);
    assert Outboxes(s') == Outboxes(s)[a.p := s'.procs[a.p].out];
    TotalUpdate(Outboxes(s), a.p, s'.procs[a.p].out);
  }

  lemma DeliverOutboxes(c: Config, q: Queued, p: ProcId)
    requires QueueEnabled(c, q, Deliver(p))
    ensures Total(Outboxes(QueueDo(c, q, Deliver(p)).s)) < Total(Outboxes(q.s))
  {
    hide Total;
    var s, s' := q.s, QueueDo(c, q, Deliver(p)).s;
    assert Outboxes(s') == Outboxes(s)[p := s'.procs[p].out];
    TotalUpdate(Outboxes(s), p, s'.procs[p].out);
  }

  lemma QueueStepSpends(c: Config, q: Queued, h: History, a: QueueAct)
    requires QueueShape(c, q) && Inv(c, Abstract(q), h, {}) && QueueEnabled(c, q, a)
    ensures QueueMeasure(c, QueueDo(c, q, a)) < QueueMeasure(c, q)
  {
    hide Inv, ProtocolTermination.Measure, Total, PairsFit, Handle, QueueShape, Receive, Issue, SendError, SentBy, Enabled, Do;
    match a {
      case Deliver(p) =>
        DeliverStutters(c, q, p);
        DeliverOutboxes(c, q, p);
      case Take(pairs) =>
        TakeManages(c, q, pairs);
        ProtocolTermination.StepSpends(c, Abstract(q), h, Manage(q.inbox[0].0, pairs));
        assert Outboxes(QueueDo(c, q, a).s) == Outboxes(q.s);
      case Own(b) =>
        OwnSteps(c, q, b);
        ProtocolTermination.StepSpends(c, Abstract(q), h, b);
        OwnOutboxes(c, q.s, b);
    }
  }

  lemma {:induction false} QueueRunSpends(c: Config, q: Queued, h: History, acts: seq<QueueAct>, q': Queued)
    requires QueueShape(c, q) && Inv(c, Abstract(q), h, {}) && QueueRuns(c, q, acts, q')
    ensures |acts| <= QueueMeasure(c, q)
    decreases acts
  {
    hide QueueEnabled, QueueDo, Inv, QueueShape, Abstract, QueueMeasure, Enabled, Do;
    if acts != [] {
      var q1 := QueueDo(c, q, acts[0]);
      QueueStepSpends(c, q, h, acts[0]);
      StepRefines(c, q, acts[0]);
      ShapeStays(c, q, h, acts[0]);
      CanTake(c, q, acts[0]);
      var h1 := RunKeeps(c, Abstract(q), h, StepsOf(q, acts[0]), Abstract(q1));
      QueueRunSpends(c, q1, h1, acts[1..], q');
    }
  }

  /** Every run with the queue is finite as well. */
  lemma QueueRunsAreFinite(c: Config, q: Queued, acts: seq<QueueAct>, q': Queued)
    requires WellFormed(c) && QueueReachable(c, q) && QueueRuns(c, q, acts, q')
    ensures |acts| <= QueueMeasure(c, q)
  {
    hide QueueRuns, QueueReachable, Reachable, Inv, QueueShape, Abstract, QueueMeasure, WellFormed;
    QueueRefines(c, q);
    var h := ReachableGood(c, Abstract(q));
    QueueRunSpends(c, q, h, acts, q');
  }

  ghost predicate QueueQuiescent(c: Config, q: Queued) {
    forall a :: !QueueEnabled(c, q, a)
  }

  lemma QuietBelow(c: Config, q: Queued, b: Act)
    requires QueueQuiescent(c, q)
    ensures !Enabled(c, Abstract(q), b)
  {
    hide QueueEnabled, Enabled;
    if Enabled(c, Abstract(q), b) {
      var a := CanMove(c, q, b);
    }
  }

  /** When nothing can move any more, queue included, the work is complete exactly if no task is misaligned. */
  lemma QueueEndsComplete(c: Config, q: Queued)
    requires WellFormed(c) && QueueReachable(c, q) && QueueQuiescent(c, q)
    ensures Complete(c, Abstract(q)) <==> !SomeMisaligned(c, Abstract(q))
  {
    hide QueueReachable, Reachable, WellFormed, Complete, SomeMisaligned, QueueQuiescent, QueueShape, Abstract;
    QueueRefines(c, q);
    forall a ensures !Enabled(c, Abstract(q), a) {
      QuietBelow(c, q, a);
    }
    EndsComplete(c, Abstract(q));
  }
}
