/** Every process of the protocol goes the way of a worker: what it does in a run is a trace of task_run. */
module ProtocolTraces {
  import opened Basics
  import opened TaskModel
  import opened TaskProtocol
  import opened ProtocolErrors
  import opened ProtocolQueue
  import opened TaskWorker

  /** Process p has gone through the steps of `trace`, and the manager has taken the messages `taken` from it. */
  ghost predicate Plays(c: Config, s: State, p: ProcId, trace: seq<Step>, taken: seq<Msg>) {
    && p < |s.procs| == |s.m.channels| && p < |c.home|
    && Play(c, c.home[p], OrderOf(c, p), trace) == Some(WithQueued(s.procs[p], taken))
  }

  /** What has been put into the queue of p. */
  ghost function Given(s: State, p: ProcId, trace: seq<Step>): seq<Reply>
    requires p < |s.m.channels|
  {
    RepliesIn(trace) + s.m.channels[p]
  }

  lemma MovePlays(c: Config, s: State, a: Act, trace: seq<Step>, taken: seq<Msg>) returns (trace': seq<Step>)
    requires Plays(c, s, a.p, trace, taken) && Enabled(c, s, a) && !a.Manage?
    ensures Plays(c, Do(c, s, a), a.p, trace', taken)
    ensures Given(Do(c, s, a), a.p, trace') == Given(s, a.p, trace)
  {
    hide Play, RepliesIn;
    var i, order, pr := c.home[a.p], OrderOf(c, a.p), s.procs[a.p];
    var st := match a case Recv(p) => Got(s.m.channels[p][0]) case Contribute(_, v) => Issued(v) case Fail(_, e) => Failed(e);
    if a.Recv? {
      ReceiveUnderQueue(i, order, pr, s.m.channels[a.p][0], taken);
    } else {
      IssueUnderQueue(c, i, order, pr, if a.Contribute? then a.v else 0, if a.Fail? then a.e else 0, taken);
    }
    PlayMore(c, i, order, trace, WithQueued(pr, taken), st);
    trace' := trace + [st];
  }

  // ------------------------------------------------------------ what the manager puts and takes

  /** What has been added to a queue. */
  function Added(before: seq<Reply>, after: seq<Reply>): seq<Reply> {
    if before <= after then after[|before|..] else []
  }

  /** What one step of the manager puts into the queue of p. */
  ghost function PutBy(c: Config, s: State, a: Act, p: ProcId): seq<Reply>
    requires Enabled(c, s, a)
  {
    var channels := Do(c, s, a).m.channels;
    if a.Manage? && p < |s.m.channels| && p < |channels| then Added(s.m.channels[p], channels[p]) else []
  }

  /** All that the manager puts into the queue of p in a run. */
  ghost function PutIn(c: Config, s: State, acts: seq<Act>, p: ProcId): seq<Reply>
    decreases acts
  {
    if acts == [] || !Enabled(c, s, acts[0]) then []
    else PutBy(c, s, acts[0], p) + PutIn(c, Do(c, s, acts[0]), acts[1..], p)
  }

  ghost function TakenBy(s: State, a: Act, p: ProcId): seq<Msg> {
    if a.Manage? && a.p == p && p < |s.procs| && s.procs[p].out != [] then [s.procs[p].out[0]] else []
  }

  /** The messages that the manager takes from p in a run. */
  ghost function TakenIn(c: Config, s: State, acts: seq<Act>, p: ProcId): seq<Msg>
    decreases acts
  {
    if acts == [] || !Enabled(c, s, acts[0]) then []
    else TakenBy(s, acts[0], p) + TakenIn(c, Do(c, s, acts[0]), acts[1..], p)
  }

  lemma StepPlays(c: Config, s: State, a: Act, p: ProcId, trace: seq<Step>, taken: seq<Msg>) returns (trace': seq<Step>)
    requires Plays(c, s, p, trace, taken) && Enabled(c, s, a)
    ensures Plays(c, Do(c, s, a), p, trace', taken + TakenBy(s, a, p))
    ensures Given(Do(c, s, a), p, trace') == Given(s, p, trace) + PutBy(c, s, a, p)
  {
    hide Play, RepliesIn, Handle, Receive, Issue, SendError;
    trace' := trace;
    assert taken + [] == taken && Given(s, p, trace) + [] == Given(s, p, trace);
    if a.Manage? {
      HandleExtends(LayoutOf(c), s.m, s.procs[a.p].out[0], a.pairs);
      var put := PutBy(c, s, a, p);
      assert RepliesIn(trace) + (s.m.channels[p] + put) == RepliesIn(trace) + s.m.channels[p] + put;
      if a.p == p {
        assert taken + [s.procs[p].out[0]] + s.procs[p].out[1..] == taken + s.procs[p].out;
      }
    } else if a.p == p {
      trace' := MovePlays(c, s, a, trace, taken);
    }
  }

  lemma {:induction false} RunPlays(c: Config, s: State, acts: seq<Act>, s': State, p: ProcId, trace: seq<Step>, taken: seq<Msg>)
      returns (trace': seq<Step>)
    requires Plays(c, s, p, trace, taken) && Runs(c, s, acts, s')
    ensures Plays(c, s', p, trace', taken + TakenIn(c, s, acts, p))
    ensures Given(s', p, trace') == Given(s, p, trace) + PutIn(c, s, acts, p)
    decreases acts
  {
    hide Play, RepliesIn, Do, Enabled, Given, PutBy, TakenBy, WithQueued;
    trace' := trace;
    if acts == [] {
      assert taken + [] == taken && Given(s, p, trace) + [] == Given(s, p, trace);
    } else {
      var a, s1 := acts[0], Do(c, s, acts[0]);
      trace' := StepPlays(c, s, a, p, trace, taken);
      trace' := RunPlays(c, s1, acts[1..], s', p, trace', taken + TakenBy(s, a, p));
      assert taken + TakenBy(s, a, p) + TakenIn(c, s1, acts[1..], p) == taken + (TakenBy(s, a, p) + TakenIn(c, s1, acts[1..], p));
      assert Given(s, p, trace) + PutBy(c, s, a, p) + PutIn(c, s1, acts[1..], p)
          == Given(s, p, trace) + (PutBy(c, s, a, p) + PutIn(c, s1, acts[1..], p));
    }
  }

  /** In a run of the protocol every process takes the steps of a worker.  The replies it reads, and those still in its queue, are
      in order what the queue held at the start and what the manager put into it; its messages are in order those that the manager
      took from it and those it has not taken yet. */
  lemma EveryProcessIsAWorker(c: Config, s0: State, acts: seq<Act>, s: State, p: ProcId) returns (trace: seq<Step>)
    requires WellFormed(c) && Initial(c, s0) && Runs(c, s0, acts, s) && p < |s0.procs|
    ensures p < |s0.m.channels| && Plays(c, s, p, trace, TakenIn(c, s0, acts, p))
    ensures Given(s, p, trace) == s0.m.channels[p] + PutIn(c, s0, acts, p)
  {
    hide Runs, Initial, WellFormed, PutIn, TakenIn;
    StartsNew(c, s0, p);
    assert [] + s0.m.channels[p] == s0.m.channels[p];
    trace := RunPlays(c, s0, acts, s, p, [], []);
    assert [] + TakenIn(c, s0, acts, p) == TakenIn(c, s0, acts, p);
  }

  lemma StartsNew(c: Config, s0: State, p: ProcId)
    requires WellFormed(c) && Initial(c, s0) && p < |s0.procs|
    ensures p < |s0.m.channels| && Plays(c, s0, p, [], [])
  {
    hide InitialTask, OrdersOk, GraphOk;
    var i := c.home[p];
    assert p in c.pools[i].procs;
    var x :| 0 <= x < |c.pools[i].procs| && c.pools[i].procs[x] == p;
    assert AtFirstReceive(s0, c.pools[i].procs);
    assert WithQueued(s0.procs[p], []) == NewProcess(OrderOf(c, p));
  }
}
