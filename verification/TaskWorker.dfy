/**
 The worker process in its own form: the loop of task_run (task_manager.py) with its helpers and exception
 handlers, and the collectives of a task (task.py).  Every way it can go is a trace of the steps that
 TaskProtocol takes for a process, and every process of the protocol takes such a trace.
 */
module TaskWorker {
  import opened Basics
  import opened TaskModel
  import opened TaskProtocol

  // ------------------------------------------------------------ traces of one process

  datatype Step = Got(r: Reply) | Issued(v: int) | Failed(e: int)

  ghost predicate CanMove(order: seq<TaskName>, pr: Process, st: Step) {
    pr.at < |order| && if st.Got? then Waiting(pr.phase) else pr.phase.Running?
  }

  ghost function Move(c: Config, i: PoolId, order: seq<TaskName>, pr: Process, st: Step): Process
    requires CanMove(order, pr, st)
  {
    match st
    case Got(r) => Receive(i, order, pr, r)
    case Issued(v) => Issue(c, i, order, pr, v)
    case Failed(e) => SendError(order[pr.at], pr, Some(e))
  }

  /** A process that has just been created. */
  ghost function NewProcess(order: seq<TaskName>): Process {
    Process(0, if order == [] then Exited else WaitGo, None, [], [])
  }

  /** Where the steps of `trace` lead, if each of them is possible. */
  ghost function Play(c: Config, i: PoolId, order: seq<TaskName>, trace: seq<Step>): Option<Process> {
    if trace == [] then Some(NewProcess(order))
    else
      var pr, st := Play(c, i, order, trace[..|trace| - 1]), trace[|trace| - 1];
      if pr.Some? && CanMove(order, pr.value, st) then Some(Move(c, i, order, pr.value, st)) else None
  }

  ghost function RepliesIn(trace: seq<Step>): seq<Reply> {
    if trace == [] then []
    else
      var st := trace[|trace| - 1];
      RepliesIn(trace[..|trace| - 1]) + if st.Got? then [st.r] else []
  }

  lemma PlayMore(c: Config, i: PoolId, order: seq<TaskName>, trace: seq<Step>, pr: Process, st: Step)
    requires Play(c, i, order, trace) == Some(pr) && CanMove(order, pr, st)
    ensures Play(c, i, order, trace + [st]) == Some(Move(c, i, order, pr, st))
    ensures RepliesIn(trace + [st]) == RepliesIn(trace) + if st.Got? then [st.r] else []
  {
    assert (trace + [st])[..|trace|] == trace;
  }

  // ------------------------------------------------------------ the steps that a process takes outside run()

  lemma GoRead(i: PoolId, order: seq<TaskName>, pr: Process, r: Reply)
    requires pr.at < |order| && pr.phase.WaitGo? && !r.ErrorReply?
    ensures Receive(i, order, pr, r) == pr.(phase := Running(0), index := if r.Go? then Some(r.index) else None, sent := [])
  {
  }

  lemma FinishIssued(c: Config, i: PoolId, order: seq<TaskName>, pr: Process, v: int)
    requires pr.at < |order| && pr.phase == Running(|Program(c, order[pr.at])|)
    ensures var next := NextTask(order, pr.at);
            Issue(c, i, order, pr, v) == pr.(phase := WaitFinish, sent := pr.sent + [Fin(i, next)],
                                             out := pr.out + [Msg(order[pr.at], pr.index, FinishedMsg(i, next, false))])
  {
  }

  lemma FinishRead(i: PoolId, order: seq<TaskName>, pr: Process, r: Reply)
    requires pr.at < |order| && (pr.phase.WaitFinish? || pr.phase.WaitFinishAfterError?)
    ensures r.FinishedReply? ==> Receive(i, order, pr, r) == Advance(order, pr)
    ensures pr.phase.WaitFinishAfterError? && !r.FinishedReply? ==> Receive(i, order, pr, r) == pr.(phase := Dead)
  {
  }

  lemma GatherRead(i: PoolId, order: seq<TaskName>, pr: Process, r: Reply)
    requires pr.at < |order| && pr.phase.WaitErrorGather? && !r.ErrorReply?
    ensures Receive(i, order, pr, r) ==
            pr.(phase := WaitFinishAfterError,
                out := pr.out + [Msg(order[pr.at], pr.index, FinishedMsg(i, NextTask(order, pr.at), true))])
  {
  }

  // ------------------------------------------------------------ the process

  /** How a piece of code ends: normally, for ever at a receive, by OtherTaskError, or by another exception. */
  datatype Ending = Fine | Blocked | OtherTask | Raised(e: int)

  datatype Outcome = Completed | Waits | Died

  /** The text of the ValueError that finished_sync raises. */
  const NOT_FINISHED := 0

  class Worker {
    const c: Config
    const pool: PoolId
    const order: seq<TaskName>
    /** Everything that is ever put into the receive queue; a receive on the empty queue blocks. */
    ghost const replies: seq<Reply>
    var recvQueue: seq<Reply>
    var sendQueue: seq<Msg>
    var taskIndex: Option<nat>
    ghost var trace: seq<Step>

    constructor (c: Config, pool: PoolId, order: seq<TaskName>, replies: seq<Reply>)
      ensures this.c == c && this.pool == pool && this.order == order && this.replies == replies
      ensures Follows(NewProcess(order), [])
    {
      this.c, this.pool, this.order, this.replies := c, pool, order, replies;
      recvQueue, sendQueue, taskIndex, trace := replies, [], None, [];
    }

    /** The steps so far led to `pr`; `read` has been received, but is not yet part of a step. */
    ghost predicate Follows(pr: Process, read: seq<Reply>)
      reads this
    {
      && Play(c, pool, order, trace) == Some(pr)
      && sendQueue == pr.out && taskIndex == pr.index
      && RepliesIn(trace) + read + recvQueue == replies
    }

    /** recv_queue.get() */
    method Get() returns (r: Option<Reply>)
      modifies this`recvQueue
      ensures r.None? ==> old(recvQueue) == recvQueue == []
      ensures r.Some? ==> old(recvQueue) == [r.value] + recvQueue
    {
      if recvQueue == [] {
        return None;
      }
      r := Some(recvQueue[0]);
      recvQueue := recvQueue[1..];
    }

    /** recv: "error" raises OtherTaskError. */
    method Recv() returns (e: Ending, r: Reply)
      modifies this`recvQueue
      ensures e.Fine? || e.Blocked? || e.OtherTask?
      ensures e.Blocked? ==> old(recvQueue) == recvQueue == []
      ensures e.OtherTask? ==> old(recvQueue) == [ErrorReply] + recvQueue
      ensures e.Fine? ==> old(recvQueue) == [r] + recvQueue && !r.ErrorReply?
    {
      var got := Get();
      if got.None? {
        return Blocked, ErrorReply;
      }
      e, r := if got.value.ErrorReply? then OtherTask else Fine, got.value;
    }

    method Send(t: TaskName, body: Body)
      modifies this`sendQueue
      ensures sendQueue == old(sendQueue) + [Msg(t, taskIndex, body)]
    {
      sendQueue := sendQueue + [Msg(t, taskIndex, body)];
    }

    method FinishedSync(t: TaskName, next: Option<TaskName>, afterError: bool) returns (e: Ending, ghost r: Reply)
      modifies this`recvQueue, this`sendQueue
      ensures sendQueue == old(sendQueue) + [Msg(t, taskIndex, FinishedMsg(pool, next, afterError))]
      ensures e.Blocked? ==> old(recvQueue) == recvQueue == []
      ensures !e.Blocked? ==> old(recvQueue) == [r] + recvQueue
      ensures !e.Blocked? ==> e == if r.FinishedReply? then Fine else if r.ErrorReply? then OtherTask else Raised(NOT_FINISHED)
    {
      Send(t, FinishedMsg(pool, next, afterError));
      ghost var before := recvQueue;
      var reply;
      e, reply := Recv();
      r := if before == [] then ErrorReply else before[0];
      if e.Fine? && !reply.FinishedReply? {
        e := Raised(NOT_FINISHED);
      }
    }

    /** error_sync: reads on past every further "error". */
    method ErrorSync(t: TaskName, err: Option<int>) returns (r: Option<Reply>, ghost skipped: nat)
      modifies this`recvQueue, this`sendQueue
      ensures sendQueue == old(sendQueue) + [Msg(t, taskIndex, ErrorMsg(err))]
      ensures old(recvQueue) == Repeat(ErrorReply, skipped) + (if r.Some? then [r.value] else []) + recvQueue
      ensures if r.Some? then !r.value.ErrorReply? else recvQueue == []
    {
      Send(t, ErrorMsg(err));
      r, skipped := Some(ErrorReply), 0;
      r := Get();
      while r.Some? && r.value.ErrorReply?
        invariant old(recvQueue) == Repeat(ErrorReply, skipped) + (if r.Some? then [r.value] else []) + recvQueue
        invariant sendQueue == old(sendQueue) + [Msg(t, taskIndex, ErrorMsg(err))]
        invariant r.None? ==> recvQueue == []
        decreases |recvQueue|, r.Some?
      {
        assert Repeat(ErrorReply, skipped) + [ErrorReply] == Repeat(ErrorReply, skipped + 1);
        r := Get();
        skipped := skipped + 1;
      }
    }

    /** Task.gather and Task.all_gather */
    method Collect(t: TaskName, op: Collective, v: int) returns (e: Ending, ghost r: Reply)
      modifies this`recvQueue, this`sendQueue
      ensures sendQueue == old(sendQueue) + [Msg(t, taskIndex, BodyFor(op, v))]
      ensures !Expects(op, taskIndex) ==> e.Fine? && recvQueue == old(recvQueue)
      ensures Expects(op, taskIndex) ==>
                match e
                case Blocked => old(recvQueue) == recvQueue == []
                case OtherTask => old(recvQueue) == [ErrorReply] + recvQueue
                case Fine => old(recvQueue) == [r] + recvQueue && !r.ErrorReply?
                case Raised(_) => false
    {
      Send(t, BodyFor(op, v));
      e, r := Fine, ErrorReply;
      if Expects(op, taskIndex) {
        e, r := Recv();
      }
    }

    /** What an ending means for the process: it can go on, it waits, or it is about to report an error. */
    ghost predicate Ended(e: Ending, pr: Process, read: seq<Reply>)
      reads this
    {
      && Follows(pr, read)
      && match e
         case Fine => read == []
         case Blocked => read == [] && recvQueue == [] && Waiting(pr.phase)
         case OtherTask => pr.at < |order| && read == [ErrorReply] && (pr.phase.WaitGo? || pr.phase.WaitReply? || pr.phase.WaitFinish?)
         case Raised(x) =>
           && pr.at < |order|
           && if pr.phase.Running? then read == []
              else pr.phase.WaitFinish? && x == NOT_FINISHED && |read| == 1 && !read[0].ErrorReply? && !read[0].FinishedReply?
    }

    ghost method Take(pr: Process, st: Step) returns (pr': Process)
      requires Play(c, pool, order, trace) == Some(pr) && CanMove(order, pr, st)
      modifies this`trace
      ensures pr' == Move(c, pool, order, pr, st) && Play(c, pool, order, trace) == Some(pr')
      ensures RepliesIn(trace) == RepliesIn(old(trace)) + if st.Got? then [st.r] else []
    {
      PlayMore(c, pool, order, trace, pr, st);
      trace := trace + [st];
      pr' := Move(c, pool, order, pr, st);
    }

    /** The step with which a process reports an error. */
    ghost method Report(pr: Process, read: seq<Reply>, err: Option<int>) returns (pr': Process)
      requires Play(c, pool, order, trace) == Some(pr) && pr.at < |order|
      requires if err.Some? && pr.phase.Running? then read == []
               else if err.Some? then
                 pr.phase.WaitFinish? && err == Some(NOT_FINISHED) && |read| == 1 && !read[0].ErrorReply? && !read[0].FinishedReply?
               else read == [ErrorReply] && (pr.phase.WaitGo? || pr.phase.WaitReply? || pr.phase.WaitFinish?)
      modifies this`trace
      ensures pr' == SendError(order[pr.at], pr, err) && Play(c, pool, order, trace) == Some(pr')
      ensures RepliesIn(trace) == RepliesIn(old(trace)) + read
    {
      pr' := Take(pr, if read == [] then Failed(err.value) else Got(read[0]));
    }

    /** Further errors that error_sync reads. */
    ghost method Skip(pr0: Process, skipped: nat) returns (pr: Process)
      requires Play(c, pool, order, trace) == Some(pr0) && pr0.at < |order| && pr0.phase.WaitErrorGather?
      modifies this`trace
      ensures pr == pr0 && Play(c, pool, order, trace) == Some(pr)
      ensures RepliesIn(trace) == RepliesIn(old(trace)) + Repeat(ErrorReply, skipped)
    {
      pr := pr0;
      for k := 0 to skipped
        invariant pr == pr0 && Play(c, pool, order, trace) == Some(pr)
        invariant RepliesIn(trace) == RepliesIn(old(trace)) + Repeat(ErrorReply, k)
      {
        pr := Take(pr, Got(ErrorReply));
        assert Repeat(ErrorReply, k + 1) == Repeat(ErrorReply, k) + [ErrorReply];
      }
    }

    /** Where a process is when it does nothing any more: past its last task, at a receive that nothing answers, or ended by an
        exception that no handler catches. */
    ghost predicate Rests(outcome: Outcome, pr: Process)
      reads this
    {
      && Follows(pr, [])
      && match outcome
         case Completed => pr.phase.Exited? && pr.at == |order|
         case Waits => Waiting(pr.phase) && recvQueue == []
         case Died => pr.phase.Dead?
    }

    /** run(): the collectives of the task in order; an exception may be raised anywhere. */
    method RunTask(t: TaskName, ghost pr0: Process) returns (e: Ending, ghost pr: Process, ghost read: seq<Reply>)
      requires Follows(pr0, []) && pr0.at < |order| && order[pr0.at] == t && pr0.phase == Running(0)
      modifies this`recvQueue, this`sendQueue, this`trace
      ensures Ended(e, pr, read) && pr.at == pr0.at
      ensures e.Fine? ==> pr.phase == Running(|Program(c, t)|)
    {
      hide Play, RepliesIn, Program;
      pr, read := pr0, [];
      var k := 0;
      while k < |Program(c, t)|
        invariant k <= |Program(c, t)| && Follows(pr, []) && pr.at == pr0.at && pr.phase == Running(k)
      {
        if * {
          var x: int := *;
          return Raised(x), pr, [];
        }
        var v: int := *;
        ghost var r;
        e, r := Collect(t, Program(c, t)[k], v);
        pr := Take(pr, Issued(v));
        if e.OtherTask? {
          return OtherTask, pr, [ErrorReply];
        }
        if e.Blocked? {
          return Blocked, pr, [];
        }
        if Expects(Program(c, t)[k], taskIndex) {
          pr := Take(pr, Got(r));
        }
        k := k + 1;
      }
      if * {
        var x: int := *;
        return Raised(x), pr, [];
      }
      e := Fine;
    }

    /** The steps of finished_sync, at the end of run(). */
    ghost method FinishTurn(e: Ending, r: Reply, pr0: Process) returns (pr: Process, read: seq<Reply>)
      requires Play(c, pool, order, trace) == Some(pr0) && taskIndex == pr0.index
      requires pr0.at < |order| && pr0.phase == Running(|Program(c, order[pr0.at])|)
      requires sendQueue == pr0.out + [Msg(order[pr0.at], taskIndex, FinishedMsg(pool, NextTask(order, pr0.at), false))]
      requires RepliesIn(trace) + (if e.Blocked? then [] else [r]) + recvQueue == replies && (e.Blocked? ==> recvQueue == [])
      requires !e.Blocked? ==> e == if r.FinishedReply? then Fine else if r.ErrorReply? then OtherTask else Raised(NOT_FINISHED)
      modifies this`trace
      ensures Ended(e, pr, read)
      ensures pr.at == pr0.at + if e.Fine? then 1 else 0
      ensures e.Fine? ==> pr.phase == if pr.at < |order| then WaitGo else Exited
    {
      hide Play, RepliesIn, Program, Receive, Issue;
      FinishIssued(c, pool, order, pr0, 0);
      pr := Take(pr0, Issued(0));
      read := if e.Blocked? then [] else [r];
      if e.Fine? {
        FinishRead(pool, order, pr, r);
        pr := Take(pr, Got(r));
        read := [];
      }
    }

    /** The try block of one turn of the loop. */
    method TryTask(at: nat, ghost pr0: Process) returns (e: Ending, ghost pr: Process, ghost read: seq<Reply>)
      requires Follows(pr0, []) && pr0.at == at < |order| && pr0.phase.WaitGo?
      modifies this`recvQueue, this`sendQueue, this`trace, this`taskIndex
      ensures Ended(e, pr, read)
      ensures pr.at == at + if e.Fine? then 1 else 0
      ensures e.Fine? ==> pr.phase == if pr.at < |order| then WaitGo else Exited
    {
      hide Play, RepliesIn, Program, Receive, Issue;
      pr, read := pr0, [];
      var go;
      e, go := Recv();
      if !e.Fine? {
        read := if e.OtherTask? then [ErrorReply] else [];
        return;
      }
      taskIndex := if go.Go? then Some(go.index) else None;
      GoRead(pool, order, pr, go);
      pr := Take(pr, Got(go));
      e, pr, read := RunTask(order[at], pr);
      if !e.Fine? {
        return;
      }
      ghost var r;
      e, r := FinishedSync(order[at], NextTask(order, at), false);
      pr, read := FinishTurn(e, r, pr);
    }

    /** The body of both exception handlers, which differ in what they report. */
    method HandleError(at: nat, err: Option<int>, ghost pr0: Process, ghost read: seq<Reply>, ghost e0: Ending)
        returns (outcome: Outcome, ghost pr: Process)
      requires Ended(e0, pr0, read) && pr0.at == at < |order|
      requires e0 == if err.Some? then Raised(err.value) else OtherTask
      modifies this`recvQueue, this`sendQueue, this`trace
      ensures Rests(outcome, pr) || (outcome.Completed? && Follows(pr, []))
      ensures outcome.Completed? ==> pr.at == at + 1 && pr.phase == if pr.at < |order| then WaitGo else Exited
    {
      hide Play, RepliesIn, Repeat, Receive;
      ghost var skipped;
      var reply;
      var t := order[at];
      reply, skipped := ErrorSync(t, err);
      pr := Report(pr0, read, err);
      pr := Skip(pr, skipped);
      assert RepliesIn(trace) + (if reply.Some? then [reply.value] else []) + recvQueue == replies;
      if reply.None? {
        return Waits, pr;
      }
      var e;
      ghost var r;
      e, r := FinishedSync(t, NextTask(order, at), true);
      GatherRead(pool, order, pr, reply.value);
      pr := Take(pr, Got(reply.value));
      assert RepliesIn(trace) + (if e.Blocked? then [] else [r]) + recvQueue == replies;
      if e.Blocked? {
        return Waits, pr;
      }
      FinishRead(pool, order, pr, r);
      pr := Take(pr, Got(r));
      outcome := if e.Fine? then Completed else Died;
    }

    /** task_run */
    method TaskRun() returns (outcome: Outcome, ghost pr: Process)
      requires Follows(NewProcess(order), [])
      modifies this`recvQueue, this`sendQueue, this`trace, this`taskIndex
      ensures Rests(outcome, pr)
    {
      pr := NewProcess(order);
      for at := 0 to |order|
        invariant Follows(pr, []) && pr.at == at && pr.phase == if at < |order| then WaitGo else Exited
      {
        ghost var read;
        var e;
        e, pr, read := TryTask(at, pr);
        if e.Blocked? {
          return Waits, pr;
        }
        if !e.Fine? {
          outcome, pr := HandleError(at, if e.OtherTask? then None else Some(e.e), pr, read, e);
          if !outcome.Completed? {
            return;
          }
        }
      }
      outcome := Completed;
    }
  }
}
