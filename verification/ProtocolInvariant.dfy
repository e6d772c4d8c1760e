/**
 The invariant of the task protocol.  Channels and outboxes are described
 exactly, phase by phase, relative to a history of what the manager has
 accepted in each task.
 */
module ProtocolInvariant {
  import opened Basics
  import opened Collectives
  import opened TaskModel
  import opened TaskProtocol

  // ------------------------------------------------------------ history

  /** Of a task that has been started: whether it was started with "error" instead of "go"; the index each of
      its processes holds from then on; what each column has contributed before and after the first error. */
  datatype Hist = Hist(failed: bool, cols: seq<Option<nat>>, normal: Streams<Data>, after: Streams<Data>)

  type History = map<TaskName, Hist>

  function HistOf(h: History, t: TaskName): Hist {
    if t in h then h[t] else Hist(false, [], [], [])
  }

  /** The indices address the columns one to one.  (A single process needs no index: its row is returned at once.) */
  ghost predicate Aligned(cols: seq<Option<nat>>) {
    |cols| == 1 ||
    ((forall x :: 0 <= x < |cols| ==> cols[x].Some? && cols[x].value < |cols|) && NoDup(cols))
  }

  function ColOf(cols: seq<Option<nat>>, x: nat): nat
    requires x < |cols|
  {
    if |cols| == 1 || cols[x].None? then 0 else cols[x].value
  }

  // ------------------------------------------------------------ pools and tasks

  type Info = map<TaskName, TaskInfo>
  type Owners = seq<Option<TaskName>>

  /** `released` are the pools whose finish barrier is complete and which set_task_finished has not handed over yet. */
  ghost predicate Owns(owner: Owners, released: set<PoolId>, i: PoolId, t: TaskName) {
    i < |owner| && i !in released && owner[i] == Some(t)
  }

  ghost predicate PassedBy(c: Config, owner: Owners, released: set<PoolId>, i: PoolId, t: TaskName) {
    && i < |owner|
    && (owner[i].None? || Rank(c, owner[i].value) > Rank(c, t) || (owner[i] == Some(t) && i in released))
  }

  ghost predicate Active(c: Config, owner: Owners, released: set<PoolId>, t: TaskName) {
    InSomePool(c, t) && forall i :: 0 <= i < |c.pools| && InPool(c, i, t) ==> Owns(owner, released, i, t)
  }

  ghost predicate Passed(c: Config, owner: Owners, released: set<PoolId>, t: TaskName) {
    InSomePool(c, t) && forall i :: 0 <= i < |c.pools| && InPool(c, i, t) ==> PassedBy(c, owner, released, i, t)
  }

  ghost predicate OwnersOk(c: Config, owner: Owners, released: set<PoolId>) {
    && |owner| == |c.pools|
    && (forall i :: 0 <= i < |owner| && owner[i].Some? ==> InPool(c, i, owner[i].value))
    && (forall i :: i in released ==> i < |owner| && owner[i].Some?)
  }

  ghost predicate QueuesOk(c: Config, owner: Owners, released: set<PoolId>, t: TaskName, queues: seq<ProcId>) {
    && NoDup(queues)
    && (forall p: ProcId :: p in queues <==> p < |c.home| && Owns(owner, released, c.home[p], t))
  }

  ghost predicate AllEmpty(acc: Streams<Data>) {
    forall j :: 0 <= j < |acc| ==> acc[j] == []
  }

  /** Column `col` belongs to nobody, so no row can ever be complete. */
  ghost predicate Orphan(hi: Hist, col: nat) {
    && col < |hi.cols| == |hi.after|
    && hi.after[col] == []
    && forall x :: 0 <= x < |hi.cols| ==> hi.cols[x] != Some(col)
  }

  ghost predicate HistShape(hi: Hist, n: nat) {
    && n > 0 && |hi.cols| == |hi.normal| == |hi.after| == n
    && (!hi.failed ==> forall x :: 0 <= x < n ==> hi.cols[x] == Some(x))
    && (hi.failed ==> AllEmpty(hi.normal))
    && (!Aligned(hi.cols) ==> n >= 2 && exists col :: Orphan(hi, col))
  }

  ghost predicate DequeOk(c: Config, t: TaskName, ti: TaskInfo, hi: Hist)
    requires HistShape(hi, |ti.queues|)
  {
    if ti.state == Error
    then ti.deque == Staircase(hi.after) && MinLen(hi.after) <= 1
    else ti.deque == Staircase(hi.normal) && MinLen(hi.normal) <= |Program(c, t)| && AllEmpty(hi.after)
  }

  ghost predicate ActiveOk(c: Config, info: Info, h: History, t: TaskName) {
    var ti, hi := InfoOf(info, t), HistOf(h, t);
    && HistShape(hi, |ti.queues|)
    && DequeOk(c, t, ti, hi)
    && (ti.state == Error || ti.state == if IsSource(c, t) then Unstart else Started)
    && (hi.failed <==> SomePrevFailed(LayoutOf(c), info, t))
  }

  ghost predicate PassedOk(c: Config, info: Info, t: TaskName) {
    var ti := InfoOf(info, t);
    && (ti.state == Finished || ti.state == Error)
    && (SomePrevFailed(LayoutOf(c), info, t) ==> ti.state == Error)
  }

  ghost predicate PendingOk(c: Config, info: Info, owner: Owners, released: set<PoolId>, t: TaskName) {
    var ti := InfoOf(info, t);
    && ti.state == Unstart && !IsSource(c, t) && ti.deque == []
    && forall i :: 0 <= i < |c.pools| && InPool(c, i, t) ==> !PassedBy(c, owner, released, i, t)
  }

  ghost predicate TaskOk(c: Config, info: Info, owner: Owners, h: History, released: set<PoolId>, t: TaskName) {
    var ti := InfoOf(info, t);
    && (forall i :: i in ti.waitPools <==> InPool(c, i, t))
    && if Passed(c, owner, released, t) then PassedOk(c, info, t)
       else
         QueuesOk(c, owner, released, t, ti.queues) &&
         if Active(c, owner, released, t) then ActiveOk(c, info, h, t)
         else PendingOk(c, info, owner, released, t)
  }

  ghost predicate NoSourceOk(c: Config, info: Info) {
    forall t, u :: InSomePool(c, t) && u in PrevTasks(c, t) && !InSomePool(c, u) ==>
                     InfoOf(info, u).state == NoSourceData
  }

  // ------------------------------------------------------------ processes

  /** The process has been released from its task but has not read the "finished" yet. */
  predicate Lagging(pr: Process, ch: seq<Reply>) {
    (pr.phase.WaitFinish? || pr.phase.WaitFinishAfterError?) && ch != [] && ch[0].FinishedReply?
  }

  /** Where the process stands once it has read that "finished". */
  function AtOf(pr: Process, ch: seq<Reply>): nat {
    if Lagging(pr, ch) then pr.at + 1 else pr.at
  }

  function PhaseOf(order: seq<TaskName>, pr: Process, ch: seq<Reply>): Phase {
    if Lagging(pr, ch) then if pr.at + 1 < |order| then WaitGo else Exited else pr.phase
  }

  function RestOf(pr: Process, ch: seq<Reply>): seq<Reply> {
    if Lagging(pr, ch) then ch[1..] else ch
  }

  ghost predicate PlaceOk(order: seq<TaskName>, own: Option<TaskName>, rel: bool, k: nat) {
    if own.None? then k == |order|
    else if rel then 1 <= k <= |order| && order[k - 1] == own.value
    else k < |order| && order[k] == own.value
  }

  ghost predicate IdleOk(order: seq<TaskName>, k: nat, ph: Phase, ch: seq<Reply>, out: seq<Msg>) {
    ph == (if k < |order| then WaitGo else Exited) && ch == [] && out == []
  }

  /** The place of a process in an active task: task, pool, the task its pool goes to next, its number in the task. */
  datatype Seat = Seat(t: TaskName, pool: PoolId, next: Option<TaskName>, x: nat)

  function ValueOf(d: Data): int {
    if d.Val? then d.v else 0
  }

  /** The message that carries contribution number q. */
  function MsgFor(c: Config, seat: Seat, index: Option<nat>, q: nat, d: Data): Msg {
    var program := Program(c, seat.t);
    Msg(seat.t, index,
        if q < |program| then BodyFor(program[q], ValueOf(d)) else FinishedMsg(seat.pool, seat.next, false))
  }

  ghost predicate SentOk(c: Config, seat: Seat, sent: seq<Data>) {
    && |sent| <= |Program(c, seat.t)| + 1
    && forall q :: 0 <= q < |sent| ==>
         if q < |Program(c, seat.t)| then sent[q].Val? else sent[q] == Fin(seat.pool, seat.next)
  }

  /** The manager has accepted `acc` of what was sent, and the outbox holds the rest. */
  ghost predicate StreamOk(c: Config, seat: Seat, index: Option<nat>, out: seq<Msg>, sent: seq<Data>, acc: seq<Data>) {
    && |acc| + |out| == |sent|
    && acc == sent[..|acc|]
    && forall y :: 0 <= y < |out| ==> out[y] == MsgFor(c, seat, index, |acc| + y, sent[|acc| + y])
  }

  function ReplyTo(op: Collective, row: seq<Data>): Reply {
    if op.AllGatherOp? then AllGathered(row) else Gathered(row)
  }

  /** The reply a process in WaitReply(done) is waiting for, if it has been sent. */
  ghost function HeldReply(c: Config, t: TaskName, done: nat, acc: Streams<Data>): seq<Reply>
    requires |acc| > 0 && 1 <= done <= |Program(c, t)|
  {
    if done <= MinLen(acc) then [ReplyTo(Program(c, t)[done - 1], RowAt(acc, done - 1))] else []
  }

  /** Every reply due for a collective before `upto` is to a row already complete. */
  ghost predicate NoneOutstanding(c: Config, t: TaskName, index: Option<nat>, rows: nat, upto: nat) {
    forall q :: 0 <= q < upto && q < |Program(c, t)| && Expects(Program(c, t)[q], index) ==> q < rows
  }

  ghost predicate InRun(c: Config, seat: Seat, rows: nat, ph: Phase, index: Option<nat>, sent: seq<Data>) {
    var len := |Program(c, seat.t)|;
    && index == Some(seat.x)
    && SentOk(c, seat, sent)
    && match ph
       case Running(done) => |sent| == done <= len && NoneOutstanding(c, seat.t, index, rows, done)
       case WaitReply(done) =>
         && |sent| == done && 1 <= done <= len && Expects(Program(c, seat.t)[done - 1], index)
         && NoneOutstanding(c, seat.t, index, rows, done - 1)
       case WaitFinish => |sent| == len + 1 && NoneOutstanding(c, seat.t, index, rows, len) && rows <= len
       case WaitErrorGather => |sent| <= len && NoneOutstanding(c, seat.t, index, rows, |sent|)
       case _ => false
  }

  ghost function BaseOf(c: Config, t: TaskName, ph: Phase, acc: Streams<Data>): seq<Reply>
    requires |acc| > 0
  {
    if ph.WaitReply? && 1 <= ph.done <= |Program(c, t)| then HeldReply(c, t, ph.done, acc) else []
  }

  ghost predicate EndsWithError(seat: Seat, index: Option<nat>, out: seq<Msg>) {
    && out != []
    && out[|out| - 1].task == seat.t
    && out[|out| - 1].index == index
    && out[|out| - 1].body.ErrorMsg?
  }

  /** A process of a task started with "go", before the manager has seen an error. */
  ghost predicate NormalOk(c: Config, seat: Seat, hi: Hist, ph: Phase, ch: seq<Reply>, pr: Process)
    requires seat.x < |hi.normal|
  {
    var acc := hi.normal[seat.x];
    match ph
    case WaitGo => ch == [Go(seat.x)] && pr.out == [] && acc == []
    case WaitErrorGather =>
      && InRun(c, seat, MinLen(hi.normal), ph, pr.index, pr.sent)
      && ch == []
      && EndsWithError(seat, pr.index, pr.out) && pr.out[|pr.out| - 1].body.msg.Some?
      && StreamOk(c, seat, pr.index, pr.out[..|pr.out| - 1], pr.sent, acc)
    case _ =>
      && InRun(c, seat, MinLen(hi.normal), ph, pr.index, pr.sent)
      && ch == BaseOf(c, seat.t, ph, hi.normal)
      && StreamOk(c, seat, pr.index, pr.out, pr.sent, acc)
  }

  ghost predicate AllErrors(ch: seq<Reply>) {
    forall y :: 0 <= y < |ch| ==> ch[y].ErrorReply?
  }

  /** `base`, then one or more "error". */
  ghost predicate ErrorsAfter(base: seq<Reply>, ch: seq<Reply>) {
    |base| < |ch| && ch[..|base|] == base && AllErrors(ch[|base|..])
  }

  /** Contributions that the manager will drop, because the task is in its error state. */
  ghost predicate Stale(seat: Seat, out: seq<Msg>) {
    forall y :: 0 <= y < |out| ==>
                  && out[y].task == seat.t
                  && !out[y].body.ErrorMsg?
                  && (out[y].body.FinishedMsg? ==> !out[y].body.afterError)
  }

  ghost predicate NothingYet(hi: Hist, x: nat)
    requires x < |hi.cols| == |hi.after|
  {
    Aligned(hi.cols) ==> ColOf(hi.cols, x) < |hi.after| && hi.after[ColOf(hi.cols, x)] == []
  }

  ghost predicate OneError(hi: Hist, x: nat)
    requires x < |hi.cols| == |hi.after|
  {
    Aligned(hi.cols) ==>
      && ColOf(hi.cols, x) < |hi.after|
      && |hi.after[ColOf(hi.cols, x)]| == 1
      && hi.after[ColOf(hi.cols, x)][0].Err?
  }

  ghost predicate ErrorThenFinish(hi: Hist, x: nat, f: Data)
    requires x < |hi.cols| == |hi.after|
  {
    Aligned(hi.cols) ==>
      && ColOf(hi.cols, x) < |hi.after|
      && |hi.after[ColOf(hi.cols, x)]| == 2
      && hi.after[ColOf(hi.cols, x)][0].Err?
      && hi.after[ColOf(hi.cols, x)][1] == f
  }

  /** A process of a task in error, or started with "error". */
  ghost predicate ErrorOk(c: Config, seat: Seat, hi: Hist, ph: Phase, ch: seq<Reply>, pr: Process)
    requires seat.x < |hi.normal| == |hi.cols| == |hi.after|
  {
    && (if ph.WaitGo? then hi.normal[seat.x] == [] else hi.failed || hi.normal[seat.x] <= pr.sent)
    && ((ph.WaitGo? && !hi.failed) || pr.index == hi.cols[seat.x])
    && match ph
       case WaitGo =>
         ErrorsAfter(if hi.failed then [] else [Go(seat.x)], ch) && pr.out == [] && NothingYet(hi, seat.x)
       case WaitErrorGather =>
         if pr.out != [] then
           && EndsWithError(seat, pr.index, pr.out) && Stale(seat, pr.out[..|pr.out| - 1])
           && (hi.failed ==> |pr.out| == 1)
           && AllErrors(ch) && NothingYet(hi, seat.x)
         else
           && OneError(hi, seat.x)
           && if MinLen(hi.after) == 0 then AllErrors(ch)
              else ch != [] && AllErrors(ch[..|ch| - 1]) && ch[|ch| - 1] == ErrorGather(RowAt(hi.after, 0))
       case WaitFinishAfterError =>
         && ch == [] && MinLen(hi.after) > 0
         && if pr.out != [] then
              pr.out == [Msg(seat.t, pr.index, FinishedMsg(seat.pool, seat.next, true))] && OneError(hi, seat.x)
            else ErrorThenFinish(hi, seat.x, Fin(seat.pool, seat.next))
       case _ =>
         && !hi.failed
         && InRun(c, seat, MinLen(hi.normal), ph, pr.index, pr.sent)
         && ErrorsAfter(BaseOf(c, seat.t, ph, hi.normal), ch)
         && Stale(seat, pr.out) && NothingYet(hi, seat.x)
  }

  ghost predicate SeatedOk(c: Config, seat: Seat, ti: TaskInfo, hi: Hist, ph: Phase, ch: seq<Reply>, pr: Process) {
    && seat.x < |hi.normal| == |hi.cols| == |hi.after|
    && if ti.state == Error || hi.failed then ErrorOk(c, seat, hi, ph, ch, pr) else NormalOk(c, seat, hi, ph, ch, pr)
  }

  ghost predicate ProcOk(c: Config, info: Info, owner: Owners, h: History, released: set<PoolId>, p: ProcId,
                         pr: Process, ch: seq<Reply>)
    requires p < |c.home| && c.home[p] < |c.pools| == |owner|
  {
    var i := c.home[p];
    var order := c.pools[i].order;
    var k, ph, rest := AtOf(pr, ch), PhaseOf(order, pr, ch), RestOf(pr, ch);
    && PlaceOk(order, owner[i], i in released, k)
    && (Lagging(pr, ch) ==> pr.out == [])
    && if owner[i].None? || i in released || !Active(c, owner, released, owner[i].value)
       then IdleOk(order, k, ph, rest, pr.out)
       else
         var t := owner[i].value;
         forall x :: 0 <= x < |InfoOf(info, t).queues| && InfoOf(info, t).queues[x] == p ==>
                       SeatedOk(c, Seat(t, i, NextTask(order, k), x), InfoOf(info, t), HistOf(h, t), ph, rest, pr)
  }

  // ------------------------------------------------------------ the whole state

  ghost predicate Shape(c: Config, s: State) {
    |s.procs| == |s.m.channels| == |c.home|
  }

  ghost predicate Inv(c: Config, s: State, h: History, released: set<PoolId>) {
    && WellFormed(c)
    && Shape(c, s)
    && OwnersOk(c, s.m.owner, released)
    && NoSourceOk(c, s.m.info)
    && (forall t :: InSomePool(c, t) ==> TaskOk(c, s.m.info, s.m.owner, h, released, t))
    && (forall p :: 0 <= p < |s.procs| ==>
          ProcOk(c, s.m.info, s.m.owner, h, released, p, s.procs[p], s.m.channels[p]))
  }
}
