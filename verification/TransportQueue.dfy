module TransportQueue {
  /**
   The receiving server's bounded queue with several connections at once (tracer/socket_server.py).  Each connection has its
   own thread, and only the single operations of the queue are atomic: between the failed put and the get of
   _handle_queue_full, and between that get and the second put, other threads may run.
   */

  import opened Basics
  import opened Transport

  /** A thread holds no message, or is before the get, before the second put, or has died of the exception of that put. */
  datatype Hand = Idle | SawFull(m: Message) | Retrying(m: Message) | Broken(m: Message)

  datatype Entry = Entry(thread: nat, m: Message)

  /** `entered` are the messages that got into the queue, `fates` what became of those that have left it. */
  datatype State = State(queue: seq<Message>, entered: seq<Entry>, fates: seq<Fate>, hands: seq<Hand>, todo: seq<seq<Message>>)

  datatype Act = Put(h: nat) | Drop(h: nat) | PutAgain(h: nat) | Take

  ghost predicate Enabled(s: State, a: Act) {
    match a
    case Put(h) => h < |s.hands| == |s.todo| && s.hands[h].Idle? && s.todo[h] != []
    case Drop(h) => h < |s.hands| && s.hands[h].SawFull? && s.queue != []
    case PutAgain(h) => h < |s.hands| && s.hands[h].Retrying?
    case Take => s.queue != []
  }

  ghost function Entering(s: State, h: nat, m: Message): State
    requires h < |s.hands|
  {
    s.(queue := s.queue + [m], entered := s.entered + [Entry(h, m)], hands := s.hands[h := Idle])
  }

  ghost function Do(size: nat, s: State, a: Act): State
    requires Enabled(s, a)
  {
    match a
    case Put(h) =>
      var m, s' := s.todo[h][0], s.(todo := s.todo[h := s.todo[h][1..]]);
      if |s.queue| < size then Entering(s', h, m) else s'.(hands := s.hands[h := SawFull(m)])
    case Drop(h) => s.(queue := s.queue[1..], fates := s.fates + [Dropped], hands := s.hands[h := Retrying(s.hands[h].m)])
    case PutAgain(h) =>
      if |s.queue| < size then Entering(s, h, s.hands[h].m) else s.(hands := s.hands[h := Broken(s.hands[h].m)])
    case Take => s.(queue := s.queue[1..], fates := s.fates + [Delivered])
  }

  ghost function Start(input: seq<seq<Message>>): State {
    State([], [], [], Repeat(Idle, |input|), input)
  }

  ghost predicate Runs(size: nat, s: State, acts: seq<Act>, s': State)
    decreases acts
  {
    if acts == [] then s' == s else Enabled(s, acts[0]) && Runs(size, Do(size, s, acts[0]), acts[1..], s')
  }

  ghost predicate Reachable(size: nat, input: seq<seq<Message>>, s: State) {
    exists acts :: Runs(size, Start(input), acts, s)
  }

  // ------------------------------------------------------------ what holds in every reachable state

  /** What entered the queue from thread h, in order. */
  ghost function From(entered: seq<Entry>, h: nat): seq<Message> {
    if entered == [] then []
    else
      var e := entered[|entered| - 1];
      From(entered[..|entered| - 1], h) + if e.thread == h then [e.m] else []
  }

  ghost function InHand(hand: Hand): seq<Message> {
    if hand.Idle? then [] else [hand.m]
  }

  function Texts(entered: seq<Entry>): (r: seq<Message>)
    ensures |r| == |entered| && forall k :: 0 <= k < |r| ==> r[k] == entered[k].m
  {
    if entered == [] then [] else Texts(entered[..|entered| - 1]) + [entered[|entered| - 1].m]
  }

  /** Exactly the messages that entered last are queued, in order: delivery and dropping both remove the oldest. */
  ghost predicate QueueOk(size: nat, s: State) {
    && |s.fates| <= |s.entered| && s.queue == Texts(s.entered)[|s.fates|..]
    && |s.queue| <= size
  }

  /** No message is lost or reordered before it enters, except the one a broken thread holds. */
  ghost predicate ThreadsOk(input: seq<seq<Message>>, s: State) {
    && |s.hands| == |s.todo| == |input|
    && forall h :: 0 <= h < |input| ==> From(s.entered, h) + InHand(s.hands[h]) + s.todo[h] == input[h]
  }

  /** A thread that is retrying or broken has made room. */
  ghost predicate Pending(s: State, h: nat)
    requires h < |s.hands|
  {
    s.hands[h].Retrying? || s.hands[h].Broken?
  }

  ghost predicate HandsOk(size: nat, s: State) {
    && (forall h :: 0 <= h < |s.hands| && Pending(s, h) ==> Dropped in s.fates)
    && (forall h :: 0 <= h < |s.hands| && s.hands[h].Broken? ==> |s.entered| > size)
    && (forall h :: 0 <= h < |s.hands| && s.hands[h].SawFull? ==> |s.entered| >= size)
  }

  ghost predicate Inv(size: nat, input: seq<seq<Message>>, s: State) {
    QueueOk(size, s) && ThreadsOk(input, s) && HandsOk(size, s)
  }

  lemma Entered(entered: seq<Entry>, e: Entry, h: nat)
    ensures From(entered + [e], h) == From(entered, h) + if e.thread == h then [e.m] else []
    ensures Texts(entered + [e]) == Texts(entered) + [e.m]
  {
    assert (entered + [e])[..|entered|] == entered;
  }

  lemma {:induction false} NothingEntered(h: nat)
    ensures From([], h) == []
  {
  }

  lemma StepThread(size: nat, s: State, a: Act, h: nat)
    requires Enabled(s, a) && |s.hands| == |s.todo| && h < |s.hands|
    ensures var s' := Do(size, s, a);
            && |s'.hands| == |s'.todo| == |s.hands|
            && From(s'.entered, h) + InHand(s'.hands[h]) + s'.todo[h] == From(s.entered, h) + InHand(s.hands[h]) + s.todo[h]
  {
    hide From, Texts;
    var s' := Do(size, s, a);
    if |s'.entered| > |s.entered| {
      Entered(s.entered, s'.entered[|s.entered|], h);
    }
    if a == Put(h) {
      assert s.todo[h] == [s.todo[h][0]] + s.todo[h][1..];
    }
  }

  lemma StepThreads(size: nat, input: seq<seq<Message>>, s: State, a: Act)
    requires ThreadsOk(input, s) && Enabled(s, a)
    ensures ThreadsOk(input, Do(size, s, a))
  {
    hide From, InHand, Do, Enabled;
    var s' := Do(size, s, a);
    SameThreads(size, s, a);
    forall h | 0 <= h < |input| ensures From(s'.entered, h) + InHand(s'.hands[h]) + s'.todo[h] == input[h] {
      StepThread(size, s, a, h);
    }
  }

  lemma SameThreads(size: nat, s: State, a: Act)
    requires Enabled(s, a) && |s.hands| == |s.todo|
    ensures |Do(size, s, a).hands| == |Do(size, s, a).todo| == |s.hands|
  {
  }

  lemma StepQueue(size: nat, s: State, a: Act)
    requires QueueOk(size, s) && Enabled(s, a)
    ensures QueueOk(size, Do(size, s, a))
  {
    hide From, Texts;
    var s' := Do(size, s, a);
    if |s'.entered| > |s.entered| {
      Entered(s.entered, s'.entered[|s.entered|], 0);
    }
  }

  lemma StepHands(size: nat, s: State, a: Act)
    requires QueueOk(size, s) && HandsOk(size, s) && Enabled(s, a)
    ensures HandsOk(size, Do(size, s, a))
  {
    hide Texts;
    var s' := Do(size, s, a);
    assert forall f :: f in s.fates ==> f in s'.fates;
    if a.Drop? {
      assert s'.fates[|s.fates|] == Dropped;
    }
    if a.PutAgain? {
      assert Pending(s, a.h);
      assert |s.fates| > 0;
    }
    forall h | 0 <= h < |s.hands| && Pending(s', h) ensures Dropped in s'.fates {
      assert Pending(s, h) || a == Drop(h);
    }
  }

  lemma {:induction false} RunInv(size: nat, input: seq<seq<Message>>, s: State, acts: seq<Act>, s': State)
    requires Inv(size, input, s) && Runs(size, s, acts, s')
    ensures Inv(size, input, s')
    decreases acts
  {
    hide QueueOk, ThreadsOk, HandsOk, Do;
    if acts != [] {
      StepQueue(size, s, acts[0]);
      StepThreads(size, input, s, acts[0]);
      StepHands(size, s, acts[0]);
      RunInv(size, input, Do(size, s, acts[0]), acts[1..], s');
    }
  }

  lemma StartInv(size: nat, input: seq<seq<Message>>)
    ensures Inv(size, input, Start(input))
  {
    forall h | 0 <= h < |input| ensures From([], h) + InHand(Idle) + input[h] == input[h] {
      assert From([], h) == [];
    }
  }

  /** In every reachable state, whatever the interleaving: the queue is exactly what entered last and has not left it, so only
      the oldest undelivered messages are ever dropped; and each connection's messages enter in order and none is missing,
      except the one its thread still holds. */
  lemma DropsOnlyTheOldest(size: nat, input: seq<seq<Message>>, s: State)
    requires Reachable(size, input, s)
    ensures QueueOk(size, s) && ThreadsOk(input, s)
  {
    var acts :| Runs(size, Start(input), acts, s);
    StartInv(size, input);
    RunInv(size, input, Start(input), acts, s);
  }

  // ------------------------------------------------------------ counting

  ghost function InHands(s: State): seq<seq<Message>>
    requires |s.hands| == |s.todo|
  {
    seq(|s.hands|, h requires 0 <= h < |s.hands| => InHand(s.hands[h]) + s.todo[h])
  }

  /** The messages that have not entered the queue yet. */
  ghost function Outside(s: State): nat
    requires |s.hands| == |s.todo|
  {
    Total(InHands(s))
  }

  lemma StepCount(size: nat, s: State, a: Act)
    requires Enabled(s, a) && |s.hands| == |s.todo|
    ensures |Do(size, s, a).hands| == |Do(size, s, a).todo|
    ensures Outside(Do(size, s, a)) + |Do(size, s, a).entered| == Outside(s) + |s.entered|
  {
    hide Total;
    var s' := Do(size, s, a);
    if a.Take? {
      assert InHands(s') == InHands(s);
    } else {
      var was := InHand(s.hands[a.h]) + s.todo[a.h];
      var now := InHand(s'.hands[a.h]) + s'.todo[a.h];
      assert InHands(s') == InHands(s)[a.h := now];
      TotalUpdate(InHands(s), a.h, now);
      assert |was| == |now| + |s'.entered| - |s.entered|;
    }
  }

  lemma {:induction false} RunCount(size: nat, s: State, acts: seq<Act>, s': State)
    requires Runs(size, s, acts, s') && |s.hands| == |s.todo|
    ensures |s'.hands| == |s'.todo| && Outside(s') + |s'.entered| == Outside(s) + |s.entered|
    decreases acts
  {
    hide Outside;
    if acts != [] {
      StepCount(size, s, acts[0]);
      RunCount(size, Do(size, s, acts[0]), acts[1..], s');
    }
  }

  // ------------------------------------------------------------ runs that go wrong

  lemma {:induction false} RunsOn(size: nat, s: State, a: seq<Act>, s': State, b: seq<Act>, s'': State)
    requires Runs(size, s, a, s') && Runs(size, s', b, s'')
    ensures Runs(size, s, a + b, s'')
    decreases a
  {
    hide Do;
    if a == [] {
      assert a + b == b;
    } else {
      RunsOn(size, Do(size, s, a[0]), a[1..], s', b, s'');
      assert (a + b)[1..] == a[1..] + b;
    }
  }

  lemma OneStep(size: nat, s: State, a: Act)
    requires Enabled(s, a)
    ensures Runs(size, s, [a], Do(size, s, a))
  {
    hide Do;
    assert [a][1..] == [];
  }

  ghost predicate Resting(size: nat, s: State) {
    |s.hands| == |s.todo| && |s.queue| <= size && forall h :: 0 <= h < |s.hands| ==> s.hands[h].Idle?
  }

  /** A thread hands over its next message to a queue with room, the consumer making some first if there is none. */
  lemma FeedOne(size: nat, s: State, h: nat) returns (acts: seq<Act>, s': State)
    requires size > 0 && Resting(size, s) && h < |s.todo| && s.todo[h] != []
    ensures Runs(size, s, acts, s') && Resting(size, s') && s'.todo == s.todo[h := s.todo[h][1..]]
    ensures |s'.queue| == if |s.queue| == size then size else |s.queue| + 1
  {
    if |s.queue| == size {
      var t := Do(size, s, Take);
      OneStep(size, s, Take);
      s' := Do(size, t, Put(h));
      OneStep(size, t, Put(h));
      acts := [Take] + [Put(h)];
      RunsOn(size, s, [Take], t, [Put(h)], s');
    } else {
      s' := Do(size, s, Put(h));
      OneStep(size, s, Put(h));
      acts := [Put(h)];
    }
  }

  /** All messages but the last keep[h] of each connection can be handed over so. */
  lemma {:induction false} Feed(size: nat, s: State, keep: seq<nat>) returns (acts: seq<Act>, s': State)
    requires size > 0 && Resting(size, s) && |keep| == |s.todo| && forall h :: 0 <= h < |keep| ==> keep[h] <= |s.todo[h]|
    ensures Runs(size, s, acts, s') && Resting(size, s') && Lengths(s'.todo) == keep
    ensures |s'.queue| >= |s.queue| && (|s'.queue| == size || |s'.queue| + Sum(keep) == |s.queue| + Total(s.todo))
    decreases Total(s.todo)
  {
    if h :| 0 <= h < |keep| && keep[h] < |s.todo[h]| {
      var a, t := FeedOne(size, s, h);
      TotalUpdate(s.todo, h, s.todo[h][1..]);
      var b;
      b, s' := Feed(size, t, keep);
      acts := a + b;
      RunsOn(size, s, a, t, b, s');
    } else {
      acts, s' := [], s;
      assert Lengths(s.todo) == keep;
    }
  }

  lemma {:induction false} TakeAll(size: nat, s: State) returns (acts: seq<Act>, s': State)
    ensures Runs(size, s, acts, s') && s'.queue == [] && s'.hands == s.hands && s'.todo == s.todo
    decreases |s.queue|
  {
    if s.queue == [] {
      acts, s' := [], s;
    } else {
      var t := Do(size, s, Take);
      OneStep(size, s, Take);
      var b;
      b, s' := TakeAll(size, t);
      acts := [Take] + b;
      RunsOn(size, s, [Take], t, b, s');
    }
  }

  lemma {:induction false} SumZeros(n: nat)
    ensures Sum(Repeat<nat>(0, n)) == 0
  {
    if n > 0 {
      SumZeros(n - 1);
      assert Repeat<nat>(0, n)[..n - 1] == Repeat<nat>(0, n - 1);
    }
  }

  /** 1 at the given places, and 0 elsewhere. */
  lemma Marks(n: nat, hs: seq<nat>) returns (keep: seq<nat>)
    requires 1 <= |hs| <= 2 && NoDup(hs) && forall k :: 0 <= k < |hs| ==> hs[k] < n
    ensures |keep| == n && Sum(keep) == |hs|
    ensures forall h :: 0 <= h < n ==> keep[h] == if h in hs then 1 else 0
  {
    hide Sum;
    var none := Repeat<nat>(0, n);
    SumZeros(n);
    keep := none[hs[0] := 1];
    SumUpdate(none, hs[0], 1);
    if |hs| == 2 {
      SumUpdate(keep, hs[1], 1);
      keep := keep[hs[1] := 1];
    }
  }

  /** Hand over everything except one message of each of the given connections. */
  lemma FeedBut(size: nat, input: seq<seq<Message>>, hs: seq<nat>) returns (acts: seq<Act>, s: State)
    requires size > 0 && 1 <= |hs| <= 2 && NoDup(hs) && Total(input) >= size + |hs|
    requires forall k :: 0 <= k < |hs| ==> hs[k] < |input| && input[hs[k]] != []
    ensures Runs(size, Start(input), acts, s) && Resting(size, s) && |s.queue| == size && |s.todo| == |input|
    ensures forall h :: 0 <= h < |input| ==> |s.todo[h]| == if h in hs then 1 else 0
  {
    hide Runs, Resting;
    var keep := Marks(|input|, hs);
    acts, s := Feed(size, Start(input), keep);
    assert forall h :: 0 <= h < |input| ==> |s.todo[h]| == Lengths(s.todo)[h];
  }

  // ------------------------------------------------------------ the second put that fails

  ghost predicate TwoSenders(input: seq<seq<Message>>) {
    exists g, h :: 0 <= g < h < |input| && input[g] != [] && input[h] != []
  }

  ghost predicate SomeBroken(s: State) {
    exists h :: 0 <= h < |s.hands| && s.hands[h].Broken?
  }

  /** With a single sending thread there is room when it retries. */
  ghost predicate RoomToRetry(size: nat, s: State) {
    forall h :: 0 <= h < |s.hands| ==> !s.hands[h].Broken? && (s.hands[h].Retrying? ==> |s.queue| < size)
  }

  lemma OthersIdle(input: seq<seq<Message>>, s: State, g: nat, h: nat)
    requires ThreadsOk(input, s) && !TwoSenders(input) && g < |input| && h < |input| && g != h
    requires !s.hands[g].Idle?
    ensures s.hands[h].Idle? && s.todo[h] == []
  {
    assert input[g] == From(s.entered, g) + InHand(s.hands[g]) + s.todo[g];
    assert input[g] != [];
    assert input[h] == [];
    assert |From(s.entered, h) + InHand(s.hands[h]) + s.todo[h]| == 0;
  }

  lemma QueueFits(size: nat, s: State)
    requires QueueOk(size, s)
    ensures |s.queue| <= size
  {
  }

  lemma StepRoom(size: nat, input: seq<seq<Message>>, s: State, a: Act)
    requires Inv(size, input, s) && !TwoSenders(input) && RoomToRetry(size, s) && Enabled(s, a)
    ensures RoomToRetry(size, Do(size, s, a))
  {
    hide QueueOk, HandsOk, TwoSenders, Texts, From;
    QueueFits(size, s);
    var s' := Do(size, s, a);
    forall h | 0 <= h < |s'.hands| ensures !s'.hands[h].Broken? && (s'.hands[h].Retrying? ==> |s'.queue| < size) {
      if !a.Take? && a.h != h && s.hands[h].Retrying? {
        OthersIdle(input, s, h, a.h);
      }
    }
  }

  lemma {:induction false} RunRoom(size: nat, input: seq<seq<Message>>, s: State, acts: seq<Act>, s': State)
    requires Inv(size, input, s) && !TwoSenders(input) && RoomToRetry(size, s) && Runs(size, s, acts, s')
    ensures RoomToRetry(size, s')
    decreases acts
  {
    hide QueueOk, ThreadsOk, HandsOk, Do, TwoSenders, RoomToRetry;
    if acts != [] {
      StepQueue(size, s, acts[0]);
      StepThreads(size, input, s, acts[0]);
      StepHands(size, s, acts[0]);
      StepRoom(size, input, s, acts[0]);
      RunRoom(size, input, Do(size, s, acts[0]), acts[1..], s');
    }
  }

  lemma TotalAtLeast(ss: seq<seq<Message>>, h: nat)
    requires h < |ss|
    ensures Total(ss) >= |ss[h]|
  {
    TotalUpdate(ss, h, []);
  }

  /** What is outside the queue and what has entered it are all the messages. */
  lemma Conserved(size: nat, input: seq<seq<Message>>, s: State)
    requires Reachable(size, input, s)
    ensures Inv(size, input, s) && Outside(s) + |s.entered| == Total(input)
  {
    hide Outside, QueueOk, ThreadsOk, HandsOk, Total;
    var acts :| Runs(size, Start(input), acts, s);
    StartInv(size, input);
    RunInv(size, input, Start(input), acts, s);
    RunCount(size, Start(input), acts, s);
    StartOutside(input);
  }

  lemma StartOutside(input: seq<seq<Message>>)
    ensures Outside(Start(input)) == Total(input)
  {
    forall h | 0 <= h < |input| ensures InHands(Start(input))[h] == input[h] {
      assert [] + input[h] == input[h];
    }
    assert InHands(Start(input)) == input;
  }

  lemma BrokenNeeds(size: nat, input: seq<seq<Message>>, s: State)
    requires Reachable(size, input, s) && SomeBroken(s)
    ensures TwoSenders(input) && Total(input) >= size + 2
  {
    hide Total, TwoSenders, QueueOk;
    Conserved(size, input, s);
    var h :| 0 <= h < |s.hands| && s.hands[h].Broken?;
    TotalAtLeast(InHands(s), h);
    if !TwoSenders(input) {
      var acts :| Runs(size, Start(input), acts, s);
      StartInv(size, input);
      RunRoom(size, input, Start(input), acts, s);
      assert false;
    }
  }

  lemma BreakOne(size: nat, input: seq<seq<Message>>) returns (s: State)
    requires size > 0 && TwoSenders(input) && Total(input) >= size + 2
    ensures Reachable(size, input, s) && SomeBroken(s)
  {
    hide Total, Runs;
    var g, h :| 0 <= g < h < |input| && input[g] != [] && input[h] != [];
    var acts, s0 := FeedBut(size, input, [g, h]);
    var s1 := Do(size, s0, Put(g));
    OneStep(size, s0, Put(g));
    var s2 := Do(size, s1, Drop(g));
    OneStep(size, s1, Drop(g));
    var s3 := Do(size, s2, Put(h));
    OneStep(size, s2, Put(h));
    s := Do(size, s3, PutAgain(g));
    OneStep(size, s3, PutAgain(g));
    assert s.hands[g].Broken?;
    RunsOn(size, Start(input), acts, s0, [Put(g)], s1);
    RunsOn(size, Start(input), acts + [Put(g)], s1, [Drop(g)], s2);
    RunsOn(size, Start(input), acts + [Put(g)] + [Drop(g)], s2, [Put(h)], s3);
    RunsOn(size, Start(input), acts + [Put(g)] + [Drop(g)] + [Put(h)], s3, [PutAgain(g)], s);
  }

  /** The second put of _handle_queue_full can fail, losing its message and the connection, exactly when two connections send
      and there are at least two messages more than the queue holds. */
  lemma BreaksExactlyWhen(size: nat, input: seq<seq<Message>>)
    requires size > 0
    ensures (exists s :: Reachable(size, input, s) && SomeBroken(s)) <==> TwoSenders(input) && Total(input) >= size + 2
  {
    hide Reachable, TwoSenders, Total;
    if s :| Reachable(size, input, s) && SomeBroken(s) {
      BrokenNeeds(size, input, s);
    }
    if TwoSenders(input) && Total(input) >= size + 2 {
      var s := BreakOne(size, input);
    }
  }

  // ------------------------------------------------------------ the get that waits forever

  ghost predicate Final(s: State) {
    forall a :: !Enabled(s, a)
  }

  /** A thread waits in the get of _handle_queue_full on a queue that is empty, and nothing will ever fill it. */
  ghost predicate Stuck(s: State) {
    Final(s) && exists h :: 0 <= h < |s.hands| && s.hands[h].SawFull?
  }

  lemma StickOne(size: nat, input: seq<seq<Message>>) returns (s: State)
    requires size > 0 && Total(input) > size
    ensures Reachable(size, input, s) && Stuck(s)
  {
    hide Total, Runs;
    var h := SomeSender(input);
    var acts, s0 := FeedBut(size, input, [h]);
    var s1 := Do(size, s0, Put(h));
    OneStep(size, s0, Put(h));
    var rest;
    rest, s := TakeAll(size, s1);
    assert s.hands[h].SawFull?;
    RunsOn(size, Start(input), acts, s0, [Put(h)], s1);
    RunsOn(size, Start(input), acts + [Put(h)], s1, rest, s);
    forall a ensures !Enabled(s, a) {
    }
  }

  lemma {:induction false} SomeSender(input: seq<seq<Message>>) returns (h: nat)
    requires Total(input) > 0
    ensures h < |input| && input[h] != []
  {
    var last := |input| - 1;
    if input[last] != [] {
      h := last;
    } else {
      assert Lengths(input)[..last] == Lengths(input[..last]);
      h := SomeSender(input[..last]);
    }
  }

  /** A thread can be left waiting forever, its message neither queued nor dropped, exactly when there are more messages than
      the queue holds. */
  lemma SticksExactlyWhen(size: nat, input: seq<seq<Message>>)
    requires size > 0
    ensures (exists s :: Reachable(size, input, s) && Stuck(s)) <==> Total(input) > size
  {
    hide Total, Runs;
    if s :| Reachable(size, input, s) && Stuck(s) {
      Conserved(size, input, s);
      var h :| 0 <= h < |s.hands| && s.hands[h].SawFull?;
      TotalAtLeast(InHands(s), h);
    }
    if Total(input) > size {
      var s := StickOne(size, input);
    }
  }

  /** At the end everything has been queued, and is delivered or was dropped, unless some thread is broken or stuck. */
  lemma FinalIsComplete(size: nat, input: seq<seq<Message>>, s: State)
    requires Reachable(size, input, s) && Final(s) && !Stuck(s) && !SomeBroken(s)
    ensures s.queue == [] && |s.fates| == |s.entered|
    ensures forall h :: 0 <= h < |input| ==> From(s.entered, h) == input[h]
  {
    hide Texts, From;
    Conserved(size, input, s);
    assert !Enabled(s, Take);
    forall h | 0 <= h < |input| ensures From(s.entered, h) == input[h] {
      assert !Enabled(s, Put(h)) && !Enabled(s, PutAgain(h));
      assert From(s.entered, h) + InHand(s.hands[h]) + s.todo[h] == input[h];
    }
  }
}
