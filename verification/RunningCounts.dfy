module RunningCounts {
  /** Requests in flight per node and time slice (exporters/exporter_coordinator.py). */

  import opened Basics
  import opened RidText

  type Rid = nat

  /** Microseconds; None is a time stamp that cannot be parsed. */
  type Stamp = Option<nat>

  // ------------------------------------------------------------ time slices

  const SECOND := 1_000_000

  /** The second a time falls in. */
  function SecondOf(us: nat): (s: nat)
    ensures s * SECOND <= us < (s + 1) * SECOND
  {
    us / SECOND
  }

  /** The second with which its minute begins. */
  function MinuteOf(us: nat): (m: nat)
    ensures m % 60 == 0 && m <= SecondOf(us) < m + 60
  {
    SecondOf(us) / 60 * 60
  }

  /** safe_extract_minute: within its minute a time is moved down to a multiple of the interval, in seconds. */
  function Slice(us: nat, interval: nat): nat
    requires interval > 0
  {
    MinuteOf(us) + Down(SecondOf(us) % 60, interval)
  }

  /** x // d * d */
  function Down(x: nat, d: nat): (r: nat)
    requires d > 0
    ensures r <= x < r + d
  {
    x / d * d
  }

  lemma SecondInMinute(us: nat)
    ensures SecondOf(us) == MinuteOf(us) + SecondOf(us) % 60
  {
  }

  /** A multiple of the interval, counted from the start of the minute, with no later one up to the time. */
  predicate LastMultiple(us: nat, interval: nat, time: nat)
    requires interval > 0
  {
    MinuteOf(us) <= time <= SecondOf(us) < time + interval && (time - MinuteOf(us)) % interval == 0
  }

  /** The slice is the last multiple of the interval in its minute that is not later than the time, and nothing else is. */
  lemma SliceInMinute(us: nat, interval: nat)
    requires interval > 0
    ensures forall time: nat :: LastMultiple(us, interval, time) <==> time == Slice(us, interval)
  {
    hide MinuteOf, SecondOf, Down;
    var s := SecondOf(us) % 60;
    SecondInMinute(us);
    DownIsMultiple(s, interval);
    forall time: nat | LastMultiple(us, interval, time) ensures time == Slice(us, interval) {
      var x, y := time - MinuteOf(us), Down(s, interval);
      if x < y {
        NoneBetween(x, y, interval);
        assert false;
      } else if y < x {
        NoneBetween(y, x, interval);
        assert false;
      }
    }
  }

  lemma DownIsMultiple(x: nat, d: nat)
    requires d > 0
    ensures Down(x, d) % d == 0
  {
    MultipleOf(x / d, d);
  }

  lemma DivMod(t: nat, d: nat)
    requires d > 0
    ensures t == t / d * d + t % d
  {
  }

  lemma MultipleOf(k: nat, d: nat)
    requires d > 0
    ensures k * d % d == 0
  {
    DivMod(k * d, d);
    SameQuotient(k * d / d, k, d, k * d);
  }

  lemma SameQuotient(j: nat, k: nat, d: nat, x: nat)
    requires d > 0 && j * d <= x < j * d + d && k * d <= x < k * d + d
    ensures j == k
  {
    if j < k {
      MulMonotone(j + 1, k, d);
      assert false;
    } else if k < j {
      MulMonotone(k + 1, j, d);
      assert false;
    }
  }

  /** A new slice begins at the second. */
  predicate Boundary(minute: nat, interval: nat, second: nat)
    requires interval > 0
  {
    minute <= second && (second - minute) % interval == 0
  }

  /** Two times of one minute share their slice exactly when no slice begins after the first and up to the second. */
  lemma SameSliceExactlyWhen(a: nat, b: nat, interval: nat)
    requires interval > 0 && a <= b && MinuteOf(a) == MinuteOf(b)
    ensures Slice(a, interval) == Slice(b, interval) <==>
            forall second: nat :: SecondOf(a) < second <= SecondOf(b) ==> !Boundary(MinuteOf(a), interval, second)
  {
    hide Slice, SecondOf, MinuteOf;
    SliceInMinute(a, interval);
    SliceInMinute(b, interval);
    var x, y := Slice(a, interval), Slice(b, interval);
    assert LastMultiple(a, interval, x) && LastMultiple(b, interval, y);
    if x == y {
      forall second: nat | SecondOf(a) < second <= SecondOf(b) ensures !Boundary(MinuteOf(a), interval, second) {
        if Boundary(MinuteOf(a), interval, second) {
          NoneBetween(x - MinuteOf(a), second - MinuteOf(a), interval);
          assert false;
        }
      }
    } else {
      assert Boundary(MinuteOf(a), interval, y);
      if y <= SecondOf(a) {
        SliceMonotone(a, b, interval);
        NoneBetween(x - MinuteOf(a), y - MinuteOf(a), interval);
        assert false;
      }
    }
  }

  /** Between two multiples that are next to each other there is none. */
  lemma NoneBetween(x: nat, y: nat, d: nat)
    requires d > 0 && x % d == 0 && y % d == 0 && x < y
    ensures x + d <= y
  {
    DivMod(x, d);
    DivMod(y, d);
    if x / d >= y / d {
      MulMonotone(y / d, x / d, d);
      assert false;
    }
    MulMonotone(x / d + 1, y / d, d);
  }

  /** Later times are in later slices, or the same. */
  lemma SliceMonotone(a: nat, b: nat, interval: nat)
    requires interval > 0 && a <= b
    ensures Slice(a, interval) <= Slice(b, interval)
  {
    hide Down, MinuteOf;
    SecondMonotone(a, b);
    if MinuteOf(a) == MinuteOf(b) {
      SecondInMinute(a);
      SecondInMinute(b);
      DownMonotone(SecondOf(a) % 60, SecondOf(b) % 60, interval);
    }
  }

  lemma SecondMonotone(a: nat, b: nat)
    requires a <= b
    ensures SecondOf(a) <= SecondOf(b) && MinuteOf(a) <= MinuteOf(b)
    ensures MinuteOf(a) < MinuteOf(b) ==> MinuteOf(a) + 60 <= MinuteOf(b)
  {
    DivMonotone(a, b, SECOND);
    DivMonotone(SecondOf(a), SecondOf(b), 60);
  }

  lemma DownMonotone(x: nat, y: nat, d: nat)
    requires d > 0 && x <= y
    ensures Down(x, d) <= Down(y, d)
  {
    DivMonotone(x, y, d);
    MulMonotone(x / d, y / d, d);
  }

  lemma DivMonotone(a: nat, b: nat, d: nat)
    requires d > 0 && a <= b
    ensures a / d <= b / d
  {
    if a / d > b / d {
      MulMonotone(b / d + 1, a / d, d);
      assert false;
    }
  }

  lemma MulMonotone(a: nat, b: nat, d: nat)
    requires a <= b
    ensures a * d <= b * d
  {
  }

  // ------------------------------------------------------------ the clamped recurrence

  /** The running count after the given net changes. */
  function Clamped(nets: seq<int>): int {
    if nets == [] then 0
    else
      var c := Clamped(nets[..|nets| - 1]) + nets[|nets| - 1];
      if c < 0 then 0 else c
  }

  ghost function SumOf(nets: seq<int>): int {
    if nets == [] then 0 else SumOf(nets[..|nets| - 1]) + nets[|nets| - 1]
  }

  /** The least of 0 and all prefix sums. */
  ghost function Lowest(nets: seq<int>): (m: int)
    ensures m <= 0 && (nets != [] ==> m <= SumOf(nets))
  {
    if nets == [] then 0
    else
      var m, s := Lowest(nets[..|nets| - 1]), SumOf(nets);
      if s < m then s else m
  }

  /** The sum of the first k net changes. */
  ghost function PrefixSum(nets: seq<int>, k: nat): int
    requires k <= |nets|
  {
    SumOf(nets[..k])
  }

  lemma PrefixOf(nets: seq<int>, m: nat, k: nat)
    requires k <= m <= |nets|
    ensures PrefixSum(nets[..m], k) == PrefixSum(nets, k) && PrefixSum(nets, |nets|) == SumOf(nets) && PrefixSum(nets, 0) == 0
  {
    assert nets[..m][..k] == nets[..k] && nets[..|nets|] == nets && nets[..0] == [];
  }

  /** Lowest is one of the prefix sums, and below all of them. */
  lemma {:induction false} LowestIsLeast(nets: seq<int>) returns (j: nat)
    ensures j <= |nets| && Lowest(nets) == PrefixSum(nets, j)
    ensures forall k: nat :: k <= |nets| ==> Lowest(nets) <= PrefixSum(nets, k)
  {
    hide PrefixSum;
    PrefixOf(nets, |nets|, 0);
    if nets == [] {
      j := 0;
    } else {
      var front := nets[..|nets| - 1];
      j := LowestIsLeast(front);
      forall k: nat | k <= |front| ensures PrefixSum(front, k) == PrefixSum(nets, k) {
        PrefixOf(nets, |nets| - 1, k);
      }
      if SumOf(nets) < Lowest(front) {
        j := |nets|;
      }
    }
  }

  /** The recurrence in closed form. */
  lemma {:induction false} ClampedIs(nets: seq<int>)
    ensures Clamped(nets) == SumOf(nets) - Lowest(nets)
  {
    if nets != [] {
      ClampedIs(nets[..|nets| - 1]);
    }
  }

  /** So it is the plain sum exactly when no prefix sum so far is negative: then the clamp never fires. */
  lemma PlainExactlyWhen(nets: seq<int>, m: nat)
    requires m <= |nets|
    ensures Clamped(nets[..m]) == PrefixSum(nets, m) <==> forall k: nat :: k <= m ==> PrefixSum(nets, k) >= 0
  {
    hide PrefixSum;
    ClampedIs(nets[..m]);
    var j := LowestIsLeast(nets[..m]);
    forall k: nat | k <= m ensures PrefixSum(nets[..m], k) == PrefixSum(nets, k) {
      PrefixOf(nets, m, k);
    }
    PrefixOf(nets[..m], m, m);
    PrefixOf(nets, m, m);
    LowestNotAbove(nets[..m]);
  }

  lemma LowestNotAbove(nets: seq<int>)
    ensures Lowest(nets) <= 0
  {
  }

  // ------------------------------------------------------------ the timeline

  /** What a message may hold as an address: nothing, text, or something that is neither, such as NaN. */
  datatype Address = Missing | Other | At(text: Text)

  /** The address passes as true: NaN does, too. */
  predicate Truthy(a: Address) {
    a.Other? || (a.At? && a.text != [])
  }

  /** The rows of the log that matter. */
  datatype Event =
    | Dispatch(rid: Rid, at: Stamp, prefill: Address, decode: Address)
    | Token(rid: Rid, at: Stamp)
    | Finish(rid: Rid, at: Stamp)

  datatype Node = Prefill | Decode

  datatype Record = Record(rid: Rid, address: Address, at: Stamp, node: Node, start: bool)

  /** The first row of the request that is of the wanted kind is at position i. */
  ghost predicate FirstAt(events: seq<Event>, wanted: Event -> bool, rid: Rid, i: nat) {
    && i < |events| && wanted(events[i]) && events[i].rid == rid
    && forall k :: 0 <= k < i ==> !(wanted(events[k]) && events[k].rid == rid)
  }

  lemma {:induction false} FirstOfIsFirst(events: seq<Event>, wanted: Event -> bool, rid: Rid)
    ensures FirstOf(events, wanted, rid).None? <==> forall i: nat :: !FirstAt(events, wanted, rid, i)
    ensures FirstOf(events, wanted, rid).Some? ==>
              exists i: nat :: FirstAt(events, wanted, rid, i) && FirstOf(events, wanted, rid).value == events[i]
  {
    if events != [] {
      FirstOfIsFirst(events[1..], wanted, rid);
      if wanted(events[0]) && events[0].rid == rid {
        assert FirstAt(events, wanted, rid, 0);
      } else {
        forall i: nat | FirstAt(events[1..], wanted, rid, i) ensures FirstAt(events, wanted, rid, i + 1) {
          assert forall k :: 0 < k <= i ==> events[k] == events[1..][k - 1];
        }
      }
    }
  }

  /** The first row of a request that is of the wanted kind. */
  function FirstOf(events: seq<Event>, wanted: Event -> bool, rid: Rid): (e: Option<Event>)
    ensures e.Some? ==> e.value in events && wanted(e.value) && e.value.rid == rid
    ensures e.None? ==> forall x :: x in events && x.rid == rid ==> !wanted(x)
  {
    if events == [] then None
    else if wanted(events[0]) && events[0].rid == rid then Some(events[0])
    else
      assert events == [events[0]] + events[1..];
      FirstOf(events[1..], wanted, rid)
  }

  function DispatchOf(events: seq<Event>, rid: Rid): (e: Option<Event>)
    ensures e.Some? ==> e.value.Dispatch?
  {
    FirstOf(events, (e: Event) => e.Dispatch?, rid)
  }

  function TokenOf(events: seq<Event>, rid: Rid): (e: Option<Event>)
    ensures e.Some? ==> e.value.Token?
  {
    FirstOf(events, (e: Event) => e.Token?, rid)
  }

  function FinishOf(events: seq<Event>, rid: Rid): (e: Option<Event>)
    ensures e.Some? ==> e.value.Finish?
  {
    FirstOf(events, (e: Event) => e.Finish?, rid)
  }

  function PrefillAddress(events: seq<Event>, rid: Rid): Address {
    var d := DispatchOf(events, rid);
    if d.Some? then d.value.prefill else Missing
  }

  function DecodeAddress(events: seq<Event>, rid: Rid): Address {
    var d := DispatchOf(events, rid);
    if d.Some? then d.value.decode else Missing
  }

  /** The records of one request, as the body of the loop of build_prefill_decode_timeline makes them. */
  function RecordsOf(events: seq<Event>, rid: Rid): seq<Record> {
    var prefill, decode := PrefillAddress(events, rid), DecodeAddress(events, rid);
    var token, finish := TokenOf(events, rid), FinishOf(events, rid);
    (if Truthy(prefill) then [Record(rid, prefill, DispatchOf(events, rid).value.at, Prefill, true)] else [])
    + (if Truthy(prefill) && token.Some? then [Record(rid, prefill, token.value.at, Prefill, false)] else [])
    + (if Truthy(prefill) && token.Some? && Truthy(decode) then [Record(rid, decode, token.value.at, Decode, true)] else [])
    + (if finish.Some? && Truthy(decode) then [Record(rid, decode, finish.value.at, Decode, false)] else [])
  }

  function Timeline(events: seq<Event>, rids: seq<Rid>): seq<Record> {
    if rids == [] then [] else Timeline(events, rids[..|rids| - 1]) + RecordsOf(events, rids[|rids| - 1])
  }

  /** build_prefill_decode_timeline, with the groups in the order of `rids`. */
  method BuildTimeline(events: seq<Event>, rids: seq<Rid>) returns (records: seq<Record>)
    ensures records == Timeline(events, rids)
  {
    hide FirstOf;
    records := [];
    for k := 0 to |rids|
      invariant records == Timeline(events, rids[..k])
    {
      assert rids[..k + 1][..k] == rids[..k];
      var rid := rids[k];
      ghost var before := records;
      var dispatch := DispatchOf(events, rid);
      var prefill := if dispatch.Some? then dispatch.value.prefill else Missing;
      var decode := if dispatch.Some? then dispatch.value.decode else Missing;
      var mine := [];
      if dispatch.Some? && Truthy(prefill) {
        mine := mine + [Record(rid, prefill, dispatch.value.at, Prefill, true)];
      }
      var token := TokenOf(events, rid);
      if token.Some? && Truthy(prefill) {
        mine := mine + [Record(rid, prefill, token.value.at, Prefill, false)];
        if Truthy(decode) {
          mine := mine + [Record(rid, decode, token.value.at, Decode, true)];
        }
      }
      var finish := FinishOf(events, rid);
      if finish.Some? && Truthy(decode) {
        mine := mine + [Record(rid, decode, finish.value.at, Decode, false)];
      }
      assert mine == RecordsOf(events, rid);
      records := records + mine;
    }
    assert rids[..|rids|] == rids;
  }

  // ------------------------------------------------------------ the statistics

  datatype Stat = Stat(time: nat, address: Text, node: Node, adds: nat, ends: nat)

  /** The record counts: its time can be parsed and its address is text that is not blank. */
  predicate Counted(r: Record) {
    r.at.Some? && r.address.At? && Strip(r.address.text) != []
  }

  /** The record is a start, or an end, at the node in the slice. */
  predicate Falls(r: Record, interval: nat, address: Text, node: Node, start: bool, time: nat)
    requires interval > 0
  {
    Counted(r) && r.address == At(address) && r.node == node && r.start == start && Slice(r.at.value, interval) == time
  }

  function CountAt(records: seq<Record>, interval: nat, address: Text, node: Node, start: bool, time: nat): nat
    requires interval > 0
  {
    if records == [] then 0
    else CountAt(records[..|records| - 1], interval, address, node, start, time)
         + if Falls(records[|records| - 1], interval, address, node, start, time) then 1 else 0
  }

  /** How many starts, or ends, there are at the node up to the slice. */
  ghost function CountUpTo(records: seq<Record>, interval: nat, address: Text, node: Node, start: bool, time: nat): nat
    requires interval > 0
  {
    if records == [] then 0
    else
      var r := records[|records| - 1];
      CountUpTo(records[..|records| - 1], interval, address, node, start, time)
      + if Counted(r) && r.address == At(address) && r.node == node && r.start == start && Slice(r.at.value, interval) <= time then 1 else 0
  }

  /** The rows of one node, in order. */
  function RowsOf(stats: seq<Stat>, address: Text, node: Node): seq<Stat> {
    if stats == [] then []
    else
      var front, s := stats[..|stats| - 1], stats[|stats| - 1];
      RowsOf(front, address, node) + if s.address == address && s.node == node then [s] else []
  }

  function Nets(rows: seq<Stat>): (nets: seq<int>)
    ensures |nets| == |rows| && forall i :: 0 <= i < |rows| ==> nets[i] == rows[i].adds - rows[i].ends
  {
    if rows == [] then [] else Nets(rows[..|rows| - 1]) + [rows[|rows| - 1].adds - rows[|rows| - 1].ends]
  }

  /** What grouping and sorting give for one node: its slices in ascending order, each once, every slice in which a record falls,
      and the counts of starts and ends in it. */
  ghost predicate Grouped(records: seq<Record>, interval: nat, address: Text, node: Node, rows: seq<Stat>)
    requires interval > 0
  {
    && (forall i, j :: 0 <= i < j < |rows| ==> rows[i].time < rows[j].time)
    && (forall i :: 0 <= i < |rows| ==>
          && rows[i].adds == CountAt(records, interval, address, node, true, rows[i].time)
          && rows[i].ends == CountAt(records, interval, address, node, false, rows[i].time))
    && forall r :: r in records && Counted(r) && r.address == At(address) && r.node == node ==>
         exists i :: 0 <= i < |rows| && rows[i].time == Slice(r.at.value, interval)
  }

  /** The running count of a node after some rows of the table. */
  function Level(stats: seq<Stat>, address: Text, node: Node): int {
    Clamped(Nets(RowsOf(stats, address, node)))
  }

  function Bounded(count: int): int {
    if count < 0 then 0 else count
  }

  /** The loop that computes running_count. */
  method RunningCount(stats: seq<Stat>) returns (running: seq<int>)
    ensures |running| == |stats|
    ensures forall i :: 0 <= i < |stats| ==> running[i] == Level(stats[..i + 1], stats[i].address, stats[i].node)
  {
    hide Level;
    var counts: map<(Text, Node), int> := map[];
    running := [];
    NothingRunning();
    for i := 0 to |stats|
      invariant |running| == i
      invariant forall a, n :: (if (a, n) in counts then counts[(a, n)] else 0) == Level(stats[..i], a, n)
      invariant forall k :: 0 <= k < i ==> running[k] == Level(stats[..k + 1], stats[k].address, stats[k].node)
    {
      var s := stats[i];
      var key := (s.address, s.node);
      ghost var before := counts;
      var count := Bounded((if key in counts then counts[key] else 0) + (s.adds - s.ends));
      assert stats[..i + 1] == stats[..i] + [s];
      OneMoreRow(stats[..i], s, s.address, s.node);
      counts := counts[key := count];
      running := running + [count];
      forall a, n ensures (if (a, n) in counts then counts[(a, n)] else 0) == Level(stats[..i + 1], a, n) {
        OneMoreRow(stats[..i], s, a, n);
        assert (a, n) != key ==> ((a, n) in counts <==> (a, n) in before);
      }
    }
  }

  lemma NothingRunning()
    ensures forall a, n :: Level([], a, n) == 0
  {
  }

  lemma OneMoreRow(stats: seq<Stat>, s: Stat, a: Text, n: Node)
    ensures Level(stats + [s], a, n) ==
            if s.address == a && s.node == n then Bounded(Level(stats, a, n) + (s.adds - s.ends)) else Level(stats, a, n)
  {
    assert (stats + [s])[..|stats|] == stats;
    var rows := RowsOf(stats, a, n);
    if s.address == a && s.node == n {
      assert RowsOf(stats + [s], a, n) == rows + [s];
      NetsMore(rows, s);
      ClampedMore(Nets(rows), s.adds - s.ends);
    } else {
      assert rows + [] == rows;
    }
  }

  lemma NetsMore(rows: seq<Stat>, s: Stat)
    ensures Nets(rows + [s]) == Nets(rows) + [s.adds - s.ends]
  {
    assert (rows + [s])[..|rows|] == rows;
  }

  lemma ClampedMore(nets: seq<int>, d: int)
    ensures Clamped(nets + [d]) == Bounded(Clamped(nets) + d)
  {
    assert (nets + [d])[..|nets|] == nets;
  }

  // ------------------------------------------------------------ the sums of the rows

  lemma {:induction false} CountsAddUp(records: seq<Record>, interval: nat, address: Text, node: Node, start: bool, times: seq<nat>, i: nat)
    requires interval > 0 && i < |times| && forall x, y :: 0 <= x < y < |times| ==> times[x] < times[y]
    requires forall r :: r in records && Counted(r) && r.address == At(address) && r.node == node ==>
               Slice(r.at.value, interval) in times
    ensures CountSum(records, interval, address, node, start, times, i + 1) ==
            CountUpTo(records, interval, address, node, start, times[i])
  {
    hide Slice, Counted;
    if records == [] {
      NoRecords(interval, address, node, start, times, i + 1);
    } else {
      var front, r := records[..|records| - 1], records[|records| - 1];
      assert records == front + [r];
      CountsAddUp(front, interval, address, node, start, times, i);
      OneMoreRecord(records, interval, address, node, start, times, i + 1);
    }
  }

  ghost function CountSum(records: seq<Record>, interval: nat, address: Text, node: Node, start: bool, times: seq<nat>, n: nat): nat
    requires interval > 0 && n <= |times|
  {
    if n == 0 then 0
    else CountSum(records, interval, address, node, start, times, n - 1) + CountAt(records, interval, address, node, start, times[n - 1])
  }

  lemma {:induction false} NoRecords(interval: nat, address: Text, node: Node, start: bool, times: seq<nat>, n: nat)
    requires interval > 0 && n <= |times|
    ensures CountSum([], interval, address, node, start, times, n) == 0
  {
    if n > 0 {
      NoRecords(interval, address, node, start, times, n - 1);
    }
  }

  /** One record is in at most one slice. */
  lemma {:induction false} OneMoreRecord(records: seq<Record>, interval: nat, address: Text, node: Node, start: bool, times: seq<nat>, n: nat)
    requires interval > 0 && n <= |times| && records != [] && forall x, y :: 0 <= x < y < |times| ==> times[x] < times[y]
    ensures var r := records[|records| - 1];
            CountSum(records, interval, address, node, start, times, n) ==
            CountSum(records[..|records| - 1], interval, address, node, start, times, n)
            + if Counted(r) && r.address == At(address) && r.node == node && r.start == start && Slice(r.at.value, interval) in times[..n]
              then 1 else 0
  {
    hide Slice, Counted;
    if n > 0 {
      OneMoreRecord(records, interval, address, node, start, times, n - 1);
      assert times[..n] == times[..n - 1] + [times[n - 1]];
      assert times[n - 1] !in times[..n - 1];
    }
  }

  ghost function Times(rows: seq<Stat>): (times: seq<nat>)
    ensures |times| == |rows| && forall i :: 0 <= i < |rows| ==> times[i] == rows[i].time
  {
    seq(|rows|, i requires 0 <= i < |rows| => rows[i].time)
  }

  /** The net changes of the first rows add up to the starts less the ends so far. */
  lemma {:induction false} NetsAddUp(records: seq<Record>, interval: nat, address: Text, node: Node, rows: seq<Stat>, n: nat)
    requires interval > 0 && Grouped(records, interval, address, node, rows) && n <= |rows|
    ensures PrefixSum(Nets(rows), n) == CountSum(records, interval, address, node, true, Times(rows), n)
                                      - CountSum(records, interval, address, node, false, Times(rows), n)
  {
    hide CountAt;
    if n == 0 {
      assert Nets(rows)[..0] == [];
    } else {
      NetsAddUp(records, interval, address, node, rows, n - 1);
      assert Nets(rows)[..n][..n - 1] == Nets(rows)[..n - 1];
    }
  }

  lemma GroupedTimes(records: seq<Record>, interval: nat, address: Text, node: Node, rows: seq<Stat>)
    requires interval > 0 && Grouped(records, interval, address, node, rows)
    ensures forall x, y :: 0 <= x < y < |rows| ==> Times(rows)[x] < Times(rows)[y]
    ensures forall r :: r in records && Counted(r) && r.address == At(address) && r.node == node ==>
              Slice(r.at.value, interval) in Times(rows)
  {
    hide Strip, Slice, CountAt;
    forall r | r in records && Counted(r) && r.address == At(address) && r.node == node ensures Slice(r.at.value, interval) in Times(rows) {
      var i :| 0 <= i < |rows| && rows[i].time == Slice(r.at.value, interval);
      assert Times(rows)[i] == rows[i].time;
    }
  }

  /** The net changes up to a row are the starts less the ends up to its slice. */
  lemma NetsUpTo(records: seq<Record>, interval: nat, address: Text, node: Node, rows: seq<Stat>, i: nat)
    requires interval > 0 && Grouped(records, interval, address, node, rows) && i < |rows|
    ensures PrefixSum(Nets(rows), i + 1) == CountUpTo(records, interval, address, node, true, rows[i].time)
                                          - CountUpTo(records, interval, address, node, false, rows[i].time)
  {
    hide Grouped, CountUpTo, CountSum, PrefixSum, Nets;
    GroupedTimes(records, interval, address, node, rows);
    NetsAddUp(records, interval, address, node, rows, i + 1);
    CountsAddUp(records, interval, address, node, true, Times(rows), i);
    CountsAddUp(records, interval, address, node, false, Times(rows), i);
  }

  // ------------------------------------------------------------ prefill nodes

  /** The request was dispatched to the node no later than the slice. */
  predicate Dispatched(events: seq<Event>, rid: Rid, interval: nat, address: Text, time: nat)
    requires interval > 0
  {
    && DispatchOf(events, rid).Some? && DispatchOf(events, rid).value.prefill == At(address) && Strip(address) != []
    && var at := DispatchOf(events, rid).value.at;
       at.Some? && Slice(at.value, interval) <= time
  }

  /** Its prefill has ended no later than the slice. */
  predicate Ended(events: seq<Event>, rid: Rid, interval: nat, address: Text, time: nat)
    requires interval > 0
  {
    && DispatchOf(events, rid).Some? && DispatchOf(events, rid).value.prefill == At(address) && Strip(address) != []
    && TokenOf(events, rid).Some?
    && var at := TokenOf(events, rid).value.at;
       at.Some? && Slice(at.value, interval) <= time
  }

  /** The requests in flight: dispatched to the node and not ended. */
  ghost function InFlight(events: seq<Event>, rids: seq<Rid>, interval: nat, address: Text, time: nat): nat
    requires interval > 0
  {
    if rids == [] then 0
    else
      var rid := rids[|rids| - 1];
      InFlight(events, rids[..|rids| - 1], interval, address, time)
      + if Dispatched(events, rid, interval, address, time) && !Ended(events, rid, interval, address, time) then 1 else 0
  }

  /** All time stamps can be parsed, and no request has its token before its dispatch. */
  ghost predicate Orderly(events: seq<Event>, rids: seq<Rid>) {
    forall k :: 0 <= k < |rids| && DispatchOf(events, rids[k]).Some? && Truthy(DispatchOf(events, rids[k]).value.prefill) ==>
      var d, t := DispatchOf(events, rids[k]), TokenOf(events, rids[k]);
      d.value.at.Some? && (t.Some? ==> t.value.at.Some? && d.value.at.value <= t.value.at.value)
  }

  lemma {:induction false} CountSplit(a: seq<Record>, b: seq<Record>, interval: nat, address: Text, node: Node, start: bool, time: nat)
    requires interval > 0
    ensures CountUpTo(a + b, interval, address, node, start, time) ==
            CountUpTo(a, interval, address, node, start, time) + CountUpTo(b, interval, address, node, start, time)
  {
    hide Counted, Slice;
    if b == [] {
      assert a + b == a;
    } else {
      assert (a + b)[..|a + b| - 1] == a + b[..|b| - 1];
      CountSplit(a, b[..|b| - 1], interval, address, node, start, time);
    }
  }

  lemma CountOne(r: Record, interval: nat, address: Text, node: Node, start: bool, time: nat)
    requires interval > 0
    ensures CountUpTo([r], interval, address, node, start, time) ==
            if Counted(r) && r.address == At(address) && r.node == node && r.start == start && Slice(r.at.value, interval) <= time then 1 else 0
    ensures CountUpTo([], interval, address, node, start, time) == 0
  {
    assert [r][..0] == [];
  }

  /** The records of one request at a prefill node. */
  lemma CountRequest(events: seq<Event>, rid: Rid, interval: nat, address: Text, time: nat)
    requires interval > 0
    ensures CountUpTo(RecordsOf(events, rid), interval, address, Prefill, true, time) ==
            if Dispatched(events, rid, interval, address, time) then 1 else 0
    ensures CountUpTo(RecordsOf(events, rid), interval, address, Prefill, false, time) ==
            if Ended(events, rid, interval, address, time) then 1 else 0
  {
    hide FirstOf, CountUpTo, Slice, Strip;
    var prefill, decode := PrefillAddress(events, rid), DecodeAddress(events, rid);
    var token, finish := TokenOf(events, rid), FinishOf(events, rid);
    var a := if Truthy(prefill) then [Record(rid, prefill, DispatchOf(events, rid).value.at, Prefill, true)] else [];
    var b := if Truthy(prefill) && token.Some? then [Record(rid, prefill, token.value.at, Prefill, false)] else [];
    var c := if Truthy(prefill) && token.Some? && Truthy(decode) then [Record(rid, decode, token.value.at, Decode, true)] else [];
    var d := if finish.Some? && Truthy(decode) then [Record(rid, decode, finish.value.at, Decode, false)] else [];
    assert RecordsOf(events, rid) == a + b + c + d;
    forall start: bool ensures CountUpTo(a + b + c + d, interval, address, Prefill, start, time) ==
                               CountUpTo(a, interval, address, Prefill, start, time) + CountUpTo(b, interval, address, Prefill, start, time) {
      CountSplit(a + b + c, d, interval, address, Prefill, start, time);
      CountSplit(a + b, c, interval, address, Prefill, start, time);
      CountSplit(a, b, interval, address, Prefill, start, time);
      CountFew(c, interval, address, start, time);
      CountFew(d, interval, address, start, time);
    }
    var any := Record(rid, Missing, None, Decode, false);
    CountOne(if a != [] then a[0] else any, interval, address, Prefill, true, time);
    CountOne(if a != [] then a[0] else any, interval, address, Prefill, false, time);
    CountOne(if b != [] then b[0] else any, interval, address, Prefill, true, time);
    CountOne(if b != [] then b[0] else any, interval, address, Prefill, false, time);
  }

  lemma CountFew(rs: seq<Record>, interval: nat, address: Text, start: bool, time: nat)
    requires interval > 0 && |rs| <= 1 && forall i :: 0 <= i < |rs| ==> rs[i].node == Decode
    ensures CountUpTo(rs, interval, address, Prefill, start, time) == 0
  {
    if rs != [] {
      CountOne(rs[0], interval, address, Prefill, start, time);
      assert rs == [rs[0]];
    }
  }

  /** A prefill that has ended has been dispatched. */
  lemma EndedWasDispatched(events: seq<Event>, rids: seq<Rid>, k: nat, interval: nat, address: Text, time: nat)
    requires interval > 0 && Orderly(events, rids) && k < |rids| && Ended(events, rids[k], interval, address, time)
    ensures Dispatched(events, rids[k], interval, address, time)
  {
    hide FirstOf, Slice, Strip;
    SliceMonotone(DispatchOf(events, rids[k]).value.at.value, TokenOf(events, rids[k]).value.at.value, interval);
  }

  lemma {:induction false} StartsLessEnds(events: seq<Event>, rids: seq<Rid>, interval: nat, address: Text, time: nat)
    requires interval > 0 && Orderly(events, rids)
    ensures CountUpTo(Timeline(events, rids), interval, address, Prefill, true, time)
            - CountUpTo(Timeline(events, rids), interval, address, Prefill, false, time) == InFlight(events, rids, interval, address, time)
  {
    hide RecordsOf, Dispatched, Ended, CountUpTo;
    if rids == [] {
      CountOne(Record(0, Missing, None, Decode, false), interval, address, Prefill, true, time);
      CountOne(Record(0, Missing, None, Decode, false), interval, address, Prefill, false, time);
    } else {
      var front, rid := rids[..|rids| - 1], rids[|rids| - 1];
      assert Orderly(events, front);
      StartsLessEnds(events, front, interval, address, time);
      CountSplit(Timeline(events, front), RecordsOf(events, rid), interval, address, Prefill, true, time);
      CountSplit(Timeline(events, front), RecordsOf(events, rid), interval, address, Prefill, false, time);
      CountRequest(events, rid, interval, address, time);
      if Ended(events, rid, interval, address, time) {
        EndedWasDispatched(events, rids, |rids| - 1, interval, address, time);
      }
    }
  }

  /** At a prefill node the running count of every row is the number of requests dispatched there and not ended by that slice, and
      the clamp never fires. */
  lemma PrefillCount(events: seq<Event>, rids: seq<Rid>, interval: nat, address: Text, rows: seq<Stat>, i: nat)
    requires interval > 0 && Orderly(events, rids)
    requires Grouped(Timeline(events, rids), interval, address, Prefill, rows) && i < |rows|
    ensures Clamped(Nets(rows)[..i + 1]) == PrefixSum(Nets(rows), i + 1) == InFlight(events, rids, interval, address, rows[i].time)
  {
    hide Grouped, Timeline, InFlight, Nets, PrefixSum, Clamped, Orderly;
    forall k: nat | k <= i + 1 ensures PrefixSum(Nets(rows), k) >= 0 {
      if k > 0 {
        NetsUpTo(Timeline(events, rids), interval, address, Prefill, rows, k - 1);
        StartsLessEnds(events, rids, interval, address, rows[k - 1].time);
      } else {
        PrefixOf(Nets(rows), 0, 0);
      }
    }
    PlainExactlyWhen(Nets(rows), i + 1);
    NetsUpTo(Timeline(events, rids), interval, address, Prefill, rows, i);
    StartsLessEnds(events, rids, interval, address, rows[i].time);
  }

  // ------------------------------------------------------------ the whole table

  /** What grouping and sorting give: the rows of a node in ascending order of their slices, a row for each slice in which one of
      its records falls, and the counts of starts and ends in it. */
  ghost predicate IsTable(records: seq<Record>, interval: nat, stats: seq<Stat>)
    requires interval > 0
  {
    && (forall i, j :: 0 <= i < j < |stats| && stats[i].address == stats[j].address && stats[i].node == stats[j].node ==>
          stats[i].time < stats[j].time)
    && (forall i :: 0 <= i < |stats| ==>
          && stats[i].adds == CountAt(records, interval, stats[i].address, stats[i].node, true, stats[i].time)
          && stats[i].ends == CountAt(records, interval, stats[i].address, stats[i].node, false, stats[i].time))
    && forall r :: r in records && Counted(r) ==> exists i :: 0 <= i < |stats| && RowFor(stats[i], r, interval)
  }

  predicate RowFor(s: Stat, r: Record, interval: nat)
    requires interval > 0 && Counted(r)
  {
    r.address == At(s.address) && s.node == r.node && s.time == Slice(r.at.value, interval)
  }

  /** The rows of a node are exactly its rows in the table, in their order. */
  lemma {:induction false} PlacesOf(stats: seq<Stat>, address: Text, node: Node) returns (places: seq<nat>)
    ensures |places| == |RowsOf(stats, address, node)| && forall k, l :: 0 <= k < l < |places| ==> places[k] < places[l]
    ensures forall k :: 0 <= k < |places| ==> places[k] < |stats| && RowsOf(stats, address, node)[k] == stats[places[k]]
    ensures forall k :: 0 <= k < |places| ==> stats[places[k]].address == address && stats[places[k]].node == node
    ensures forall i :: 0 <= i < |stats| && stats[i].address == address && stats[i].node == node ==> i in places
  {
    if stats == [] {
      places := [];
    } else {
      var front, s := stats[..|stats| - 1], stats[|stats| - 1];
      places := PlacesOf(front, address, node);
      if s.address == address && s.node == node {
        places := places + [|front|];
      }
    }
  }

  lemma TableGroups(records: seq<Record>, interval: nat, stats: seq<Stat>, address: Text, node: Node)
    requires interval > 0 && IsTable(records, interval, stats)
    ensures Grouped(records, interval, address, node, RowsOf(stats, address, node))
  {
    hide CountAt, Slice, RowsOf, Strip;
    var rows := RowsOf(stats, address, node);
    var places := PlacesOf(stats, address, node);
    forall r | r in records && Counted(r) && r.address == At(address) && r.node == node
      ensures exists k :: 0 <= k < |rows| && rows[k].time == Slice(r.at.value, interval) {
      var i :| 0 <= i < |stats| && RowFor(stats[i], r, interval);
      var k :| 0 <= k < |places| && places[k] == i;
      assert rows[k] == stats[i];
    }
  }

  /** The rows of the first part of the table come first. */
  lemma {:induction false} RowsOfPart(stats: seq<Stat>, m: nat, address: Text, node: Node)
    requires m <= |stats|
    ensures RowsOf(stats[..m], address, node) <= RowsOf(stats, address, node)
  {
    if m == |stats| {
      assert stats[..m] == stats;
    } else {
      RowsOfPart(stats[..|stats| - 1], m, address, node);
      assert stats[..|stats| - 1][..m] == stats[..m];
    }
  }

  /** The running count of a row of the table is the clamped sum of the net changes of its node up to the row. */
  lemma LevelInTable(stats: seq<Stat>, i: nat) returns (k: nat)
    requires i < |stats|
    ensures var rows := RowsOf(stats, stats[i].address, stats[i].node);
            && k < |rows| && rows[k] == stats[i]
            && Level(stats[..i + 1], stats[i].address, stats[i].node) == Clamped(Nets(rows)[..k + 1])
  {
    hide Clamped, Nets, RowsOf;
    var a, n := stats[i].address, stats[i].node;
    var rows, part := RowsOf(stats, a, n), RowsOf(stats[..i + 1], a, n);
    assert stats[..i + 1] == stats[..i] + [stats[i]];
    OwnRow(stats[..i], stats[i]);
    RowsOfPart(stats, i + 1, a, n);
    k := |part| - 1;
    NetsPart(rows, part);
  }

  lemma OwnRow(stats: seq<Stat>, s: Stat)
    ensures RowsOf(stats + [s], s.address, s.node) == RowsOf(stats, s.address, s.node) + [s]
  {
    assert (stats + [s])[..|stats|] == stats;
  }

  lemma NetsPart(rows: seq<Stat>, part: seq<Stat>)
    requires part <= rows
    ensures Nets(part) == Nets(rows)[..|part|]
  {
    hide Nets;
    assert forall i :: 0 <= i < |part| ==> Nets(part)[i] == Nets(rows)[i];
  }

  /** For every row of a prefill node in the table the running count is the number of requests dispatched there and not ended. */
  lemma TablePrefill(events: seq<Event>, rids: seq<Rid>, interval: nat, stats: seq<Stat>, i: nat)
    requires interval > 0 && Orderly(events, rids) && IsTable(Timeline(events, rids), interval, stats)
    requires i < |stats| && stats[i].node == Prefill
    ensures Level(stats[..i + 1], stats[i].address, Prefill) == InFlight(events, rids, interval, stats[i].address, stats[i].time)
  {
    hide IsTable, Orderly, Timeline, InFlight, Level, Grouped, RowsOf, Nets;
    var rows := RowsOf(stats, stats[i].address, Prefill);
    TableGroups(Timeline(events, rids), interval, stats, stats[i].address, Prefill);
    var k := LevelInTable(stats, i);
    PrefillCount(events, rids, interval, stats[i].address, rows, k);
  }

  /** For every row the running count is the starts less the ends at its node up to its slice, exactly when no row so far of that
      node had more ends than starts up to it. */
  lemma TableExactlyWhen(records: seq<Record>, interval: nat, stats: seq<Stat>, i: nat)
    requires interval > 0 && IsTable(records, interval, stats) && i < |stats|
    ensures var a, n := stats[i].address, stats[i].node;
            Level(stats[..i + 1], a, n) == Balance(records, interval, a, n, stats[i].time) <==>
            forall j :: 0 <= j <= i && stats[j].address == a && stats[j].node == n ==>
              Balance(records, interval, a, n, stats[j].time) >= 0
  {
    hide IsTable, Level, Grouped, RowsOf, Nets, CountUpTo, Clamped;
    var a, n := stats[i].address, stats[i].node;
    var rows := RowsOf(stats, a, n);
    TableGroups(records, interval, stats, a, n);
    var k := LevelInTable(stats, i);
    NodeCountExactlyWhen(records, interval, a, n, rows, k);
    var places := PlacesOf(stats, a, n);
    PlaceOfRow(records, interval, stats, i, places, k);
    forall j | 0 <= j <= i && stats[j].address == a && stats[j].node == n
      ensures exists l :: 0 <= l <= k && rows[l] == stats[j] {
      var l :| 0 <= l < |places| && places[l] == j;
      assert rows[l] == stats[j];
    }
    forall l | 0 <= l <= k ensures places[l] <= i && rows[l] == stats[places[l]] {
    }
  }

  /** The starts less the ends at a node up to a slice. */
  ghost function Balance(records: seq<Record>, interval: nat, address: Text, node: Node, time: nat): int
    requires interval > 0
  {
    CountUpTo(records, interval, address, node, true, time) - CountUpTo(records, interval, address, node, false, time)
  }

  /** Rows of one node have different slices, so a row has one place. */
  lemma PlaceOfRow(records: seq<Record>, interval: nat, stats: seq<Stat>, i: nat, places: seq<nat>, k: nat)
    requires interval > 0 && IsTable(records, interval, stats) && i < |stats| && k < |places|
    requires forall l :: 0 <= l < |places| ==> places[l] < |stats| && stats[places[l]].address == stats[i].address && stats[places[l]].node == stats[i].node
    requires stats[places[k]] == stats[i]
    ensures places[k] == i
  {
    hide CountAt, Slice;
    if places[k] != i {
      assert false;
    }
  }

  // ------------------------------------------------------------ any node

  /** At any node the running count of a row is the starts less the ends up to its slice, exactly when up to no slice so far there
      were more ends than starts. */
  lemma NodeCountExactlyWhen(records: seq<Record>, interval: nat, address: Text, node: Node, rows: seq<Stat>, i: nat)
    requires interval > 0 && Grouped(records, interval, address, node, rows) && i < |rows|
    ensures Clamped(Nets(rows)[..i + 1]) == CountUpTo(records, interval, address, node, true, rows[i].time)
                                            - CountUpTo(records, interval, address, node, false, rows[i].time) <==>
            forall k :: 0 <= k <= i ==> CountUpTo(records, interval, address, node, false, rows[k].time)
                                        <= CountUpTo(records, interval, address, node, true, rows[k].time)
  {
    hide Grouped, Nets, PrefixSum, Clamped, CountUpTo;
    NetsUpTo(records, interval, address, node, rows, i);
    PlainExactlyWhen(Nets(rows), i + 1);
    forall k: nat | k <= i
      ensures PrefixSum(Nets(rows), k + 1) == CountUpTo(records, interval, address, node, true, rows[k].time)
                                              - CountUpTo(records, interval, address, node, false, rows[k].time) {
      NetsUpTo(records, interval, address, node, rows, k);
    }
    PrefixOf(Nets(rows), 0, 0);
    if forall k :: 0 <= k <= i ==> CountUpTo(records, interval, address, node, false, rows[k].time)
                                   <= CountUpTo(records, interval, address, node, true, rows[k].time) {
      forall k: nat | k <= i + 1 ensures PrefixSum(Nets(rows), k) >= 0 {
        if k > 0 {
          var j: nat := k - 1;
          assert CountUpTo(records, interval, address, node, false, rows[j].time)
                 <= CountUpTo(records, interval, address, node, true, rows[j].time);
          assert PrefixSum(Nets(rows), j + 1) >= 0;
        }
      }
    } else {
      var k: nat :| k <= i && CountUpTo(records, interval, address, node, false, rows[k].time)
                              > CountUpTo(records, interval, address, node, true, rows[k].time);
      assert PrefixSum(Nets(rows), k + 1) < 0;
    }
  }

  /** The records of one request at its decode node. */
  lemma CountDecode(events: seq<Event>, rid: Rid, interval: nat, address: Text, time: nat)
    requires interval > 0 && DecodesAt(events, rid, address)
    ensures CountUpTo(RecordsOf(events, rid), interval, address, Decode, true, time) ==
            if DecodeStarts(events, rid) && Slice(TokenOf(events, rid).value.at.value, interval) <= time then 1 else 0
    ensures CountUpTo(RecordsOf(events, rid), interval, address, Decode, false, time) ==
            if DecodeEnds(events, rid) && Slice(FinishOf(events, rid).value.at.value, interval) <= time then 1 else 0
  {
    hide FirstOf, Slice, Strip, CountUpTo;
    NotBlank(address);
    var prefill, token, finish := PrefillAddress(events, rid), TokenOf(events, rid), FinishOf(events, rid);
    var a := if Truthy(prefill) then [Record(rid, prefill, DispatchOf(events, rid).value.at, Prefill, true)] else [];
    var b := if Truthy(prefill) && token.Some? then [Record(rid, prefill, token.value.at, Prefill, false)] else [];
    var c := if Truthy(prefill) && token.Some? then [Record(rid, At(address), token.value.at, Decode, true)] else [];
    var d := if finish.Some? then [Record(rid, At(address), finish.value.at, Decode, false)] else [];
    assert RecordsOf(events, rid) == a + b + c + d;
    forall start: bool ensures CountUpTo(a + b + c + d, interval, address, Decode, start, time) ==
                               CountUpTo(c, interval, address, Decode, start, time) + CountUpTo(d, interval, address, Decode, start, time) {
      CountSplit(a + b + c, d, interval, address, Decode, start, time);
      CountSplit(a + b, c, interval, address, Decode, start, time);
      CountSplit(a, b, interval, address, Decode, start, time);
      CountPrefills(a, interval, address, start, time);
      CountPrefills(b, interval, address, start, time);
    }
    var any := Record(rid, Missing, None, Decode, false);
    CountOne(if c != [] then c[0] else any, interval, address, Decode, true, time);
    CountOne(if c != [] then c[0] else any, interval, address, Decode, false, time);
    CountOne(if d != [] then d[0] else any, interval, address, Decode, true, time);
    CountOne(if d != [] then d[0] else any, interval, address, Decode, false, time);
  }

  /** Its first dispatch sends it to the node to decode, and the address is not blank. */
  predicate DecodesAt(events: seq<Event>, rid: Rid, address: Text) {
    DispatchOf(events, rid).Some? && DispatchOf(events, rid).value.decode == At(address) && Strip(address) != []
  }

  /** It has a token, at a time that can be parsed, and a prefill address. */
  predicate DecodeStarts(events: seq<Event>, rid: Rid) {
    DispatchOf(events, rid).Some? && Truthy(DispatchOf(events, rid).value.prefill) && TokenOf(events, rid).Some? && TokenOf(events, rid).value.at.Some?
  }

  predicate DecodeEnds(events: seq<Event>, rid: Rid) {
    FinishOf(events, rid).Some? && FinishOf(events, rid).value.at.Some?
  }

  lemma NotBlank(address: Text)
    requires Strip(address) != []
    ensures Truthy(At(address))
  {
  }

  lemma CountPrefills(rs: seq<Record>, interval: nat, address: Text, start: bool, time: nat)
    requires interval > 0 && |rs| <= 1 && forall i :: 0 <= i < |rs| ==> rs[i].node == Prefill
    ensures CountUpTo(rs, interval, address, Decode, start, time) == 0
  {
    if rs != [] {
      CountOne(rs[0], interval, address, Decode, start, time);
      assert rs == [rs[0]];
    }
  }

  /** There the plain count can go wrong: a request that finishes ends without ever having started, exactly if it has no token or
      no prefill address. */
  lemma EndWithoutStart(events: seq<Event>, rid: Rid, interval: nat, address: Text)
    requires interval > 0 && DecodesAt(events, rid, address) && DecodeEnds(events, rid)
    ensures DecodeStarts(events, rid) <==>
            exists time: nat :: CountUpTo(RecordsOf(events, rid), interval, address, Decode, true, time) > 0
    ensures exists time: nat :: CountUpTo(RecordsOf(events, rid), interval, address, Decode, false, time) == 1
  {
    hide RecordsOf, CountUpTo, Slice, Strip, FirstOf;
    CountDecode(events, rid, interval, address, Slice(FinishOf(events, rid).value.at.value, interval));
    if DecodeStarts(events, rid) {
      CountDecode(events, rid, interval, address, Slice(TokenOf(events, rid).value.at.value, interval));
    }
    forall time: nat {
      CountDecode(events, rid, interval, address, time);
    }
  }
}
