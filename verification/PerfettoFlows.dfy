module PerfettoFlows {
  /** Linking spans by flow events whatever the order in which they arrive (tracer/perfetto_exporter.py). */

  import opened Basics
  import opened CodePoints
  import opened PerfettoJson

  const MAX_TRACKED_SPANS := 100000

  datatype Key = Key(trace: Text, span: Text)
  datatype Position = Position(pid: int, tid: int, ts: real)
  datatype Destination = Destination(pid: int, tid: int, ts: real, flowId: Text)
  datatype Span = Span(key: Key, pid: int, tid: int, startNs: int, endNs: int, links: seq<Key>, details: Details)

  /** What an event shows of its span besides its key and its times: the names of the packet, and its attributes without
      the numbers of the process and the thread. */
  datatype Details = Details(name: Json, category: Json, attributes: seq<Member>, parent: Text, kind: int, status: int, service: Json,
                         resource: seq<Member>)

  /** A pair of flow events, as the arguments of _make_flow_events. */
  datatype Flow = Flow(source: Key, from: Position, to: Destination)

  function PositionOf(s: Span): Position {
    Position(s.pid, s.tid, s.startNs as real / 1000.0)
  }

  /** "{}:{}:{}".format(...) */
  function FlowId(source: Key, destination: Key): Text {
    source.trace + [COLON] + source.span + [COLON] + destination.span
  }

  function DestinationOf(s: Span, source: Key): Destination {
    Destination(s.pid, s.tid, s.startNs as real / 1000.0, FlowId(source, s.key))
  }

  // ------------------------------------------------------------ the tables

  /** _span_positions with its keys in insertion order, and _pending_links. */
  datatype Tables = Tables(positions: map<Key, Position>, order: seq<Key>, pending: map<Key, seq<Destination>>)

  const EMPTY := Tables(map[], [], map[])

  /** What a step emits, and the links it neither emits nor keeps because the table is full. */
  datatype Outcome = Outcome(tables: Tables, flows: seq<Flow>, refused: seq<(Key, Destination)>)

  /** _remember_position */
  function Remember(max: nat, t: Tables, key: Key, p: Position): Tables {
    var evict := |t.positions| >= max && t.order != [];
    var positions := if evict then t.positions - {t.order[0]} else t.positions;
    var order := if evict then t.order[1..] else t.order;
    t.(positions := positions[key := p], order := if key in positions then order else order + [key])
  }

  function Waiting(t: Tables, key: Key): seq<Destination> {
    if key in t.pending then t.pending[key] else []
  }

  function Joined(key: Key, p: Position, ds: seq<Destination>): (flows: seq<Flow>)
    ensures |flows| == |ds| && forall i :: 0 <= i < |ds| ==> flows[i] == Flow(key, p, ds[i])
  {
    if ds == [] then [] else Joined(key, p, ds[..|ds| - 1]) + [Flow(key, p, ds[|ds| - 1])]
  }

  /** A span arrives: it is remembered, and the links that waited for it are resolved. */
  function Arrive(max: nat, t: Tables, s: Span): Outcome {
    var t' := Remember(max, t, s.key, PositionOf(s));
    Outcome(t'.(pending := t'.pending - {s.key}), Joined(s.key, PositionOf(s), Waiting(t', s.key)), [])
  }

  /** One link of the span that arrived. */
  function Link(max: nat, t: Tables, s: Span, source: Key): Outcome {
    var d := DestinationOf(s, source);
    if source in t.positions then Outcome(t, [Flow(source, t.positions[source], d)], [])
    else if |t.pending| < max then Outcome(t.(pending := t.pending[source := Waiting(t, source) + [d]]), [], [])
    else Outcome(t, [], [(source, d)])
  }

  /** The span with its first n links. */
  function Convert(max: nat, t: Tables, s: Span, n: nat): Outcome
    requires n <= |s.links|
  {
    if n == 0 then Arrive(max, t, s)
    else
      var o := Convert(max, t, s, n - 1);
      var o' := Link(max, o.tables, s, s.links[n - 1]);
      Outcome(o'.tables, o.flows + o'.flows, o.refused + o'.refused)
  }

  function Run(max: nat, spans: seq<Span>): Outcome {
    if spans == [] then Outcome(EMPTY, [], [])
    else
      var o, s := Run(max, spans[..|spans| - 1]), spans[|spans| - 1];
      var o' := Convert(max, o.tables, s, |s.links|);
      Outcome(o'.tables, o.flows + o'.flows, o.refused + o'.refused)
  }

  // ------------------------------------------------------------ counting links

  /** How often the first n links of s name k and lead to d. */
  ghost function LinksIn(s: Span, n: nat, k: Key, d: Destination): nat
    requires n <= |s.links|
  {
    if n == 0 then 0 else LinksIn(s, n - 1, k, d) + if s.links[n - 1] == k && DestinationOf(s, k) == d then 1 else 0
  }

  ghost function LinkCount(spans: seq<Span>, k: Key, d: Destination): nat {
    if spans == [] then 0
    else
      var s := spans[|spans| - 1];
      LinkCount(spans[..|spans| - 1], k, d) + LinksIn(s, |s.links|, k, d)
  }

  /** How many pairs are for links from k to d. */
  ghost function PairCount(flows: seq<Flow>, k: Key, d: Destination): nat {
    if flows == [] then 0
    else
      var f := flows[|flows| - 1];
      PairCount(flows[..|flows| - 1], k, d) + if f.source == k && f.to == d then 1 else 0
  }

  lemma {:induction false} PairsAppend(a: seq<Flow>, b: seq<Flow>, k: Key, d: Destination)
    ensures PairCount(a + b, k, d) == PairCount(a, k, d) + PairCount(b, k, d)
  {
    if b == [] {
      assert a + b == a;
    } else {
      assert (a + b)[..|a + b| - 1] == a + b[..|b| - 1];
      PairsAppend(a, b[..|b| - 1], k, d);
    }
  }

  lemma {:induction false} PairsJoined(key: Key, p: Position, ds: seq<Destination>, k: Key, d: Destination)
    ensures PairCount(Joined(key, p, ds), k, d) == if k == key then multiset(ds)[d] else 0
  {
    if ds != [] {
      var front := ds[..|ds| - 1];
      PairsJoined(key, p, front, k, d);
      assert Joined(key, p, ds)[..|front|] == Joined(key, p, front);
      assert ds == front + [ds[|front|]];
    }
  }

  // ------------------------------------------------------------ no link twice, whatever the limits

  /** Each link has been emitted once, waits once, or was refused once. */
  ghost predicate Balanced(o: Outcome, k: Key, d: Destination, links: nat) {
    PairCount(o.flows, k, d) + multiset(Waiting(o.tables, k))[d] + multiset(o.refused)[(k, d)] == links
  }

  lemma ArriveBalanced(max: nat, t: Tables, s: Span, k: Key, d: Destination)
    ensures Balanced(Arrive(max, t, s), k, d, multiset(Waiting(t, k))[d])
  {
    PairsJoined(s.key, PositionOf(s), Waiting(t, s.key), k, d);
  }

  lemma LinkBalanced(max: nat, t: Tables, s: Span, source: Key, k: Key, d: Destination)
    ensures Balanced(Link(max, t, s, source), k, d,
                     multiset(Waiting(t, k))[d] + if source == k && DestinationOf(s, k) == d then 1 else 0)
  {
    var flows := Link(max, t, s, source).flows;
    if flows != [] {
      assert flows[..0] == [];
    }
  }

  lemma {:induction false} ConvertBalanced(max: nat, t: Tables, s: Span, n: nat, k: Key, d: Destination)
    requires n <= |s.links|
    ensures Balanced(Convert(max, t, s, n), k, d, multiset(Waiting(t, k))[d] + LinksIn(s, n, k, d))
  {
    hide Arrive, Link, Waiting, PairCount;
    if n == 0 {
      ArriveBalanced(max, t, s, k, d);
    } else {
      ConvertBalanced(max, t, s, n - 1, k, d);
      var o := Convert(max, t, s, n - 1);
      LinkBalanced(max, o.tables, s, s.links[n - 1], k, d);
      PairsAppend(o.flows, Link(max, o.tables, s, s.links[n - 1]).flows, k, d);
    }
  }

  lemma NothingRun(k: Key, d: Destination)
    ensures PairCount([], k, d) == 0 && Waiting(EMPTY, k) == []
  {
  }

  /** Whatever arrives, in any order, with repeated keys and past the limits: every link is either emitted exactly once, or
      waits exactly once, or was refused because the table was full. */
  lemma {:induction false} EveryLinkOnce(max: nat, spans: seq<Span>, k: Key, d: Destination)
    ensures Balanced(Run(max, spans), k, d, LinkCount(spans, k, d))
  {
    hide Convert, Waiting, PairCount;
    if spans == [] {
      NothingRun(k, d);
    } else {
      var front, s := spans[..|spans| - 1], spans[|spans| - 1];
      EveryLinkOnce(max, front, k, d);
      var o := Run(max, front);
      ConvertBalanced(max, o.tables, s, |s.links|, k, d);
      PairsAppend(o.flows, Convert(max, o.tables, s, |s.links|).flows, k, d);
    }
  }

  // ------------------------------------------------------------ pairs join real positions

  ghost predicate Arrived(spans: seq<Span>, k: Key, p: Position) {
    exists i :: 0 <= i < |spans| && spans[i].key == k && PositionOf(spans[i]) == p
  }

  ghost predicate Sound(spans: seq<Span>, o: Outcome) {
    && (forall k :: k in o.tables.positions ==> Arrived(spans, k, o.tables.positions[k]))
    && (forall i :: 0 <= i < |o.flows| ==> Arrived(spans, o.flows[i].source, o.flows[i].from))
  }

  lemma ArriveSound(max: nat, spans: seq<Span>, t: Tables, s: Span)
    requires (forall k :: k in t.positions ==> Arrived(spans, k, t.positions[k])) && Arrived(spans, s.key, PositionOf(s))
    ensures Sound(spans, Arrive(max, t, s))
  {
    hide Arrived, PositionOf;
  }

  lemma {:induction false} ConvertSound(max: nat, spans: seq<Span>, t: Tables, s: Span, n: nat)
    requires n <= |s.links| && Arrived(spans, s.key, PositionOf(s))
    requires forall k :: k in t.positions ==> Arrived(spans, k, t.positions[k])
    ensures Sound(spans, Convert(max, t, s, n))
  {
    hide Arrived, PositionOf, Arrive;
    if n == 0 {
      ArriveSound(max, spans, t, s);
    } else {
      ConvertSound(max, spans, t, s, n - 1);
    }
  }

  /** Every pair starts at the position of a span with the source's key that has arrived. */
  lemma {:induction false} PairsAreSound(max: nat, spans: seq<Span>)
    ensures Sound(spans, Run(max, spans))
  {
    hide Arrived, Convert;
    if spans != [] {
      var front := spans[..|spans| - 1];
      var s := spans[|front|];
      PairsAreSound(max, front);
      var o := Run(max, front);
      forall k, p | Arrived(front, k, p) ensures Arrived(spans, k, p) {
        ArrivedMore(spans, k, p);
      }
      LastArrived(spans);
      ConvertSound(max, spans, o.tables, s, |s.links|);
    }
  }

  lemma LastArrived(spans: seq<Span>)
    requires spans != []
    ensures Arrived(spans, spans[|spans| - 1].key, PositionOf(spans[|spans| - 1]))
  {
  }

  lemma ArrivedMore(spans: seq<Span>, k: Key, p: Position)
    requires spans != [] && Arrived(spans[..|spans| - 1], k, p)
    ensures Arrived(spans, k, p)
  {
    var i :| 0 <= i < |spans| - 1 && spans[..|spans| - 1][i].key == k && PositionOf(spans[..|spans| - 1][i]) == p;
    assert spans[i].key == k;
  }

  // ------------------------------------------------------------ within the limits, distinct keys

  ghost predicate DistinctKeys(spans: seq<Span>) {
    forall i, j :: 0 <= i < j < |spans| ==> spans[i].key != spans[j].key
  }

  ghost function Keys(spans: seq<Span>): (r: set<Key>) {
    set i | 0 <= i < |spans| :: spans[i].key
  }

  /** The spans that are linked to. */
  ghost function Sources(spans: seq<Span>): set<Key> {
    set i, j | 0 <= i < |spans| && 0 <= j < |spans[i].links| :: spans[i].links[j]
  }

  ghost predicate WithinLimits(max: nat, spans: seq<Span>) {
    DistinctKeys(spans) && |spans| <= max && |Sources(spans)| < max
  }

  /** The tables hold the positions of all spans that arrived, nothing waits for any of these, and nothing was refused. */
  ghost predicate Exact(spans: seq<Span>, all: seq<Span>, t: Tables, refused: seq<(Key, Destination)>) {
    Placed(spans, t.positions) && refused == [] && PendingOk(all, t)
  }

  ghost predicate Placed(spans: seq<Span>, positions: map<Key, Position>) {
    && positions.Keys == Keys(spans) && |positions| == |spans|
    && forall i :: 0 <= i < |spans| ==> spans[i].key in positions && positions[spans[i].key] == PositionOf(spans[i])
  }

  ghost predicate PendingOk(all: seq<Span>, t: Tables) {
    && t.pending.Keys <= Sources(all) && t.pending.Keys !! t.positions.Keys
    && forall k :: k in t.pending ==> t.pending[k] != []
  }

  lemma KeysMore(front: seq<Span>, s: Span)
    ensures Keys(front + [s]) == Keys(front) + {s.key}
    ensures forall i :: 0 <= i < |front| ==> front[i].key in Keys(front)
  {
    var spans := front + [s];
    assert spans[|front|].key in Keys(spans);
    assert forall i :: 0 <= i < |front| ==> spans[i].key == front[i].key && spans[i].key in Keys(spans);
  }

  lemma ArriveTables(max: nat, t: Tables, s: Span)
    requires |t.positions| < max && s.key !in t.positions
    ensures var o := Arrive(max, t, s);
            && o.tables.positions == t.positions[s.key := PositionOf(s)] && |o.tables.positions| == |t.positions| + 1
            && o.tables.pending == t.pending - {s.key} && o.refused == []
  {
    assert |t.positions[s.key := PositionOf(s)]| == |t.positions| + 1;
  }

  lemma PlacedMore(front: seq<Span>, s: Span, positions: map<Key, Position>)
    requires Placed(front, positions) && s.key !in Keys(front)
    ensures Placed(front + [s], positions[s.key := PositionOf(s)])
  {
    hide PositionOf, Keys;
    KeysMore(front, s);
    var spans, positions' := front + [s], positions[s.key := PositionOf(s)];
    assert positions'.Keys == Keys(spans);
    assert |positions'.Keys| == |positions.Keys| + 1;
    forall i | 0 <= i < |spans| ensures spans[i].key in positions' && positions'[spans[i].key] == PositionOf(spans[i]) {
      if i < |front| {
        assert spans[i] == front[i];
      }
    }
  }

  lemma PlacedKeys(front: seq<Span>, positions: map<Key, Position>)
    requires Placed(front, positions)
    ensures |positions| == |front| && positions.Keys == Keys(front)
  {
  }

  lemma ArriveExact(max: nat, front: seq<Span>, s: Span, all: seq<Span>, t: Tables)
    requires Exact(front, all, t, []) && |front| < max && s.key !in Keys(front)
    ensures Exact(front + [s], all, Arrive(max, t, s).tables, [])
  {
    hide PositionOf, Sources, Keys, Arrive, Placed;
    PlacedKeys(front, t.positions);
    ArriveTables(max, t, s);
    PlacedMore(front, s, t.positions);
  }

  lemma LinkExact(max: nat, spans: seq<Span>, all: seq<Span>, t: Tables, s: Span, source: Key)
    requires Exact(spans, all, t, []) && |Sources(all)| < max && source in Sources(all)
    ensures Exact(spans, all, Link(max, t, s, source).tables, Link(max, t, s, source).refused)
  {
    hide PositionOf, Sources, Keys, Placed;
    SubsetSize(t.pending.Keys, Sources(all));
  }

  lemma {:induction false} ConvertExact(max: nat, front: seq<Span>, s: Span, all: seq<Span>, t: Tables, n: nat)
    requires Exact(front, all, t, []) && |front| < max && s.key !in Keys(front) && |Sources(all)| < max
    requires n <= |s.links| && forall j :: 0 <= j < |s.links| ==> s.links[j] in Sources(all)
    ensures Exact(front + [s], all, Convert(max, t, s, n).tables, Convert(max, t, s, n).refused)
  {
    hide Exact, Sources, Keys, Arrive, Link;
    if n == 0 {
      ArriveExact(max, front, s, all, t);
      NothingRefused(max, t, s);
    } else {
      ConvertExact(max, front, s, all, t, n - 1);
      var o := Convert(max, t, s, n - 1);
      NoneRefused(front + [s], all, o.tables, o.refused);
      LinkExact(max, front + [s], all, o.tables, s, s.links[n - 1]);
      assert o.refused + Link(max, o.tables, s, s.links[n - 1]).refused == Link(max, o.tables, s, s.links[n - 1]).refused;
    }
  }

  lemma NothingRefused(max: nat, t: Tables, s: Span)
    ensures Arrive(max, t, s).refused == []
  {
  }

  lemma {:induction false} RunExact(max: nat, all: seq<Span>, n: nat)
    requires WithinLimits(max, all) && n <= |all|
    ensures Exact(all[..n], all, Run(max, all[..n]).tables, Run(max, all[..n]).refused)
  {
    hide Exact, Convert, Sources, Keys, Run;
    if n == 0 {
      assert all[..0] == [];
      NothingYet(max, all);
    } else {
      RunExact(max, all, n - 1);
      var front, s := all[..n - 1], all[n - 1];
      assert all[..n] == front + [s];
      KeyIsNew(all, n - 1);
      forall j | 0 <= j < |s.links| ensures s.links[j] in Sources(all) {
        LinkIsSource(all, n - 1, j);
      }
      var o := Run(max, front);
      NoneRefused(front, all, o.tables, o.refused);
      ConvertExact(max, front, s, all, o.tables, |s.links|);
      RunOne(max, front, s);
      assert o.refused + Convert(max, o.tables, s, |s.links|).refused == Convert(max, o.tables, s, |s.links|).refused;
    }
  }

  lemma NoneRefused(spans: seq<Span>, all: seq<Span>, t: Tables, refused: seq<(Key, Destination)>)
    requires Exact(spans, all, t, refused)
    ensures refused == []
  {
  }

  lemma KeyIsNew(all: seq<Span>, n: nat)
    requires DistinctKeys(all) && n < |all|
    ensures all[n].key !in Keys(all[..n])
  {
  }

  lemma ArrivedIsKey(spans: seq<Span>, k: Key, p: Position)
    requires Arrived(spans, k, p)
    ensures k in Keys(spans)
  {
  }

  lemma LimitsDistinct(max: nat, spans: seq<Span>)
    requires WithinLimits(max, spans)
    ensures DistinctKeys(spans)
  {
  }

  lemma NothingYet(max: nat, all: seq<Span>)
    ensures Exact([], all, Run(max, []).tables, Run(max, []).refused)
  {
  }

  lemma LinkIsSource(all: seq<Span>, i: nat, j: nat)
    requires i < |all| && j < |all[i].links|
    ensures all[i].links[j] in Sources(all)
  {
  }

  lemma RunOne(max: nat, front: seq<Span>, s: Span)
    ensures var o := Run(max, front);
            var o' := Convert(max, o.tables, s, |s.links|);
            Run(max, front + [s]) == Outcome(o'.tables, o.flows + o'.flows, o.refused + o'.refused)
  {
    assert (front + [s])[..|front|] == front;
  }

  /** The result in full: every link whose source arrived is emitted exactly once and every other one waits. */
  lemma LinksResolved(max: nat, spans: seq<Span>, k: Key, d: Destination)
    requires WithinLimits(max, spans)
    ensures var o := Run(max, spans);
            && PairCount(o.flows, k, d) == (if k in Keys(spans) then LinkCount(spans, k, d) else 0)
            && multiset(Waiting(o.tables, k))[d] == (if k in Keys(spans) then 0 else LinkCount(spans, k, d))
  {
    hide Keys, LinkCount, PairCount;
    RunExact(max, spans, |spans|);
    assert spans[..|spans|] == spans;
    EveryLinkOnce(max, spans, k, d);
    if k !in Keys(spans) && PairCount(Run(max, spans).flows, k, d) > 0 {
      PairsAreSound(max, spans);
      var f := SomePair(Run(max, spans).flows, k, d);
      ArrivedIsKey(spans, k, Run(max, spans).flows[f].from);
    }
  }

  lemma {:induction false} SomePair(flows: seq<Flow>, k: Key, d: Destination) returns (i: nat)
    requires PairCount(flows, k, d) > 0
    ensures i < |flows| && flows[i].source == k && flows[i].to == d
  {
    var last := |flows| - 1;
    if flows[last].source == k && flows[last].to == d {
      i := last;
    } else {
      i := SomePair(flows[..last], k, d);
    }
  }

  /** Pairs of one source all start at the same place: the position of the one span with that key. */
  lemma OnePosition(max: nat, spans: seq<Span>, i: nat, f: Flow)
    requires DistinctKeys(spans) && i < |spans| && f in Run(max, spans).flows && f.source == spans[i].key
    ensures f.from == PositionOf(spans[i])
  {
    hide PositionOf;
    PairsAreSound(max, spans);
  }

  lemma {:induction false} PairsOfPosition(flows: seq<Flow>, f: Flow)
    requires forall g :: g in flows && g.source == f.source ==> g.from == f.from
    ensures multiset(flows)[f] == PairCount(flows, f.source, f.to)
  {
    if flows != [] {
      var front := flows[..|flows| - 1];
      assert flows == front + [flows[|front|]];
      PairsOfPosition(front, f);
    }
  }

  /** The multiset of emitted pairs: one for each link whose source arrived, from the position of the source to that of the span
      that has the link. */
  ghost predicate ExactPairs(spans: seq<Span>, flows: seq<Flow>) {
    forall f: Flow :: multiset(flows)[f] == if Arrived(spans, f.source, f.from) then LinkCount(spans, f.source, f.to) else 0
  }

  /** The pending table: exactly the links whose source has not arrived. */
  ghost predicate ExactPending(spans: seq<Span>, pending: map<Key, seq<Destination>>) {
    forall k, d :: (if k in pending then multiset(pending[k])[d] else 0) == if k in Keys(spans) then 0 else LinkCount(spans, k, d)
  }

  lemma FlowsExactly(max: nat, spans: seq<Span>)
    requires WithinLimits(max, spans)
    ensures ExactPairs(spans, Run(max, spans).flows) && ExactPending(spans, Run(max, spans).tables.pending)
  {
    hide LinkCount, PairCount, PositionOf, WithinLimits;
    var o := Run(max, spans);
    LimitsDistinct(max, spans);
    forall f: Flow ensures multiset(o.flows)[f] == if Arrived(spans, f.source, f.from) then LinkCount(spans, f.source, f.to) else 0 {
      if Arrived(spans, f.source, f.from) {
        var i :| 0 <= i < |spans| && spans[i].key == f.source && PositionOf(spans[i]) == f.from;
        forall g | g in o.flows && g.source == f.source ensures g.from == f.from {
          OnePosition(max, spans, i, g);
        }
        PairsOfPosition(o.flows, f);
        LinksResolved(max, spans, f.source, f.to);
        assert f.source in Keys(spans);
      } else {
        PairsAreSound(max, spans);
        assert f !in o.flows;
      }
    }
    forall k, d ensures (if k in o.tables.pending then multiset(o.tables.pending[k])[d] else 0) ==
                        if k in Keys(spans) then 0 else LinkCount(spans, k, d) {
      LinksResolved(max, spans, k, d);
    }
  }

  // ------------------------------------------------------------ past the limits

  /** The spans that arrived last, as many as there is room for. */
  ghost function Latest(max: nat, spans: seq<Span>): seq<Span> {
    if |spans| <= max then spans else spans[|spans| - max..]
  }

  ghost function KeysInOrder(spans: seq<Span>): (r: seq<Key>)
    ensures |r| == |spans| && forall i :: 0 <= i < |r| ==> r[i] == spans[i].key
  {
    seq(|spans|, i requires 0 <= i < |spans| => spans[i].key)
  }

  /** The table holds the positions of these spans and no others, the oldest first. */
  ghost predicate Remembers(latest: seq<Span>, t: Tables) {
    t.order == KeysInOrder(latest) && KeysAre(t.order, t.positions) && PlacedAt(latest, t.positions)
  }

  ghost predicate KeysAre(order: seq<Key>, positions: map<Key, Position>) {
    |positions| == |order| && forall k :: k in positions <==> k in order
  }

  ghost predicate PlacedAt(spans: seq<Span>, positions: map<Key, Position>) {
    forall s :: s in spans ==> s.key in positions && positions[s.key] == PositionOf(s)
  }

  lemma {:induction false} OnlyArrivalMoves(max: nat, t: Tables, s: Span, n: nat)
    requires n <= |s.links|
    ensures var t', t'' := Convert(max, t, s, n).tables, Remember(max, t, s.key, PositionOf(s));
            t'.positions == t''.positions && t'.order == t''.order
  {
    hide Remember, PositionOf, DestinationOf;
    if n > 0 {
      OnlyArrivalMoves(max, t, s, n - 1);
    }
  }

  lemma KeysEvicted(order: seq<Key>, positions: map<Key, Position>)
    requires KeysAre(order, positions) && order != [] && order[0] !in order[1..]
    ensures KeysAre(order[1..], positions - {order[0]})
  {
    assert order == [order[0]] + order[1..];
    assert positions.Keys == (positions - {order[0]}).Keys + {order[0]};
  }

  lemma KeysMoved(order: seq<Key>, positions: map<Key, Position>, k: Key, p: Position)
    requires KeysAre(order, positions) && k !in order
    ensures KeysAre(order + [k], positions[k := p])
  {
    assert positions[k := p].Keys == positions.Keys + {k};
  }

  lemma PlacedRest(latest: seq<Span>, positions: map<Key, Position>, k: Key)
    requires PlacedAt(latest, positions) && latest != [] && k !in KeysInOrder(latest[1..])
    ensures PlacedAt(latest[1..], positions - {k})
  {
    hide PositionOf;
    var rest := latest[1..];
    forall s | s in rest ensures s.key != k && s in latest {
      var i :| 0 <= i < |rest| && rest[i] == s;
      assert KeysInOrder(rest)[i] == s.key && latest[i + 1] == s;
    }
  }

  lemma PlacedNew(latest: seq<Span>, positions: map<Key, Position>, s: Span)
    requires PlacedAt(latest, positions) && s.key !in KeysInOrder(latest)
    ensures PlacedAt(latest + [s], positions[s.key := PositionOf(s)])
  {
    hide PositionOf;
    forall x | x in latest ensures x.key != s.key {
      var i :| 0 <= i < |latest| && latest[i] == x;
      assert KeysInOrder(latest)[i] == x.key;
    }
  }

  lemma OldestEvicted(latest: seq<Span>, t: Tables)
    requires Remembers(latest, t) && latest != [] && DistinctKeys(latest)
    ensures Remembers(latest[1..], t.(positions := t.positions - {t.order[0]}, order := t.order[1..]))
  {
    hide KeysAre, PlacedAt, KeysInOrder;
    assert KeysInOrder(latest)[1..] == KeysInOrder(latest[1..]);
    assert t.order[0] !in t.order[1..];
    KeysEvicted(t.order, t.positions);
    PlacedRest(latest, t.positions, t.order[0]);
  }

  lemma NewRemembered(latest: seq<Span>, t: Tables, s: Span)
    requires Remembers(latest, t) && s.key !in KeysInOrder(latest)
    ensures s.key !in t.positions
    ensures Remembers(latest + [s], t.(positions := t.positions[s.key := PositionOf(s)], order := t.order + [s.key]))
  {
    hide PlacedAt, KeysInOrder, PositionOf;
    assert KeysInOrder(latest) + [s.key] == KeysInOrder(latest + [s]);
    KeysMoved(t.order, t.positions, s.key, PositionOf(s));
    PlacedNew(latest, t.positions, s);
  }

  lemma RememberLatest(max: nat, latest: seq<Span>, t: Tables, s: Span)
    requires 0 < max && |latest| <= max && Remembers(latest, t) && DistinctKeys(latest) && s.key !in KeysInOrder(latest)
    ensures Remembers((if |latest| == max then latest[1..] else latest) + [s], Remember(max, t, s.key, PositionOf(s)))
  {
    hide PositionOf, Remembers, DistinctKeys, KeysInOrder;
    assert |latest| > 0 ==> KeysInOrder(latest)[1..] == KeysInOrder(latest[1..]);
    AsMany(latest, t);
    if |latest| == max {
      OldestEvicted(latest, t);
      NewRemembered(latest[1..], t.(positions := t.positions - {t.order[0]}, order := t.order[1..]), s);
    } else {
      NewRemembered(latest, t, s);
    }
  }

  lemma AsMany(latest: seq<Span>, t: Tables)
    requires Remembers(latest, t)
    ensures |t.positions| == |t.order| == |latest|
  {
  }

  /** However many spans arrive, if their keys differ the table holds exactly the latest. */
  lemma {:induction false} KeepsTheLatest(max: nat, spans: seq<Span>)
    requires 0 < max && DistinctKeys(spans)
    ensures Remembers(Latest(max, spans), Run(max, spans).tables)
  {
    hide Remembers, Remember, Convert, PositionOf, Latest;
    if spans == [] {
      NothingRemembered();
      NoLatest(max);
    } else {
      var front, s := spans[..|spans| - 1], spans[|spans| - 1];
      assert spans == front + [s];
      KeepsTheLatest(max, front);
      var latest, t := Latest(max, front), Run(max, front).tables;
      LatestApart(max, front, s);
      LatestMore(max, front, s);
      RememberLatest(max, latest, t, s);
      OnlyArrivalMoves(max, t, s, |s.links|);
      SameMemory(Latest(max, spans), Remember(max, t, s.key, PositionOf(s)), Run(max, spans).tables);
    }
  }

  lemma LatestMore(max: nat, front: seq<Span>, s: Span)
    requires 0 < max
    ensures var latest := Latest(max, front);
            |latest| <= max && Latest(max, front + [s]) == (if |latest| == max then latest[1..] else latest) + [s]
  {
  }

  lemma NoLatest(max: nat)
    ensures Latest(max, []) == []
  {
  }

  lemma LatestApart(max: nat, spans: seq<Span>, s: Span)
    requires DistinctKeys(spans + [s])
    ensures DistinctKeys(spans) && DistinctKeys(Latest(max, spans))
    ensures s.key !in KeysInOrder(Latest(max, spans))
  {
    assert (spans + [s])[|spans|] == s;
    assert forall i :: 0 <= i < |spans| ==> (spans + [s])[i] == spans[i];
  }

  lemma NothingRemembered()
    ensures Remembers([], EMPTY)
  {
  }

  lemma SameMemory(latest: seq<Span>, t: Tables, t': Tables)
    requires Remembers(latest, t) && t.positions == t'.positions && t.order == t'.order
    ensures Remembers(latest, t')
  {
  }

  /** So a link is emitted as soon as its span arrives exactly if its source is among the latest then, itself included; otherwise it
      waits, unless there are already as many waiting sources as are kept. */
  lemma EmittedAtOnceExactlyWhen(max: nat, spans: seq<Span>, s: Span, n: nat)
    requires 0 < max && DistinctKeys(spans + [s]) && n < |s.links|
    ensures var t := Convert(max, Run(max, spans).tables, s, n).tables;
            var o, d := Link(max, t, s, s.links[n]), DestinationOf(s, s.links[n]);
            var known := exists i :: 0 <= i < |Latest(max, spans + [s])| && Latest(max, spans + [s])[i].key == s.links[n];
            && (o.flows != [] <==> known)
            && (o.refused != [] <==> !known && |t.pending| >= max)
            && Waiting(o.tables, s.links[n]) == Waiting(t, s.links[n]) + if known || |t.pending| >= max then [] else [d]
  {
    hide Remember, Convert, PositionOf, DestinationOf, Run, Remembers, Latest;
    KeepsTheLatest(max, spans + [s]);
    RunOne(max, spans, s);
    var t0 := Run(max, spans).tables;
    OnlyArrivalMoves(max, t0, s, n);
    OnlyArrivalMoves(max, t0, s, |s.links|);
    var latest := Latest(max, spans + [s]);
    var t := Convert(max, t0, s, n).tables;
    SameMemory(latest, Run(max, spans + [s]).tables, t);
    KnownAre(latest, t, s.links[n]);
    assert Waiting(t, s.links[n]) + [] == Waiting(t, s.links[n]);
  }

  lemma KnownAre(latest: seq<Span>, t: Tables, k: Key)
    requires Remembers(latest, t)
    ensures k in t.positions <==> exists i :: 0 <= i < |latest| && latest[i].key == k
  {
    if k in t.positions {
      var i :| 0 <= i < |t.order| && t.order[i] == k;
      assert latest[i].key == k;
    }
  }

  /** There are never more waiting sources than that. */
  lemma {:induction false} ConvertPending(max: nat, t: Tables, s: Span, n: nat)
    requires n <= |s.links| && |t.pending| <= max
    ensures |Convert(max, t, s, n).tables.pending| <= max
  {
    hide Remember, PositionOf, DestinationOf;
    if n == 0 {
      PendingShrinks(t.pending, s.key);
      PendingUntouched(max, t, s.key, PositionOf(s));
    } else {
      ConvertPending(max, t, s, n - 1);
    }
  }

  lemma PendingUntouched(max: nat, t: Tables, key: Key, p: Position)
    ensures Remember(max, t, key, p).pending == t.pending
  {
  }

  lemma PendingShrinks(pending: map<Key, seq<Destination>>, key: Key)
    ensures |pending - {key}| <= |pending|
  {
    SubsetSize((pending - {key}).Keys, pending.Keys);
  }

  lemma {:induction false} PendingBounded(max: nat, spans: seq<Span>)
    ensures |Run(max, spans).tables.pending| <= max
  {
    hide Convert;
    if spans != [] {
      PendingBounded(max, spans[..|spans| - 1]);
      ConvertPending(max, Run(max, spans[..|spans| - 1]).tables, spans[|spans| - 1], |spans[|spans| - 1].links|);
    }
  }

  // ------------------------------------------------------------ the order does not matter

  lemma {:induction false} CountSplit(a: seq<Span>, b: seq<Span>, k: Key, d: Destination)
    ensures LinkCount(a + b, k, d) == LinkCount(a, k, d) + LinkCount(b, k, d)
  {
    if b == [] {
      assert a + b == a;
    } else {
      assert (a + b)[..|a + b| - 1] == a + b[..|b| - 1];
      CountSplit(a, b[..|b| - 1], k, d);
    }
  }

  /** Taking out one span takes out its links. */
  lemma CountWithout(b: seq<Span>, i: nat, k: Key, d: Destination)
    requires i < |b|
    ensures LinkCount(b, k, d) == LinkCount(b[..i] + b[i + 1..], k, d) + LinkCount([b[i]], k, d)
  {
    hide LinkCount;
    assert b == b[..i] + [b[i]] + b[i + 1..];
    CountSplit(b[..i] + [b[i]], b[i + 1..], k, d);
    CountSplit(b[..i], [b[i]], k, d);
    CountSplit(b[..i], b[i + 1..], k, d);
  }

  lemma SpansWithout(b: seq<Span>, i: nat)
    requires i < |b|
    ensures multiset(b[..i] + b[i + 1..]) == multiset(b) - multiset{b[i]}
  {
    assert b == b[..i] + [b[i]] + b[i + 1..];
  }

  lemma {:induction false} CountPermuted(a: seq<Span>, b: seq<Span>, k: Key, d: Destination)
    requires multiset(a) == multiset(b)
    ensures LinkCount(a, k, d) == LinkCount(b, k, d)
    decreases |a|
  {
    hide LinkCount;
    if a == [] {
      assert |multiset(b)| == 0;
      assert b == [];
    } else {
      var last := |a| - 1;
      assert a[last] in multiset(b);
      var i :| 0 <= i < |b| && b[i] == a[last];
      SpansWithout(a, last);
      SpansWithout(b, i);
      CountPermuted(a[..last] + a[last + 1..], b[..i] + b[i + 1..], k, d);
      CountWithout(a, last, k, d);
      CountWithout(b, i, k, d);
    }
  }

  lemma ArrivedPermuted(a: seq<Span>, b: seq<Span>, k: Key, p: Position)
    requires multiset(a) == multiset(b) && Arrived(a, k, p)
    ensures Arrived(b, k, p) && k in Keys(b)
  {
    var i :| 0 <= i < |a| && a[i].key == k && PositionOf(a[i]) == p;
    assert a[i] in multiset(b);
    assert a[i] in b;
  }

  lemma KeysPermuted(a: seq<Span>, b: seq<Span>)
    requires multiset(a) == multiset(b)
    ensures Keys(a) <= Keys(b)
  {
    forall k | k in Keys(a) ensures k in Keys(b) {
      var i :| 0 <= i < |a| && a[i].key == k;
      ArrivedPermuted(a, b, k, PositionOf(a[i]));
    }
  }

  ghost function LinksWaiting(t: Tables, k: Key): multiset<Destination> {
    multiset(Waiting(t, k))
  }

  /** For any order of the same spans the same pairs are emitted, and the same links are left waiting. */
  lemma OrderDoesNotMatter(max: nat, a: seq<Span>, b: seq<Span>)
    requires WithinLimits(max, a) && WithinLimits(max, b) && multiset(a) == multiset(b)
    ensures multiset(Run(max, a).flows) == multiset(Run(max, b).flows)
    ensures forall k :: LinksWaiting(Run(max, a).tables, k) == LinksWaiting(Run(max, b).tables, k)
  {
    hide Run, LinkCount, Arrived, WithinLimits, Keys;
    FlowsExactly(max, a);
    FlowsExactly(max, b);
    KeysPermuted(a, b);
    KeysPermuted(b, a);
    forall f: Flow ensures multiset(Run(max, a).flows)[f] == multiset(Run(max, b).flows)[f] {
      CountPermuted(a, b, f.source, f.to);
      if Arrived(a, f.source, f.from) {
        ArrivedPermuted(a, b, f.source, f.from);
      } else if Arrived(b, f.source, f.from) {
        ArrivedPermuted(b, a, f.source, f.from);
      }
    }
    forall k ensures LinksWaiting(Run(max, a).tables, k) == LinksWaiting(Run(max, b).tables, k) {
      forall d ensures LinksWaiting(Run(max, a).tables, k)[d] == LinksWaiting(Run(max, b).tables, k)[d] {
        CountPermuted(a, b, k, d);
      }
    }
  }
}
