module PerfettoShown {
  /** What a reader of the trace file finds in it: the spans, and an arrow for each link that is resolved
      (tracer/perfetto_exporter.py). */

  import opened Basics
  import opened CodePoints
  import opened PerfettoFlows
  import opened PerfettoJson
  import opened PerfettoReader
  import opened PerfettoEvents
  import opened PerfettoExporter
  import opened PerfettoRuns

  // ------------------------------------------------------------ looking members up

  /** The value of the last member of that name, which is the one that a reader keeps. */
  function LookUp(d: seq<Member>, name: Text): Option<Json> {
    if d == [] then None
    else if d[|d| - 1].name == name then Some(d[|d| - 1].value)
    else LookUp(d[..|d| - 1], name)
  }

  function Get(j: Json, name: string): Option<Json> {
    if j.Obj? then LookUp(j.members, Ascii(name)) else None
  }

  function GetInt(j: Json, name: string): Option<int> {
    if Get(j, name).Some? then IntOf(Get(j, name).value) else None
  }

  lemma {:induction false} LookUpMember(d: seq<Member>, m: Member)
    requires IsDict(d) && m in d
    ensures LookUp(d, m.name) == Some(m.value)
  {
    var front, last := d[..|d| - 1], d[|d| - 1];
    if m != last {
      var i :| 0 <= i < |d| && d[i] == m;
      assert front[i] == m;
      LookUpMember(front, m);
    }
  }

  lemma GetMember(d: seq<Member>, i: nat, name: string)
    requires IsDict(d) && i < |d| && d[i].name == Ascii(name)
    ensures Get(Obj(d), name) == Some(d[i].value)
  {
    LookUpMember(d, d[i]);
  }

  // ------------------------------------------------------------ a span in the file

  /** Names that stand for the span itself. */
  predicate Reserved(name: Text) {
    || name == Ascii("trace_id") || name == Ascii("span_id") || name == Ascii("parent_span_id") || name == Ascii("span.kind")
    || name == Ascii("span.status") || name == Ascii("service.name")
  }

  /** The identifiers, and the attributes that do not hide behind them or behind each other. */
  ghost predicate ShowsArgs(args: Json, key: Key, details: Details) {
    && args.Obj?
    && Get(args, "trace_id") == Some(Str(key.trace)) && Get(args, "span_id") == Some(Str(key.span))
    && Get(args, "parent_span_id") == Some(Str(details.parent)) && Get(args, "service.name") == Some(details.service)
    && GetInt(args, "span.kind") == Some(details.kind) && GetInt(args, "span.status") == Some(details.status)
    && (forall m :: m in details.attributes && !Reserved(m.name) ==> LookUp(args.members, m.name) == Some(m.value))
    && (forall r :: r in details.resource && !Reserved(ResourceName(r.name)) && !HasName(details.attributes, ResourceName(r.name)) ==>
          LookUp(args.members, ResourceName(r.name)) == Some(r.value))
  }

  /** How long a span lasts; never less than nothing. */
  function Lasting(s: Span): nat {
    if s.startNs <= s.endNs then s.endNs - s.startNs else 0
  }

  /** A complete event: its names, its process and thread, when it starts and how long it lasts, in microseconds. */
  ghost predicate ShowsSpan(repr: Repr, j: Json, s: Span) {
    && Get(j, "ph") == Some(Str(Ascii("X")))
    && Get(j, "name") == Some(s.details.name) && Get(j, "cat") == Some(s.details.category)
    && GetInt(j, "pid") == Some(s.pid) && GetInt(j, "tid") == Some(s.tid)
    && Get(j, "ts") == Some(Literal(repr(s.startNs as real / 1000.0)))
    && Get(j, "dur") == Some(Literal(repr(Lasting(s) as real / 1000.0)))
    && Get(j, "args").Some? && ShowsArgs(Get(j, "args").value, s.key, s.details)
  }

  /** Attributes come from dictionaries. */
  ghost predicate FromDicts(s: Span) {
    IsDict(s.details.attributes) && IsDict(s.details.resource)
  }

  lemma ArgsShown(key: Key, details: Details)
    requires IsDict(details.attributes) && IsDict(details.resource)
    ensures ShowsArgs(Obj(ArgsOf(key, details)), key, details)
  {
    hide ArgsOf, IsDict, LookUp, Reserved, Shown, HasName, IntOf, Integer, ResourceName;
    var args, ids := ArgsOf(key, details), IdsOf(key, details);
    ArgsMembers(key, details);
    IntegerRead(details.kind);
    IntegerRead(details.status);
    forall m | m in args ensures LookUp(args, m.name) == Some(m.value) {
      LookUpMember(args, m);
    }
    assert ids[0] in args && ids[1] in args && ids[2] in args && ids[3] in args && ids[4] in args && ids[5] in args;
    forall name: Text ensures HasName(ids, name) <==> Reserved(name) {
      ReservedNames(key, details, name);
    }
    forall r | r in details.resource ensures Shown(details.resource, Member(ResourceName(r.name), r.value)) {
      ResourceShown(details.resource, r);
    }
  }

  lemma ReservedNames(key: Key, details: Details, name: Text)
    ensures HasName(IdsOf(key, details), name) <==> Reserved(name)
  {
    hide Integer;
    var ids := IdsOf(key, details);
    assert ids[0].name == Ascii("trace_id") && ids[1].name == Ascii("span_id") && ids[2].name == Ascii("parent_span_id");
    assert ids[3].name == Ascii("span.kind") && ids[4].name == Ascii("span.status") && ids[5].name == Ascii("service.name");
  }

  lemma ResourceShown(resource: seq<Member>, r: Member)
    requires r in resource
    ensures Shown(resource, Member(ResourceName(r.name), r.value))
  {
  }

  lemma CompleteNames(repr: Repr, e: Event)
    requires e.Complete?
    ensures IsDict(JsonOf(repr, e).members)
  {
    hide IsDict, ArgsOf, Integer;
    NamesApart(["name", "cat", "ph", "ts", "dur", "pid", "tid", "args"], JsonOf(repr, e).members);
  }

  /** The complete event of a span shows the span. */
  lemma CompleteShown(repr: Repr, s: Span)
    requires FromDicts(s)
    ensures ShowsSpan(repr, JsonOf(repr, CompleteEvent(s)), s)
  {
    hide ArgsOf, ShowsArgs, IsDict, Get, IntOf, Integer;
    var e := CompleteEvent(s);
    var d := JsonOf(repr, e).members;
    CompleteNames(repr, e);
    GetMember(d, 0, "name");
    GetMember(d, 1, "cat");
    GetMember(d, 2, "ph");
    GetMember(d, 3, "ts");
    GetMember(d, 4, "dur");
    GetMember(d, 5, "pid");
    GetMember(d, 6, "tid");
    GetMember(d, 7, "args");
    IntegerRead(s.pid);
    IntegerRead(s.tid);
    ArgsShown(s.key, s.details);
  }

  // ------------------------------------------------------------ an arrow in the file

  /** The object stands where and when the other one does. */
  predicate SamePlace(a: Json, x: Json) {
    && GetInt(a, "pid").Some? && GetInt(a, "pid") == GetInt(x, "pid")
    && GetInt(a, "tid").Some? && GetInt(a, "tid") == GetInt(x, "tid")
    && Get(a, "ts").Some? && Get(a, "ts") == Get(x, "ts")
  }

  predicate At(repr: Repr, a: Json, p: Position) {
    GetInt(a, "pid") == Some(p.pid) && GetInt(a, "tid") == Some(p.tid) && Get(a, "ts") == Some(Literal(repr(p.ts)))
  }

  predicate IsLink(a: Json, id: Text) {
    && Get(a, "name") == Some(Str(Ascii("request.link"))) && Get(a, "cat") == Some(Str(Ascii("Tracing.Flow")))
    && Get(a, "id") == Some(Str(id))
  }

  /** a is the start of an arrow, and names the span it starts at. */
  predicate StartsArrow(a: Json, id: Text, span: Text) {
    && IsLink(a, id) && Get(a, "ph") == Some(Str(Ascii("s")))
    && Get(a, "args").Some? && Get(Get(a, "args").value, "source.span_id") == Some(Str(span))
  }

  /** b is its end, bound to the slice around it. */
  predicate EndsArrow(b: Json, id: Text) {
    IsLink(b, id) && Get(b, "ph") == Some(Str(Ascii("f"))) && Get(b, "bp") == Some(Str(Ascii("e")))
  }

  lemma StartNames(repr: Repr, e: Event)
    requires e.FlowStart?
    ensures IsDict(JsonOf(repr, e).members)
  {
    hide IsDict, Integer;
    NamesApart(["name", "cat", "ph", "ts", "pid", "tid", "id", "args"], JsonOf(repr, e).members);
  }

  lemma EndNames(repr: Repr, e: Event)
    requires e.FlowEnd?
    ensures IsDict(JsonOf(repr, e).members)
  {
    hide IsDict, Integer;
    NamesApart(["name", "cat", "ph", "ts", "pid", "tid", "id", "bp"], JsonOf(repr, e).members);
  }

  lemma StartShown(repr: Repr, e: Event)
    requires e.FlowStart?
    ensures StartsArrow(JsonOf(repr, e), e.id, e.source) && At(repr, JsonOf(repr, e), Position(e.pid, e.tid, e.ts))
  {
    hide IsDict, Get, Integer, IntOf;
    IntegerRead(e.pid);
    IntegerRead(e.tid);
    var d := JsonOf(repr, e).members;
    StartNames(repr, e);
    GetMember(d, 0, "name");
    GetMember(d, 1, "cat");
    GetMember(d, 2, "ph");
    GetMember(d, 3, "ts");
    GetMember(d, 4, "pid");
    GetMember(d, 5, "tid");
    GetMember(d, 6, "id");
    GetMember(d, 7, "args");
    GetOnly("source.span_id", Str(e.source));
  }

  lemma GetOnly(name: string, value: Json)
    ensures Get(Obj([Member(Ascii(name), value)]), name) == Some(value)
  {
    hide Get;
    GetMember([Member(Ascii(name), value)], 0, name);
  }

  lemma EndShown(repr: Repr, e: Event)
    requires e.FlowEnd?
    ensures EndsArrow(JsonOf(repr, e), e.id) && At(repr, JsonOf(repr, e), Position(e.pid, e.tid, e.ts))
  {
    hide IsDict, Get, Integer, IntOf;
    IntegerRead(e.pid);
    IntegerRead(e.tid);
    var d := JsonOf(repr, e).members;
    EndNames(repr, e);
    GetMember(d, 0, "name");
    GetMember(d, 1, "cat");
    GetMember(d, 2, "ph");
    GetMember(d, 3, "ts");
    GetMember(d, 4, "pid");
    GetMember(d, 5, "tid");
    GetMember(d, 6, "id");
    GetMember(d, 7, "bp");
  }

  // ------------------------------------------------------------ what is in the file

  /** The file after the spans is a JSON array with this item. */
  ghost predicate InFile(repr: Repr, spans: seq<Span>, j: Json) {
    exists items :: ReadJson(FileAfter(repr, spans)) == Some(Arr(items)) && j in items
  }

  /** The file is read as the array of the events written, unless it dangles: then it is no JSON text. */
  lemma FileReads(repr: Repr, spans: seq<Span>)
    ensures ReadJson(FileAfter(repr, spans)) ==
            if Dangles(repr, spans) then None else Some(Arr(JsonsOf(repr, WrittenEvents(repr, spans))))
  {
    hide ReadJson, FileText, Dangles, WrittenBy, WrittenEvents, JsonsOf, Dumps;
    if Dangles(repr, spans) {
      DanglingText(WrittenBy(repr, spans));
      DanglingIsNoValue(Join(WrittenBy(repr, spans)));
    } else {
      FileIsJsonArray(repr, spans);
      ReadsWhatIsDumped(Arr(JsonsOf(repr, WrittenEvents(repr, spans))));
    }
  }

  lemma DanglingText(written: seq<Text>)
    ensures FileText(written, true) == [OPEN_ARRAY] + Join(written) + [COMMA]
  {
  }

  lemma {:induction false} JsonsHave(repr: Repr, events: seq<Event>, j: Json)
    ensures j in JsonsOf(repr, events) <==> exists e :: e in events && j == JsonOf(repr, e)
  {
    hide JsonOf;
    if events != [] {
      var front, last := events[..|events| - 1], events[|events| - 1];
      assert events == front + [last];
      JsonsHave(repr, front, j);
    }
  }

  lemma ItemsAreEvents(repr: Repr, spans: seq<Span>, j: Json)
    requires !Dangles(repr, spans)
    ensures InFile(repr, spans, j) <==> exists e :: e in WrittenEvents(repr, spans) && j == JsonOf(repr, e)
  {
    hide ReadJson, FileAfter, Dangles, WrittenEvents, JsonsOf, JsonOf;
    FileReads(repr, spans);
    JsonsHave(repr, WrittenEvents(repr, spans), j);
  }

  /** The events of an export that succeeded are among those written, and no others are. */
  lemma {:induction false} WrittenHave(repr: Repr, spans: seq<Span>, e: Event)
    ensures e in WrittenEvents(repr, spans) <==>
            exists k :: 0 <= k < |spans| && EventOf(repr, spans, k, e)
  {
    hide EventsOfLast, Encodable;
    if spans != [] {
      var front := spans[..|spans| - 1];
      WrittenHave(repr, front, e);
      assert spans[..|front| + 1] == spans;
      forall k | 0 <= k < |front| ensures EventOf(repr, front, k, e) <==> EventOf(repr, spans, k, e) {
        assert front[..k + 1] == spans[..k + 1];
      }
      assert EventOf(repr, spans, |front|, e) <==> Encodable(repr, EventsOfLast(spans)) && e in EventsOfLast(spans);
    }
  }

  /** The export of span k succeeded, and the event is one of its events. */
  ghost predicate EventOf(repr: Repr, spans: seq<Span>, k: int, e: Event)
    requires 0 <= k < |spans|
  {
    Encodable(repr, EventsOfLast(spans[..k + 1])) && e in EventsOfLast(spans[..k + 1])
  }

  /** The pairs that the export of span k emits. */
  ghost function FlowsOf(spans: seq<Span>, k: nat): seq<Flow>
    requires k < |spans|
  {
    Convert(MAX_TRACKED_SPANS, Run(MAX_TRACKED_SPANS, spans[..k]).tables, spans[k], |spans[k].links|).flows
  }

  lemma EventsOfExport(spans: seq<Span>, k: nat)
    requires k < |spans|
    ensures EventsOfLast(spans[..k + 1]) == [CompleteEvent(spans[k])] + AllFlowEvents(FlowsOf(spans, k))
  {
    hide EventsOfLast, Convert, Run, CompleteEvent, AllFlowEvents;
    LastEvents(spans[..k], spans[k]);
    assert spans[..k + 1] == spans[..k] + [spans[k]];
  }

  lemma {:induction false} FlowEventsHave(flows: seq<Flow>, f: Flow)
    requires f in flows
    ensures forall e :: e in FlowEvents(f) ==> e in AllFlowEvents(flows)
  {
    hide FlowEvents;
    var front, last := flows[..|flows| - 1], flows[|flows| - 1];
    assert flows == front + [last];
    if f != last {
      FlowEventsHave(front, f);
    }
  }

  lemma EventShown(repr: Repr, spans: seq<Span>, k: nat, e: Event)
    requires k < |spans| && !Dangles(repr, spans) && EventOf(repr, spans, k, e)
    ensures InFile(repr, spans, JsonOf(repr, e))
  {
    hide Dangles, InFile, EventOf, WrittenEvents, JsonOf;
    WrittenHave(repr, spans, e);
    ItemsAreEvents(repr, spans, JsonOf(repr, e));
  }

  /** A span whose export succeeded is shown in the file. */
  lemma SpanShown(repr: Repr, spans: seq<Span>, k: nat) returns (x: Json)
    requires k < |spans| && !Dangles(repr, spans) && Encodable(repr, EventsOfLast(spans[..k + 1])) && FromDicts(spans[k])
    ensures InFile(repr, spans, x) && ShowsSpan(repr, x, spans[k])
  {
    hide Dangles, Encodable, EventsOfLast, JsonOf, InFile, ShowsSpan, FromDicts, CompleteEvent, AllFlowEvents, FlowsOf;
    EventsOfExport(spans, k);
    assert [CompleteEvent(spans[k])][0] == CompleteEvent(spans[k]);
    EventShown(repr, spans, k, CompleteEvent(spans[k]));
    x := JsonOf(repr, CompleteEvent(spans[k]));
    CompleteShown(repr, spans[k]);
  }

  /** A pair of a successful export is shown in the file: an arrow from the place it starts at to the place of the span. */
  lemma FlowShown(repr: Repr, spans: seq<Span>, k: nat, f: Flow) returns (a: Json, b: Json)
    requires k < |spans| && !Dangles(repr, spans) && Encodable(repr, EventsOfLast(spans[..k + 1])) && f in FlowsOf(spans, k)
    ensures InFile(repr, spans, a) && StartsArrow(a, f.to.flowId, f.source.span) && At(repr, a, f.from)
    ensures InFile(repr, spans, b) && EndsArrow(b, f.to.flowId) && At(repr, b, Position(f.to.pid, f.to.tid, f.to.ts))
  {
    hide Dangles, Encodable, EventsOfLast, JsonOf, InFile, StartsArrow, EndsArrow, At, CompleteEvent, AllFlowEvents, FlowsOf;
    EventsOfExport(spans, k);
    FlowEventsHave(FlowsOf(spans, k), f);
    var start, end := FlowEvents(f)[0], FlowEvents(f)[1];
    assert start in FlowEvents(f) && end in FlowEvents(f);
    EventShown(repr, spans, k, start);
    EventShown(repr, spans, k, end);
    a, b := JsonOf(repr, start), JsonOf(repr, end);
    StartShown(repr, start);
    EndShown(repr, end);
  }

  // ------------------------------------------------------------ a link in the file

  lemma {:induction false} FlowOfSome(spans: seq<Span>, f: Flow) returns (k: nat)
    requires f in Run(MAX_TRACKED_SPANS, spans).flows
    ensures k < |spans| && f in FlowsOf(spans, k)
  {
    hide Convert;
    var front := spans[..|spans| - 1];
    if f in Run(MAX_TRACKED_SPANS, front).flows {
      k := FlowOfSome(front, f);
      assert front[..k] == spans[..k];
    } else {
      k := |front|;
    }
  }

  lemma {:induction false} LinkIn(s: Span, n: nat, l: nat, k: Key)
    requires l < n <= |s.links| && s.links[l] == k
    ensures LinksIn(s, n, k, DestinationOf(s, k)) > 0
  {
    hide DestinationOf;
    if l < n - 1 {
      LinkIn(s, n - 1, l, k);
    }
  }

  lemma {:induction false} LinkCounted(spans: seq<Span>, i: nat, l: nat)
    requires i < |spans| && l < |spans[i].links|
    ensures LinkCount(spans, spans[i].links[l], DestinationOf(spans[i], spans[i].links[l])) > 0
  {
    hide DestinationOf;
    if i < |spans| - 1 {
      LinkCounted(spans[..|spans| - 1], i, l);
    } else {
      LinkIn(spans[i], |spans[i].links|, l, spans[i].links[l]);
    }
  }

  lemma LinkIsEmitted(spans: seq<Span>, i: nat, l: nat, j: nat)
    requires WithinLimits(MAX_TRACKED_SPANS, spans)
    requires i < |spans| && l < |spans[i].links| && j < |spans| && spans[i].links[l] == spans[j].key
    ensures Flow(spans[j].key, PositionOf(spans[j]), DestinationOf(spans[i], spans[j].key)) in Run(MAX_TRACKED_SPANS, spans).flows
  {
    hide DestinationOf, PositionOf, LinkCount, Run;
    FlowsExactly(MAX_TRACKED_SPANS, spans);
    LinkCounted(spans, i, l);
    assert Arrived(spans, spans[j].key, PositionOf(spans[j]));
  }

  lemma CleanExports(repr: Repr, spans: seq<Span>, k: nat)
    requires CleanSpans(spans) && k < |spans|
    ensures Encodable(repr, EventsOfLast(spans[..k + 1])) && !Dangles(repr, spans)
  {
    hide Encodable, EventsOfLast, CleanSpan, Dangles;
    CleanWritten(repr, spans);
    CleanSpanIsWritten(repr, spans[..k], spans[k]);
    assert spans[..k + 1] == spans[..k] + [spans[k]];
  }

  /** For every link whose source is among the spans, whatever their order, the file shows both spans and an arrow from the start of
      the one to the start of the other: two objects with one id, the first in the place of the source, the second in that of the
      span that has the link. */
  lemma LinksAreShown(repr: Repr, spans: seq<Span>, i: nat, l: nat, j: nat) returns (x: Json, y: Json, a: Json, b: Json, id: Text)
    requires CleanSpans(spans) && WithinLimits(MAX_TRACKED_SPANS, spans) && forall k :: 0 <= k < |spans| ==> FromDicts(spans[k])
    requires i < |spans| && l < |spans[i].links| && j < |spans| && spans[i].links[l] == spans[j].key
    ensures InFile(repr, spans, x) && ShowsSpan(repr, x, spans[j])
    ensures InFile(repr, spans, y) && ShowsSpan(repr, y, spans[i])
    ensures InFile(repr, spans, a) && StartsArrow(a, id, spans[j].key.span) && SamePlace(a, x)
    ensures InFile(repr, spans, b) && EndsArrow(b, id) && SamePlace(b, y)
    ensures id == FlowId(spans[j].key, spans[i].key)
  {
    hide InFile, ShowsSpan, StartsArrow, EndsArrow, SamePlace, At, CleanSpans, WithinLimits, FromDicts, Run, Encodable, EventsOfLast, Dangles;
    hide FlowsOf, FlowId;
    CleanExports(repr, spans, i);
    CleanExports(repr, spans, j);
    x := SpanShown(repr, spans, j);
    y := SpanShown(repr, spans, i);
    LinkIsEmitted(spans, i, l, j);
    var f := Flow(spans[j].key, PositionOf(spans[j]), DestinationOf(spans[i], spans[j].key));
    var k := FlowOfSome(spans, f);
    CleanExports(repr, spans, k);
    a, b := FlowShown(repr, spans, k, f);
    id := f.to.flowId;
    PlaceOf(repr, x, spans[j], a);
    PlaceOf(repr, y, spans[i], b);
  }

  /** What stands at the position of a span stands where the object that shows the span does. */
  lemma PlaceOf(repr: Repr, x: Json, s: Span, a: Json)
    requires ShowsSpan(repr, x, s) && At(repr, a, PositionOf(s))
    ensures SamePlace(a, x)
  {
    hide ShowsArgs, Get, Lasting;
  }

  // ------------------------------------------------------------ an arrow for nothing but a link

  lemma {:induction false} LinkOf(s: Span, n: nat, k: Key, d: Destination) returns (l: nat)
    requires n <= |s.links| && LinksIn(s, n, k, d) > 0
    ensures l < n && s.links[l] == k && DestinationOf(s, k) == d
  {
    hide DestinationOf;
    if s.links[n - 1] == k && DestinationOf(s, k) == d {
      l := n - 1;
    } else {
      l := LinkOf(s, n - 1, k, d);
    }
  }

  lemma {:induction false} SpanWithLink(spans: seq<Span>, k: Key, d: Destination) returns (i: nat, l: nat)
    requires LinkCount(spans, k, d) > 0
    ensures i < |spans| && l < |spans[i].links| && spans[i].links[l] == k && DestinationOf(spans[i], k) == d
  {
    hide DestinationOf, LinksIn;
    var front, s := spans[..|spans| - 1], spans[|spans| - 1];
    if LinksIn(s, |s.links|, k, d) > 0 {
      i := |front|;
      l := LinkOf(s, |s.links|, k, d);
    } else {
      i, l := SpanWithLink(front, k, d);
    }
  }

  lemma {:induction false} PairCounted(flows: seq<Flow>, f: Flow)
    requires f in flows
    ensures PairCount(flows, f.source, f.to) > 0
  {
    var front, last := flows[..|flows| - 1], flows[|flows| - 1];
    assert flows == front + [last];
    if f in front {
      PairCounted(front, f);
    }
  }

  lemma EmittedSoFar(spans: seq<Span>, k: nat, f: Flow)
    requires k < |spans| && f in FlowsOf(spans, k)
    ensures f in Run(MAX_TRACKED_SPANS, spans[..k + 1]).flows
  {
    hide Run, Convert;
    RunOne(MAX_TRACKED_SPANS, spans[..k], spans[k]);
    assert spans[..k + 1] == spans[..k] + [spans[k]];
  }

  /** A pair that is emitted, past the limits too, belongs to a link of a span that has arrived to one that has arrived. */
  lemma FlowIsLink(spans: seq<Span>, k: nat, f: Flow) returns (i: nat, l: nat, j: nat)
    requires k < |spans| && f in FlowsOf(spans, k)
    ensures i <= k && l < |spans[i].links| && j <= k && spans[i].links[l] == spans[j].key
    ensures f == Flow(spans[j].key, PositionOf(spans[j]), DestinationOf(spans[i], spans[j].key))
  {
    hide Run, FlowsOf, DestinationOf, PositionOf, LinkCount, PairCount, Waiting;
    var part := spans[..k + 1];
    var o := Run(MAX_TRACKED_SPANS, part);
    EmittedSoFar(spans, k, f);
    PairsAreSound(MAX_TRACKED_SPANS, part);
    assert Arrived(part, f.source, f.from);
    j :| 0 <= j < |part| && part[j].key == f.source && PositionOf(part[j]) == f.from;
    PairCounted(o.flows, f);
    EveryLinkOnce(MAX_TRACKED_SPANS, part, f.source, f.to);
    i, l := SpanWithLink(part, f.source, f.to);
  }

  lemma {:induction false} PairOf(flows: seq<Flow>, e: Event) returns (f: Flow)
    requires e in AllFlowEvents(flows)
    ensures f in flows && e in FlowEvents(f)
  {
    hide FlowEvents;
    var front, last := flows[..|flows| - 1], flows[|flows| - 1];
    assert flows == front + [last];
    if e in FlowEvents(last) {
      f := last;
    } else {
      f := PairOf(front, e);
    }
  }

  lemma PhOf(repr: Repr, e: Event)
    ensures Get(JsonOf(repr, e), "ph") == Some(Str(Ascii(if e.Complete? then "X" else if e.FlowStart? then "s" else "f")))
  {
    hide IsDict, Get, Integer, ArgsOf;
    var d := JsonOf(repr, e).members;
    match e
    case Complete(_, _, _, _, _, _) =>
      CompleteNames(repr, e);
      GetMember(d, 2, "ph");
    case FlowStart(_, _, _, _, _) =>
      StartNames(repr, e);
      GetMember(d, 2, "ph");
    case FlowEnd(_, _, _, _) =>
      EndNames(repr, e);
      GetMember(d, 2, "ph");
  }

  lemma PhApart()
    ensures Ascii("X") != Ascii("s") && Ascii("f") != Ascii("s") && Ascii("X") != Ascii("f")
  {
    assert Ascii("X")[0] == 'X' as int && Ascii("s")[0] == 's' as int && Ascii("f")[0] == 'f' as int;
  }

  /** Each arrow in the file, whatever was exported, starts at a span that has arrived and is meant for a link to it. */
  lemma ArrowsAreLinks(repr: Repr, spans: seq<Span>, a: Json) returns (i: nat, l: nat, j: nat)
    requires InFile(repr, spans, a) && Get(a, "ph") == Some(Str(Ascii("s")))
    ensures i < |spans| && l < |spans[i].links| && j < |spans| && spans[i].links[l] == spans[j].key
    ensures StartsArrow(a, FlowId(spans[j].key, spans[i].key), spans[j].key.span) && At(repr, a, PositionOf(spans[j]))
  {
    hide ReadJson, FileAfter, Dangles, WrittenEvents, JsonOf, Get, StartsArrow, At, FlowsOf, AllFlowEvents, FlowId, EventsOfLast;
    hide CompleteEvent, Encodable;
    assert !Dangles(repr, spans) by {
      FileReads(repr, spans);
    }
    ItemsAreEvents(repr, spans, a);
    var e :| e in WrittenEvents(repr, spans) && a == JsonOf(repr, e);
    PhOf(repr, e);
    PhApart();
    assert e.FlowStart?;
    WrittenHave(repr, spans, e);
    var k :| 0 <= k < |spans| && EventOf(repr, spans, k, e);
    EventsOfExport(spans, k);
    assert e != CompleteEvent(spans[k]) by {
      NoArrow(spans[k]);
    }
    var f := PairOf(FlowsOf(spans, k), e);
    i, l, j := FlowIsLink(spans, k, f);
    StartShown(repr, e);
  }

  lemma NoArrow(s: Span)
    ensures CompleteEvent(s).Complete?
  {
  }

  // ------------------------------------------------------------ the ids of arrows

  /** Two arrows have one id exactly if their sources and the span ids of their destinations agree, as long as no id has a colon. */
  lemma FlowIdsTellApart(a: Key, b: Key, c: Key, d: Key)
    requires COLON !in a.trace && COLON !in a.span && COLON !in c.trace && COLON !in c.span
    ensures FlowId(a, b) == FlowId(c, d) <==> a == c && b.span == d.span
  {
    assert FlowId(a, b) == a.trace + [COLON] + (a.span + [COLON] + b.span);
    assert FlowId(c, d) == c.trace + [COLON] + (c.span + [COLON] + d.span);
    if FlowId(a, b) == FlowId(c, d) {
      UpToColon(a.trace, a.span + [COLON] + b.span, c.trace, c.span + [COLON] + d.span);
      UpToColon(a.span, b.span, c.span, d.span);
    }
  }

  lemma UpToColon(a: Text, rest: Text, b: Text, rest': Text)
    requires COLON !in a && COLON !in b
    ensures a + [COLON] + rest == b + [COLON] + rest' ==> a == b && rest == rest'
  {
    var t, t' := a + [COLON] + rest, b + [COLON] + rest';
    if t == t' {
      assert t[|a|] == COLON && t'[|b|] == COLON;
      assert |a| == |b|;
      assert a == t[..|a|] && b == t'[..|b|] && rest == t[|a| + 1..] && rest' == t'[|b| + 1..];
    }
  }

  /** With colons in them different sources can share an id: nothing keeps them out. */
  lemma ColonsConfuse(destination: Key)
    ensures FlowId(Key([0x61, COLON, 0x62], [0x63]), destination) == FlowId(Key([0x61], [0x62, COLON, 0x63]), destination)
  {
    var a, b: Text := [0x61, COLON, 0x62] + [COLON] + [0x63], [0x61] + [COLON] + [0x62, COLON, 0x63];
    assert a == b;
  }
}
