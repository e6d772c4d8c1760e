module PerfettoRuns {
  /** When the trace file is a JSON array, and of which events, whatever spans are exported (tracer/perfetto_exporter.py). */

  import opened Basics
  import opened CodePoints
  import opened PerfettoFlows
  import opened PerfettoJson
  import opened PerfettoEvents
  import opened PerfettoExporter

  // ------------------------------------------------------------ what the file reads as

  lemma {:induction false} WrittenWhole(repr: Repr, spans: seq<Span>)
    ensures AllWhole(WrittenBy(repr, spans))
  {
    hide AllWhole, Texts, Encodable, EventsOfLast;
    if spans == [] {
      NothingWhole();
    } else {
      var front := WrittenBy(repr, spans[..|spans| - 1]);
      WrittenWhole(repr, spans[..|spans| - 1]);
      TextsWhole(repr, EventsOfLast(spans), front);
      assert front + [] == front;
    }
  }

  lemma NothingWhole()
    ensures AllWhole([])
  {
  }

  /** After any spans what is between the brackets of the file is exactly what was written, unless the last export failed and left it
      dangling: then the last bracket is missing. */
  lemma ReadsAsWritten(repr: Repr, spans: seq<Span>)
    ensures ReadArray(FileAfter(repr, spans)) == if Dangles(repr, spans) then None else Some(WrittenBy(repr, spans))
  {
    hide AllWhole, WrittenBy, Dangles, FileText, ReadArray;
    WrittenWhole(repr, spans);
    FileIsArray(WrittenBy(repr, spans), Dangles(repr, spans));
  }

  /** The events of all spans that could be encoded. */
  ghost function WrittenEvents(repr: Repr, spans: seq<Span>): seq<Event> {
    if spans == [] then []
    else WrittenEvents(repr, spans[..|spans| - 1]) + if Encodable(repr, EventsOfLast(spans)) then EventsOfLast(spans) else []
  }

  lemma {:induction false} WrittenAreTexts(repr: Repr, spans: seq<Span>)
    ensures WrittenBy(repr, spans) == Texts(repr, WrittenEvents(repr, spans))
  {
    hide EventsOfLast, Encodable, Texts;
    if spans == [] {
      NoTexts(repr);
    } else {
      var front := spans[..|spans| - 1];
      WrittenAreTexts(repr, front);
      TextsBoth(repr, WrittenEvents(repr, front), EventsOfLast(spans));
      assert WrittenEvents(repr, front) + [] == WrittenEvents(repr, front);
      assert WrittenBy(repr, front) + [] == WrittenBy(repr, front);
    }
  }

  function JsonsOf(repr: Repr, events: seq<Event>): (js: seq<Json>)
    ensures |js| == |events|
  {
    if events == [] then [] else JsonsOf(repr, events[..|events| - 1]) + [JsonOf(repr, events[|events| - 1])]
  }

  lemma {:induction false} TextsAreDumped(repr: Repr, events: seq<Event>)
    ensures Texts(repr, events) == DumpsAll(JsonsOf(repr, events))
  {
    hide JsonOf, Dumps;
    if events != [] {
      TextsAreDumped(repr, events[..|events| - 1]);
      var js := JsonsOf(repr, events);
      assert js[..|js| - 1] == JsonsOf(repr, events[..|events| - 1]);
    }
  }

  /** After any spans the file is what json.dumps writes for the list of all events that could be encoded, unless the last export
      failed and left it dangling: then it is no JSON array. */
  lemma FileIsJsonArray(repr: Repr, spans: seq<Span>)
    ensures !Dangles(repr, spans) ==> FileAfter(repr, spans) == Dumps(Arr(JsonsOf(repr, WrittenEvents(repr, spans))))
    ensures IsJsonArray(FileAfter(repr, spans)) <==> !Dangles(repr, spans)
  {
    hide Dangles, WrittenBy, WrittenEvents, Texts, JsonsOf, Dumps, ReadArray, ArrayText;
    ReadsAsWritten(repr, spans);
    var events := WrittenEvents(repr, spans);
    WrittenAreTexts(repr, spans);
    TextsAreDumped(repr, events);
    ArrayIsText(JsonsOf(repr, events));
    if Dangles(repr, spans) {
      NoArrayWithout(FileAfter(repr, spans));
    }
  }

  /** The file is a JSON array after every export if and only if no export fails once an event has been written. */
  lemma ArrayExactlyWhen(repr: Repr, spans: seq<Span>)
    ensures (forall k :: 0 <= k <= |spans| ==> IsJsonArray(FileAfter(repr, spans[..k]))) <==>
            (forall k :: 0 <= k < |spans| && WrittenBy(repr, spans[..k]) != [] ==> Encodable(repr, EventsOfLast(spans[..k + 1])))
  {
    hide EventsOfLast, Encodable, IsJsonArray, FileAfter, WrittenBy, Dangles, Dumps;
    forall k | 0 <= k <= |spans| ensures IsJsonArray(FileAfter(repr, spans[..k])) <==> !Dangles(repr, spans[..k]) {
      FileIsJsonArray(repr, spans[..k]);
    }
    NothingDangles(repr, spans);
    if forall k :: 0 <= k < |spans| && WrittenBy(repr, spans[..k]) != [] ==> Encodable(repr, EventsOfLast(spans[..k + 1])) {
      forall k | 0 <= k <= |spans| ensures IsJsonArray(FileAfter(repr, spans[..k])) {
        if k > 0 {
          var j := k - 1;
          DanglesNext(repr, spans, j);
          assert WrittenBy(repr, spans[..j]) != [] ==> Encodable(repr, EventsOfLast(spans[..j + 1]));
        }
      }
    } else {
      var k :| 0 <= k < |spans| && WrittenBy(repr, spans[..k]) != [] && !Encodable(repr, EventsOfLast(spans[..k + 1]));
      DanglesNext(repr, spans, k);
    }
  }

  lemma NothingDangles(repr: Repr, spans: seq<Span>)
    ensures !Dangles(repr, spans[..0])
  {
    assert spans[..0] == [];
  }

  lemma DanglesNext(repr: Repr, spans: seq<Span>, k: nat)
    requires k < |spans|
    ensures Dangles(repr, spans[..k + 1]) <==> WrittenBy(repr, spans[..k]) != [] && !Encodable(repr, EventsOfLast(spans[..k + 1]))
  {
    hide EventsOfLast, Encodable, Texts;
    assert spans[..k + 1][..k] == spans[..k];
    assert WrittenBy(repr, spans[..k]) + [] == WrittenBy(repr, spans[..k]);
  }

  // ------------------------------------------------------------ which exports succeed

  predicate CleanFlow(f: Flow) {
    Encodes(f.to.flowId) && Encodes(f.source.span)
  }

  predicate CleanFlows(flows: seq<Flow>) {
    forall i :: 0 <= i < |flows| ==> CleanFlow(flows[i])
  }

  lemma {:induction false} FlowEventsEncode(repr: Repr, flows: seq<Flow>)
    ensures Encodable(repr, AllFlowEvents(flows)) <==> CleanFlows(flows)
  {
    hide TextOf, Encodes;
    if flows != [] {
      var front, f := flows[..|flows| - 1], flows[|flows| - 1];
      FlowEventsEncode(repr, front);
      EncodableBoth(repr, AllFlowEvents(front), FlowEvents(f));
      PairEncodes(repr, f);
      assert flows == front + [f];
    }
  }

  lemma PairEncodes(repr: Repr, f: Flow)
    ensures Encodable(repr, FlowEvents(f)) <==> CleanFlow(f)
  {
    hide TextOf, Encodes;
    var es := FlowEvents(f);
    FlowEncodes(repr, es[0]);
    FlowEncodes(repr, es[1]);
  }

  lemma EncodableBoth(repr: Repr, a: seq<Event>, b: seq<Event>)
    ensures Encodable(repr, a + b) <==> Encodable(repr, a) && Encodable(repr, b)
  {
    hide TextOf, Encodes;
    if Encodable(repr, a + b) {
      forall i | 0 <= i < |a| ensures Encodes(TextOf(repr, a[i])) {
        assert (a + b)[i] == a[i];
      }
      forall i | 0 <= i < |b| ensures Encodes(TextOf(repr, b[i])) {
        assert (a + b)[|a| + i] == b[i];
      }
    }
  }

  /** An export succeeds if and only if the event of its span and the ids of its pairs can be encoded. */
  lemma ExportSucceedsExactlyWhen(repr: Repr, spans: seq<Span>, s: Span)
    ensures var flows := Convert(MAX_TRACKED_SPANS, Run(MAX_TRACKED_SPANS, spans).tables, s, |s.links|).flows;
            Encodable(repr, EventsOfLast(spans + [s])) <==> Encodes(TextOf(repr, CompleteEvent(s))) && CleanFlows(flows)
  {
    hide TextOf, Encodes, CleanFlows, EventsOfLast, AllFlowEvents, Convert, Run;
    LastEvents(spans, s);
    var flows := Convert(MAX_TRACKED_SPANS, Run(MAX_TRACKED_SPANS, spans).tables, s, |s.links|).flows;
    EncodableBoth(repr, [CompleteEvent(s)], AllFlowEvents(flows));
    FlowEventsEncode(repr, flows);
    assert [CompleteEvent(s)][0] == CompleteEvent(s);
  }

  // ------------------------------------------------------------ spans without surrogates

  predicate CleanSpan(s: Span) {
    CleanKey(s.key) && CleanDetails(s.details) && forall i :: 0 <= i < |s.links| ==> CleanKey(s.links[i])
  }

  predicate CleanSpans(spans: seq<Span>) {
    forall i :: 0 <= i < |spans| ==> CleanSpan(spans[i])
  }

  predicate CleanWaiting(ds: seq<Destination>) {
    forall i :: 0 <= i < |ds| ==> Encodes(ds[i].flowId)
  }

  ghost predicate CleanTables(t: Tables) {
    forall k :: CleanWaiting(Waiting(t, k))
  }

  lemma FlowIdClean(source: Key, destination: Key)
    requires CleanKey(source) && CleanKey(destination)
    ensures Encodes(FlowId(source, destination))
  {
    hide Encodes;
    OneEncodes(COLON);
    EncodesBoth(source.trace, [COLON]);
    EncodesBoth(source.trace + [COLON], source.span);
    EncodesBoth(source.trace + [COLON] + source.span, [COLON]);
    EncodesBoth(source.trace + [COLON] + source.span + [COLON], destination.span);
  }

  lemma ArriveClean(max: nat, t: Tables, s: Span)
    requires CleanTables(t) && CleanKey(s.key)
    ensures CleanTables(Arrive(max, t, s).tables) && CleanFlows(Arrive(max, t, s).flows)
  {
    hide Encodes, Remember;
    var t' := Remember(max, t, s.key, PositionOf(s));
    RememberKeeps(max, t, s.key, PositionOf(s));
    assert CleanWaiting(Waiting(t, s.key));
    assert Waiting(t', s.key) == Waiting(t, s.key);
    var o := Arrive(max, t, s);
    forall k ensures CleanWaiting(Waiting(o.tables, k)) {
      assert CleanWaiting(Waiting(t, k));
      assert k != s.key ==> Waiting(o.tables, k) == Waiting(t, k);
    }
  }

  lemma RememberKeeps(max: nat, t: Tables, key: Key, p: Position)
    ensures Remember(max, t, key, p).pending == t.pending
  {
  }

  lemma LinkClean(max: nat, t: Tables, s: Span, source: Key)
    requires CleanTables(t) && CleanKey(s.key) && CleanKey(source)
    ensures CleanTables(Link(max, t, s, source).tables) && CleanFlows(Link(max, t, s, source).flows)
  {
    hide Encodes, FlowId;
    FlowIdClean(source, s.key);
    var o := Link(max, t, s, source);
    forall k ensures CleanWaiting(Waiting(o.tables, k)) {
      assert CleanWaiting(Waiting(t, k));
      assert k != source ==> Waiting(o.tables, k) == Waiting(t, k);
    }
  }

  lemma {:induction false} ConvertClean(max: nat, t: Tables, s: Span, n: nat)
    requires n <= |s.links| && CleanTables(t) && CleanSpan(s)
    ensures CleanTables(Convert(max, t, s, n).tables) && CleanFlows(Convert(max, t, s, n).flows)
  {
    hide CleanTables, Arrive, Link, CleanKey, CleanFlow;
    if n == 0 {
      ArriveClean(max, t, s);
    } else {
      ConvertClean(max, t, s, n - 1);
      LinkClean(max, Convert(max, t, s, n - 1).tables, s, s.links[n - 1]);
    }
  }

  lemma {:induction false} RunClean(max: nat, spans: seq<Span>)
    requires CleanSpans(spans)
    ensures CleanTables(Run(max, spans).tables)
  {
    hide CleanSpan, Convert;
    if spans != [] {
      RunClean(max, spans[..|spans| - 1]);
      var s := spans[|spans| - 1];
      ConvertClean(max, Run(max, spans[..|spans| - 1]).tables, s, |s.links|);
    }
  }

  lemma CleanSpanIsWritten(repr: Repr, spans: seq<Span>, s: Span)
    requires CleanSpans(spans) && CleanSpan(s)
    ensures Encodable(repr, EventsOfLast(spans + [s]))
  {
    hide Run, Convert, CleanSpans, EventsOfLast, Encodable, TextOf, Encodes, CleanFlows;
    RunClean(MAX_TRACKED_SPANS, spans);
    ConvertClean(MAX_TRACKED_SPANS, Run(MAX_TRACKED_SPANS, spans).tables, s, |s.links|);
    ExportSucceedsExactlyWhen(repr, spans, s);
    CompleteEncodes(repr, CompleteEvent(s));
  }

  /** The events of all spans in the order of their export. */
  ghost function AllEvents(spans: seq<Span>): seq<Event> {
    if spans == [] then [] else AllEvents(spans[..|spans| - 1]) + EventsOfLast(spans)
  }

  lemma {:induction false} TextsBoth(repr: Repr, a: seq<Event>, b: seq<Event>)
    ensures Texts(repr, a + b) == Texts(repr, a) + Texts(repr, b)
  {
    hide TextOf;
    TextsAre(repr, a);
    TextsAre(repr, b);
    TextsAre(repr, a + b);
    forall i | 0 <= i < |a + b| ensures Texts(repr, a + b)[i] == (Texts(repr, a) + Texts(repr, b))[i] {
      assert (a + b)[i] == if i < |a| then a[i] else b[i - |a|];
    }
  }

  lemma {:induction false} CleanWritten(repr: Repr, spans: seq<Span>)
    requires CleanSpans(spans)
    ensures WrittenEvents(repr, spans) == AllEvents(spans)
    ensures !Dangles(repr, spans)
  {
    hide EventsOfLast, Encodable, CleanSpan;
    if spans != [] {
      var front, s := spans[..|spans| - 1], spans[|spans| - 1];
      assert spans == front + [s];
      CleanWritten(repr, front);
      CleanSpanIsWritten(repr, front, s);
    }
  }

  lemma NoTexts(repr: Repr)
    ensures Texts(repr, []) == []
  {
  }

  /** Spans without surrogates: after each export the file is the array of all events so far. */
  lemma CleanSpansGiveArray(repr: Repr, spans: seq<Span>)
    requires CleanSpans(spans)
    ensures FileAfter(repr, spans) == Dumps(Arr(JsonsOf(repr, AllEvents(spans))))
    ensures ReadArray(FileAfter(repr, spans)) == Some(Texts(repr, AllEvents(spans)))
  {
    hide ReadArray, FileAfter, Texts, AllEvents, WrittenEvents, Dangles, CleanSpans, JsonsOf, Dumps;
    FileIsJsonArray(repr, spans);
    CleanWritten(repr, spans);
    TextsAreDumped(repr, AllEvents(spans));
    ReadsDumped(JsonsOf(repr, AllEvents(spans)));
  }

  // ------------------------------------------------------------ one surrogate

  /** A name with a lone surrogate after any span that could be written: the file is no array. */
  lemma SurrogateLeavesNoArray(repr: Repr, first: Span, second: Span)
    requires CleanSpan(first) && second.details.name == Str([0xD800])
    ensures !IsJsonArray(FileAfter(repr, [first, second])) && ReadArray(FileAfter(repr, [first, second])) == None
  {
    hide ReadArray, IsJsonArray, FileAfter, Dumps, EventsOfLast, Encodable, Texts, CleanSpan, Run, Convert, TextOf, CleanFlows;
    assert [first, second][..1] == [first] && [first] + [second] == [first, second] && [] + [first] == [first];
    assert [first][..0] == [];
    CleanSpanIsWritten(repr, [], first);
    SomeEvents([], first);
    assert |Texts(repr, EventsOfLast([first]))| > 0;
    assert WrittenBy(repr, [first]) != [];
    NameIsLone(second.details.name);
    NameDecides(repr, CompleteEvent(second));
    ExportSucceedsExactlyWhen(repr, [first], second);
    ReadsAsWritten(repr, [first, second]);
    FileIsJsonArray(repr, [first, second]);
  }

  lemma NameIsLone(name: Json)
    requires name == Str([0xD800])
    ensures !Clean(name)
  {
    assert Surrogate(name.text[0]);
  }

  lemma SomeEvents(spans: seq<Span>, s: Span)
    ensures EventsOfLast(spans + [s]) != []
  {
    hide EventsOfLast, Convert, Run;
    LastEvents(spans, s);
  }

  /** A span without surrogates is not written when an earlier one, with a surrogate in its id, waits for it. */
  lemma EarlierSurrogateSpreads(repr: Repr, first: Span, second: Span)
    requires first.key.span == [0xD800] && first.links == [second.key] && first.key != second.key && CleanSpan(second)
    ensures !Encodable(repr, EventsOfLast([first, second]))
  {
    hide EventsOfLast, Encodable, TextOf, Encodes, Convert, Run, Arrive;
    var tables := Run(MAX_TRACKED_SPANS, [first]).tables;
    FirstWaits(first, second.key);
    ArrivePrefix(MAX_TRACKED_SPANS, tables, second, |second.links|);
    WaitingFlow(MAX_TRACKED_SPANS, tables, second);
    LoneId(second.key, first.key);
    var flows := Convert(MAX_TRACKED_SPANS, tables, second, |second.links|).flows;
    assert flows[0].to.flowId == FlowId(second.key, first.key) && !CleanFlow(flows[0]);
    assert [first, second] == [first] + [second];
    ExportSucceedsExactlyWhen(repr, [first], second);
  }

  lemma LoneId(source: Key, destination: Key)
    requires destination.span == [0xD800]
    ensures !Encodes(FlowId(source, destination))
  {
    var id := FlowId(source, destination);
    assert id[|id| - 1] == 0xD800;
  }

  lemma FirstWaits(first: Span, source: Key)
    requires first.links == [source] && first.key != source
    ensures Waiting(Run(MAX_TRACKED_SPANS, [first]).tables, source) == [DestinationOf(first, source)]
  {
    hide DestinationOf;
    assert [first][..0] == [];
    var o := Arrive(MAX_TRACKED_SPANS, EMPTY, first);
    assert Convert(MAX_TRACKED_SPANS, EMPTY, first, 0) == o;
    assert source !in o.tables.positions && o.tables.pending == map[];
    assert [] + [DestinationOf(first, source)] == [DestinationOf(first, source)];
  }

  lemma WaitingFlow(max: nat, t: Tables, s: Span)
    ensures |Arrive(max, t, s).flows| == |Waiting(t, s.key)|
    ensures forall i :: 0 <= i < |Waiting(t, s.key)| ==> Arrive(max, t, s).flows[i].to == Waiting(t, s.key)[i]
  {
    RememberKeeps(max, t, s.key, PositionOf(s));
    hide Remember;
  }

  lemma {:induction false} ArrivePrefix(max: nat, t: Tables, s: Span, n: nat)
    requires n <= |s.links|
    ensures Arrive(max, t, s).flows <= Convert(max, t, s, n).flows
  {
    hide Arrive, Link;
    if n > 0 {
      ArrivePrefix(max, t, s, n - 1);
    }
  }
}
