module PerfettoExporter {
  /** PerfettoTraceExporter: its tables and its file (tracer/perfetto_exporter.py). */

  import opened Basics
  import opened CodePoints
  import opened PerfettoFlows
  import opened PerfettoJson
  import opened PerfettoEvents

  // ------------------------------------------------------------ events

  function CompleteEvent(s: Span): Event {
    var dur := if s.endNs > s.startNs then s.endNs - s.startNs else 0;
    Complete(s.key, s.pid, s.tid, s.startNs as real / 1000.0, dur as real / 1000.0, s.details)
  }

  /** _make_flow_events */
  function FlowEvents(f: Flow): seq<Event> {
    [FlowStart(f.from.pid, f.from.tid, f.from.ts, f.to.flowId, f.source.span),
     FlowEnd(f.to.pid, f.to.tid, f.to.ts, f.to.flowId)]
  }

  function AllFlowEvents(flows: seq<Flow>): seq<Event> {
    if flows == [] then [] else AllFlowEvents(flows[..|flows| - 1]) + FlowEvents(flows[|flows| - 1])
  }

  lemma {:induction false} FlowEventsMore(a: seq<Flow>, b: seq<Flow>)
    ensures AllFlowEvents(a + b) == AllFlowEvents(a) + AllFlowEvents(b)
  {
    hide FlowEvents;
    if b == [] {
      assert a + b == a;
    } else {
      assert (a + b)[..|a + b| - 1] == a + b[..|b| - 1];
      FlowEventsMore(a, b[..|b| - 1]);
    }
  }

  /** The events of flow k are the k-th pair: they carry one id, start at its source and end at its destination. */
  lemma {:induction false} PairsInOrder(flows: seq<Flow>, k: nat)
    requires k < |flows|
    ensures var es := AllFlowEvents(flows);
            && |es| == 2 * |flows| && es[2 * k].FlowStart? && es[2 * k + 1].FlowEnd? && es[2 * k].id == es[2 * k + 1].id
            && Position(es[2 * k].pid, es[2 * k].tid, es[2 * k].ts) == flows[k].from
            && Destination(es[2 * k + 1].pid, es[2 * k + 1].tid, es[2 * k + 1].ts, es[2 * k + 1].id) == flows[k].to
  {
    var front := flows[..|flows| - 1];
    if front != [] {
      PairsInOrder(front, if k < |front| then k else 0);
    }
  }

  // ------------------------------------------------------------ the file

  /** A text file opened for reading and writing.  Text is overwritten in place. */
  class TextFile {
    var content: Text
    var position: nat

    constructor ()
      ensures content == [] && position == 0
    {
      content, position := [], 0;
    }

    /** seek(0, os.SEEK_END) followed by seek(tell() - 1) */
    method SeekLast()
      requires content != []
      modifies this`position
      ensures position == |content| - 1
    {
      position := |content|;
      position := position - 1;
    }

    method Write(t: Text)
      requires position <= |content|
      modifies this
      ensures position == old(position) + |t|
      ensures content == old(content)[..old(position)] + t
                         + if position < |old(content)| then old(content)[position..] else []
      ensures position >= |old(content)| ==> content == old(content)[..old(position)] + t && position == |content|
    {
      var end := position + |t|;
      content := content[..position] + t + if end < |content| then content[end..] else [];
      position := end;
    }

    method Truncate()
      requires position <= |content|
      modifies this`content
      ensures content == old(content)[..position]
    {
      content := content[..position];
    }

    /** The last writes of an export. */
    method Finish(t: Text)
      requires position <= |content| <= position + 1
      modifies this
      ensures content == old(content)[..old(position)] + t + [CLOSE_ARRAY]
    {
      Write(t);
      Write([CLOSE_ARRAY]);
      Truncate();
    }
  }

  /** The file after the events `written`.  It dangles when the last export failed halfway. */
  ghost function FileText(written: seq<Text>, dangling: bool): Text {
    if dangling then [OPEN_ARRAY] + Join(written) + [COMMA] else ArrayText(written)
  }

  predicate Encodable(repr: Repr, events: seq<Event>) {
    forall i :: 0 <= i < |events| ==> Encodes(TextOf(repr, events[i]))
  }

  function Texts(repr: Repr, events: seq<Event>): (ts: seq<Text>)
    ensures |ts| == |events|
  {
    if events == [] then [] else Texts(repr, events[..|events| - 1]) + [TextOf(repr, events[|events| - 1])]
  }

  lemma {:induction false} TextsAre(repr: Repr, events: seq<Event>)
    ensures forall i :: 0 <= i < |events| ==> Texts(repr, events)[i] == TextOf(repr, events[i])
  {
    hide TextOf;
    if events != [] {
      TextsAre(repr, events[..|events| - 1]);
    }
  }

  lemma TextsWhole(repr: Repr, events: seq<Event>, written: seq<Text>)
    requires AllWhole(written)
    ensures AllWhole(written + Texts(repr, events))
  {
    hide Whole, Texts, TextOf;
    TextsAre(repr, events);
    forall i | 0 <= i < |events| ensures Whole(Texts(repr, events)[i]) {
      TextIsWhole(repr, events[i]);
    }
  }

  ghost predicate AllWhole(written: seq<Text>) {
    forall i :: 0 <= i < |written| ==> Whole(written[i])
  }

  /** The file is a JSON array, and its values are exactly the events written, if and only if it does not dangle. */
  lemma FileIsArray(written: seq<Text>, dangling: bool)
    requires AllWhole(written)
    ensures ReadArray(FileText(written, dangling)) == if dangling then None else Some(written)
  {
    hide Whole, ReadArray, Join;
    if dangling {
      NotAnArray([OPEN_ARRAY] + Join(written), COMMA);
    } else {
      ReadsBack(written);
    }
  }

  class PerfettoTraceExporter {
    const repr: Repr
    const file: TextFile
    var hasEvents: bool
    var closed: bool
    var spanPositions: map<Key, Position>
    var spanOrder: seq<Key>
    var pendingLinks: map<Key, seq<Destination>>
    ghost var written: seq<Text>
    ghost var dangling: bool

    ghost predicate Valid()
      reads this, file
    {
      && AllWhole(written)
      && file.content == FileText(written, dangling)
      && (hasEvents <==> written != []) && (dangling ==> written != [])
    }

    function Tables(): Tables
      reads this
    {
      PerfettoFlows.Tables(spanPositions, spanOrder, pendingLinks)
    }

    constructor (repr: Repr)
      ensures Valid() && Tables() == EMPTY && written == [] && !closed && fresh(file) && this.repr == repr
    {
      var f := new TextFile();
      f.Write(Ascii("[]"));
      this.repr, file := repr, f;
      hasEvents, closed, written, dangling := false, false, [], false;
      spanPositions, spanOrder, pendingLinks := map[], [], map[];
    }

    /** The closing bracket gives way to a comma, or to the first event. */
    method Reopen()
      requires Valid()
      modifies this`dangling, file
      ensures Valid() && (dangling <==> written != [])
      ensures file.position <= |file.content| <= file.position + 1 && file.content[..file.position] == StartOf(written)
    {
      hide Join, AllWhole, FileText, StartOf;
      FileEnds(written, dangling);
      file.SeekLast();
      if hasEvents {
        file.Write([COMMA]);
        LeftDangling(written, dangling);
        dangling := true;
      }
    }

    /** _append_events.  Only the last character of the file is overwritten.  When an event cannot be encoded the export fails,
        and if there are events in the file already it is left dangling until the next export that succeeds. */
    method AppendEvents(events: seq<Event>) returns (ok: bool)
      requires Valid()
      modifies this`hasEvents, this`written, this`dangling, file
      ensures Valid()
      ensures ok <==> events == [] || closed || Encodable(repr, events)
      ensures events == [] || closed ==> written == old(written) && dangling == old(dangling)
      ensures events != [] && !closed && ok ==> written == old(written) + Texts(repr, events) && !dangling
      ensures events != [] && !closed && !ok ==> written == old(written) && (dangling <==> old(written) != [])
    {
      if events == [] || closed {
        return true;
      }
      hide Join, AllWhole, FileText, StartOf, Encodable, Texts, TextOf;
      Reopen();
      if !Encodable(repr, events) {
        return false;
      }
      var texts := Texts(repr, events);
      NewText(written, texts);
      TextsWhole(repr, events, written);
      file.Finish(Join(texts));
      written := written + texts;
      dangling, hasEvents := false, true;
      return true;
    }

    method Close()
      requires Valid()
      modifies this`closed
      ensures Valid() && closed
    {
      closed := true;
    }

    /** _remember_position */
    method RememberPosition(key: Key, position: Position)
      modifies this`spanPositions, this`spanOrder
      ensures Tables() == Remember(MAX_TRACKED_SPANS, old(Tables()), key, position)
    {
      if |spanPositions| >= MAX_TRACKED_SPANS && spanOrder != [] {
        var oldestKey := spanOrder[0];
        spanPositions, spanOrder := spanPositions - {oldestKey}, spanOrder[1..];
      }
      if key !in spanPositions {
        spanOrder := spanOrder + [key];
      }
      spanPositions := spanPositions[key := position];
    }

    /** The span is remembered, and the links that wait for it are resolved. */
    method ResolveWaiting(s: Span) returns (events: seq<Event>)
      modifies this`spanPositions, this`spanOrder, this`pendingLinks
      ensures var o := Arrive(MAX_TRACKED_SPANS, old(Tables()), s);
              Tables() == o.tables && events == AllFlowEvents(o.flows)
    {
      hide FlowEvents, Remember;
      RememberPosition(s.key, PositionOf(s));
      var waiting := if s.key in pendingLinks then pendingLinks[s.key] else [];
      pendingLinks := pendingLinks - {s.key};
      events := [];
      for i := 0 to |waiting|
        invariant events == AllFlowEvents(Joined(s.key, PositionOf(s), waiting[..i]))
      {
        assert waiting[..i + 1][..i] == waiting[..i];
        var flow := Flow(s.key, PositionOf(s), waiting[i]);
        ghost var flows := Joined(s.key, PositionOf(s), waiting[..i]);
        assert (flows + [flow])[..|flows|] == flows;
        events := events + FlowEvents(flow);
      }
      assert waiting[..|waiting|] == waiting;
    }

    /** One turn of the loop over the span's links. */
    method AddLink(s: Span, source: Key) returns (events: seq<Event>)
      modifies this`pendingLinks
      ensures var o := Link(MAX_TRACKED_SPANS, old(Tables()), s, source);
              Tables() == o.tables && events == AllFlowEvents(o.flows)
    {
      hide FlowEvents, DestinationOf;
      var destination := DestinationOf(s, source);
      events := [];
      if source in spanPositions {
        var flow := Flow(source, spanPositions[source], destination);
        assert [flow][..0] == [];
        events := FlowEvents(flow);
      } else if |pendingLinks| < MAX_TRACKED_SPANS {
        pendingLinks := pendingLinks[source := (if source in pendingLinks then pendingLinks[source] else []) + [destination]];
      }
    }

    /** _convert_normalized_span, the part that makes events. */
    method ConvertSpan(s: Span) returns (events: seq<Event>)
      modifies this`spanPositions, this`spanOrder, this`pendingLinks
      ensures var o := Convert(MAX_TRACKED_SPANS, old(Tables()), s, |s.links|);
              Tables() == o.tables && events == [CompleteEvent(s)] + AllFlowEvents(o.flows)
    {
      hide AllFlowEvents, Arrive, Link;
      ghost var tables := Tables();
      events := ResolveWaiting(s);
      events := [CompleteEvent(s)] + events;
      for j := 0 to |s.links|
        invariant Tables() == Convert(MAX_TRACKED_SPANS, tables, s, j).tables
        invariant events == [CompleteEvent(s)] + AllFlowEvents(Convert(MAX_TRACKED_SPANS, tables, s, j).flows)
      {
        var more := AddLink(s, s.links[j]);
        ghost var o := Convert(MAX_TRACKED_SPANS, tables, s, j);
        FlowEventsMore(o.flows, Link(MAX_TRACKED_SPANS, o.tables, s, s.links[j]).flows);
        events := events + more;
      }
    }

    /** export: the events of the span are in the file, all of them or none, and the tables have moved on either way. */
    method Export(s: Span) returns (ok: bool)
      requires Valid() && !closed
      modifies this`hasEvents, this`written, this`dangling, this`spanPositions, this`spanOrder, this`pendingLinks, file
      ensures Valid()
      ensures var o := Convert(MAX_TRACKED_SPANS, old(Tables()), s, |s.links|);
              var events := [CompleteEvent(s)] + AllFlowEvents(o.flows);
              && Tables() == o.tables && (ok <==> Encodable(repr, events))
              && (ok ==> written == old(written) + Texts(repr, events) && !dangling)
              && (!ok ==> written == old(written) && (dangling <==> old(written) != []))
    {
      hide Whole, Join, AllFlowEvents, Convert;
      var events := ConvertSpan(s);
      ok := AppendEvents(events);
    }
  }

  /** What stays in front of new events. */
  ghost function StartOf(written: seq<Text>): Text {
    if written == [] then [OPEN_ARRAY] else [OPEN_ARRAY] + Join(written) + [COMMA]
  }

  lemma FileEnds(written: seq<Text>, dangling: bool)
    requires dangling ==> written != []
    ensures var t := FileText(written, dangling);
            && t != [] && (written == [] ==> t[..|t| - 1] == StartOf(written))
            && t[..|t| - 1] + (if written == [] then [] else [COMMA]) == StartOf(written)
  {
  }

  lemma LeftDangling(written: seq<Text>, dangling: bool)
    requires dangling ==> written != []
    ensures written != [] ==> FileText(written, true) == StartOf(written)
    ensures written == [] ==> FileText(written, dangling) == StartOf(written) + [CLOSE_ARRAY]
  {
  }

  lemma NewText(written: seq<Text>, texts: seq<Text>)
    requires texts != []
    ensures FileText(written + texts, false) == StartOf(written) + Join(texts) + [CLOSE_ARRAY]
  {
    JoinMore(written, texts);
    hide Join;
    var old', new' := Join(written), Join(texts);
    if written == [] {
      assert [] + new' == new';
    } else {
      assert Join(written + texts) == old' + [COMMA] + new';
      assert [OPEN_ARRAY] + (old' + [COMMA] + new') == [OPEN_ARRAY] + old' + [COMMA] + new';
    }
  }

  // ------------------------------------------------------------ whole runs

  /** The events of the last span. */
  function EventsOfLast(spans: seq<Span>): seq<Event>
    requires spans != []
  {
    var tables, s := Run(MAX_TRACKED_SPANS, spans[..|spans| - 1]).tables, spans[|spans| - 1];
    [CompleteEvent(s)] + AllFlowEvents(Convert(MAX_TRACKED_SPANS, tables, s, |s.links|).flows)
  }

  /** What is in the file after the spans: the events of all spans that could be encoded, in order. */
  ghost function WrittenBy(repr: Repr, spans: seq<Span>): seq<Text> {
    if spans == [] then []
    else
      WrittenBy(repr, spans[..|spans| - 1])
      + if Encodable(repr, EventsOfLast(spans)) then Texts(repr, EventsOfLast(spans)) else []
  }

  /** An export that failed is the last one, and there were events in the file before it. */
  ghost predicate Dangles(repr: Repr, spans: seq<Span>) {
    spans != [] && !Encodable(repr, EventsOfLast(spans)) && WrittenBy(repr, spans) != []
  }

  ghost function FileAfter(repr: Repr, spans: seq<Span>): Text {
    FileText(WrittenBy(repr, spans), Dangles(repr, spans))
  }

  /** A new exporter that is given any spans: its tables are those of Run, to which the theorems about links apply, and its file
      is FileAfter, to which the theorems about arrays apply. */
  method ExportAll(repr: Repr, spans: seq<Span>) returns (content: Text, tables: Tables)
    ensures tables == Run(MAX_TRACKED_SPANS, spans).tables
    ensures content == FileAfter(repr, spans)
  {
    hide EventsOfLast, Encodable, Texts, ReadArray, Convert, FileText;
    var exporter := new PerfettoTraceExporter(repr);
    assert spans[..0] == [];
    for k := 0 to |spans|
      invariant exporter.Valid() && !exporter.closed && exporter.repr == repr && fresh(exporter) && fresh(exporter.file)
      invariant exporter.Tables() == Run(MAX_TRACKED_SPANS, spans[..k]).tables
      invariant exporter.written == WrittenBy(repr, spans[..k])
      invariant exporter.dangling <==> Dangles(repr, spans[..k])
    {
      assert spans[..k + 1] == spans[..k] + [spans[k]] && spans[..k + 1][..k] == spans[..k];
      ghost var before := exporter.written;
      var ok := exporter.Export(spans[k]);
      LastEvents(spans[..k], spans[k]);
      assert before + [] == before;
    }
    assert spans[..|spans|] == spans;
    return exporter.file.content, exporter.Tables();
  }

  lemma LastEvents(front: seq<Span>, s: Span)
    ensures var o := Convert(MAX_TRACKED_SPANS, Run(MAX_TRACKED_SPANS, front).tables, s, |s.links|);
            EventsOfLast(front + [s]) == [CompleteEvent(s)] + AllFlowEvents(o.flows)
  {
    assert (front + [s])[..|front|] == front;
  }
}
