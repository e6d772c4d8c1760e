module PerfettoEvents {
  /** The events of a span as JSON values (tracer/perfetto_exporter.py), and which of them can be written to the file. */

  import opened Basics
  import opened CodePoints
  import opened PerfettoJson
  import opened PerfettoFlows

  datatype Event =
    | Complete(key: Key, pid: int, tid: int, ts: real, dur: real, details: Details)
    | FlowStart(pid: int, tid: int, ts: real, id: Text, source: Text)
    | FlowEnd(pid: int, tid: int, ts: real, id: Text)

  /** How Python writes a float. */
  type Repr = real -> Plain

  // ------------------------------------------------------------ numbers

  /** str(n) */
  function Digits(n: nat): (t: Plain)
    ensures forall i :: 0 <= i < |t| ==> 0x30 <= t[i] < 0x3A
  {
    if n < 10 then [0x30 + n] else Digits(n / 10) + [0x30 + n % 10]
  }

  function Integer(n: int): Json {
    if n >= 0 then Literal(Digits(n))
    else
      var digits := Digits(-n);
      assert forall i :: 0 <= i < |digits| ==> !Structural(digits[i]) && !Surrogate(digits[i]);
      Literal([0x2D] + digits)
  }

  /** The number that decimal digits without a leading zero stand for. */
  function Decimal(t: Text): Option<nat> {
    if t == [] || !(0x30 <= t[|t| - 1] < 0x3A) then None
    else if |t| == 1 then Some(t[0] - 0x30)
    else
      var front := Decimal(t[..|t| - 1]);
      if front.None? || front.value == 0 then None else Some(front.value * 10 + (t[|t| - 1] - 0x30))
  }

  /** The integer that a JSON value stands for. */
  function IntOf(j: Json): Option<int> {
    if !j.Literal? then None
    else if j.written[0] != 0x2D then Decimal(j.written)
    else
      var n := Decimal(j.written[1..]);
      if n.None? then None
      else
        var value: int := n.value;
        Some(-value)
  }

  lemma {:induction false} DigitsRead(n: nat)
    ensures Decimal(Digits(n)) == Some(n)
  {
    if n >= 10 {
      DigitsRead(n / 10);
      assert Digits(n)[..|Digits(n)| - 1] == Digits(n / 10);
    }
  }

  /** An integer is written so that it is read as the same integer. */
  lemma IntegerRead(n: int)
    ensures IntOf(Integer(n)) == Some(n)
  {
    hide Digits, Decimal;
    if n >= 0 {
      DigitsRead(n);
    } else {
      DigitsRead(-n);
      assert ([0x2D] + Digits(-n))[1..] == Digits(-n);
    }
  }

  // ------------------------------------------------------------ dictionaries

  /** The keys of a dictionary differ. */
  ghost predicate IsDict(d: seq<Member>) {
    forall i, j :: 0 <= i < j < |d| ==> d[i].name != d[j].name
  }

  /** d[name] = value: a name that is there keeps its place. */
  function Put(d: seq<Member>, name: Text, value: Json): seq<Member> {
    if d == [] then [Member(name, value)]
    else if d[0].name == name then [Member(name, value)] + d[1..]
    else [d[0]] + Put(d[1..], name, value)
  }

  /** d.update(news) */
  function Update(d: seq<Member>, news: seq<Member>): seq<Member> {
    if news == [] then d
    else
      var last := news[|news| - 1];
      Put(Update(d, news[..|news| - 1]), last.name, last.value)
  }

  predicate HasName(d: seq<Member>, name: Text) {
    exists i :: 0 <= i < |d| && d[i].name == name
  }

  /** d.setdefault("resource." + name, value) for each of the resource attributes. */
  function PutResource(d: seq<Member>, resource: seq<Member>): seq<Member> {
    if resource == [] then d
    else
      var last := resource[|resource| - 1];
      var front := PutResource(d, resource[..|resource| - 1]);
      var name := ResourceName(last.name);
      if HasName(front, name) then front else front + [Member(name, last.value)]
  }

  /** The identifiers of the span, which win over attributes of the same names. */
  function IdsOf(key: Key, details: Details): seq<Member> {
    [Member(Ascii("trace_id"), Str(key.trace)), Member(Ascii("span_id"), Str(key.span)),
     Member(Ascii("parent_span_id"), Str(details.parent)), Member(Ascii("span.kind"), Integer(details.kind)),
     Member(Ascii("span.status"), Integer(details.status)), Member(Ascii("service.name"), details.service)]
  }

  function ArgsOf(key: Key, details: Details): seq<Member> {
    PutResource(Update(details.attributes, IdsOf(key, details)), details.resource)
  }

  lemma {:induction false} PutMembers(d: seq<Member>, name: Text, value: Json)
    requires IsDict(d)
    ensures IsDict(Put(d, name, value))
    ensures forall m :: m in Put(d, name, value) <==> if m.name == name then m.value == value else m in d
  {
    if d != [] {
      var rest := d[1..];
      assert d == [d[0]] + rest;
      assert forall i :: 0 <= i < |rest| ==> rest[i] == d[i + 1];
      if d[0].name != name {
        PutMembers(rest, name, value);
        forall m | m in Put(rest, name, value) ensures m.name != d[0].name {
        }
        FirstApart(d[0], Put(rest, name, value));
      } else {
        FirstApart(Member(name, value), rest);
      }
    }
  }

  lemma FirstApart(m: Member, d: seq<Member>)
    requires IsDict(d) && forall x :: x in d ==> x.name != m.name
    ensures IsDict([m] + d) && forall x :: x in [m] + d <==> x == m || x in d
  {
    var all := [m] + d;
    forall i, j | 0 <= i < j < |all| ensures all[i].name != all[j].name {
      assert all[j] == d[j - 1] && (i > 0 ==> all[i] == d[i - 1]);
    }
  }

  lemma LastApart(d: seq<Member>, m: Member)
    requires IsDict(d) && !HasName(d, m.name)
    ensures IsDict(d + [m]) && forall x :: x in d + [m] <==> x == m || x in d
  {
  }

  lemma {:induction false} UpdateMembers(d: seq<Member>, news: seq<Member>)
    requires IsDict(d) && IsDict(news)
    ensures IsDict(Update(d, news))
    ensures forall m :: m in Update(d, news) <==> m in news || (m in d && !HasName(news, m.name))
  {
    hide Put, IsDict;
    if news != [] {
      var front, last := news[..|news| - 1], news[|news| - 1];
      assert IsDict(front) && !HasName(front, last.name) by {
        DictFront(news);
      }
      UpdateMembers(d, front);
      PutMembers(Update(d, front), last.name, last.value);
      assert news == front + [last];
      forall x: Text ensures HasName(news, x) <==> HasName(front, x) || x == last.name {
        NameMore(front, last, x);
      }
    }
  }

  lemma DictFront(d: seq<Member>)
    requires d != [] && IsDict(d)
    ensures IsDict(d[..|d| - 1]) && !HasName(d[..|d| - 1], d[|d| - 1].name)
  {
  }

  lemma NameMore(front: seq<Member>, last: Member, x: Text)
    ensures HasName(front + [last], x) <==> HasName(front, x) || x == last.name
  {
    var d := front + [last];
    assert d[|front|] == last;
    assert forall i :: 0 <= i < |front| ==> d[i] == front[i];
  }

  /** The name under which a resource attribute is shown. */
  function ResourceName(name: Text): Text {
    Ascii("resource.") + name
  }

  ghost predicate Shown(resource: seq<Member>, m: Member) {
    exists r :: r in resource && m == Member(ResourceName(r.name), r.value)
  }

  lemma {:induction false} ResourceMembers(d: seq<Member>, resource: seq<Member>)
    requires IsDict(d) && IsDict(resource)
    ensures IsDict(PutResource(d, resource))
    ensures forall m :: m in PutResource(d, resource) <==> m in d || (!HasName(d, m.name) && Shown(resource, m))
  {
    hide IsDict, ResourceName;
    if resource != [] {
      var front, last := resource[..|resource| - 1], resource[|resource| - 1];
      DictFront(resource);
      ResourceMembers(d, front);
      assert resource == front + [last];
      OneResource(d, PutResource(d, front), front, last);
    }
  }

  lemma ResourceNameApart(a: Text, b: Text)
    ensures ResourceName(a) == ResourceName(b) ==> a == b
  {
    var n := |Ascii("resource.")|;
    assert ResourceName(a)[n..] == a && ResourceName(b)[n..] == b;
  }

  lemma OneResource(d: seq<Member>, before: seq<Member>, front: seq<Member>, last: Member)
    requires IsDict(before) && !HasName(front, last.name)
    requires forall m :: m in before <==> m in d || (!HasName(d, m.name) && Shown(front, m))
    ensures var name := ResourceName(last.name);
            var after := if HasName(before, name) then before else before + [Member(name, last.value)];
            IsDict(after) && forall m :: m in after <==> m in d || (!HasName(d, m.name) && Shown(front + [last], m))
  {
    hide IsDict, ResourceName;
    var name := ResourceName(last.name);
    var shown := Member(name, last.value);
    forall m ensures Shown(front + [last], m) <==> Shown(front, m) || m == shown {
      assert last in front + [last];
      assert forall r :: r in front ==> r in front + [last];
    }
    forall m | Shown(front, m) ensures m.name != name {
      var r :| r in front && m == Member(ResourceName(r.name), r.value);
      ResourceNameApart(r.name, last.name);
    }
    if HasName(d, name) {
      var i :| 0 <= i < |d| && d[i].name == name;
      assert d[i] in before;
    }
    if !HasName(before, name) {
      LastApart(before, shown);
    }
  }

  /** What is shown of the attributes: the identifiers of the span; every other attribute; and the resource attributes under their
      own names, where these are still free. */
  lemma ArgsMembers(key: Key, details: Details)
    requires IsDict(details.attributes) && IsDict(details.resource)
    ensures IsDict(ArgsOf(key, details))
    ensures forall m :: m in ArgsOf(key, details) <==>
              || m in IdsOf(key, details)
              || (!HasName(IdsOf(key, details), m.name) && m in details.attributes)
              || (!HasName(IdsOf(key, details), m.name) && !HasName(details.attributes, m.name) && Shown(details.resource, m))
  {
    hide IsDict, IdsOf, Shown, Update, PutResource;
    var ids := IdsOf(key, details);
    IdsAreDict(key, details);
    UpdateMembers(details.attributes, ids);
    var args := Update(details.attributes, ids);
    ResourceMembers(args, details.resource);
    forall x: Text ensures HasName(args, x) <==> HasName(ids, x) || HasName(details.attributes, x) {
      NamesOfUpdate(details.attributes, ids, args, x);
    }
  }

  lemma NamesOfUpdate(d: seq<Member>, news: seq<Member>, all: seq<Member>, x: Text)
    requires forall m :: m in all <==> m in news || (m in d && !HasName(news, m.name))
    ensures HasName(all, x) <==> HasName(news, x) || HasName(d, x)
  {
    if HasName(all, x) {
      var i :| 0 <= i < |all| && all[i].name == x;
      assert all[i] in all;
    }
    if HasName(news, x) {
      var i :| 0 <= i < |news| && news[i].name == x;
      assert news[i] in all;
    } else if HasName(d, x) {
      var i :| 0 <= i < |d| && d[i].name == x;
      assert d[i] in all;
    }
  }

  /** Names that differ as literals differ as texts. */
  lemma NamesApart(names: seq<string>, d: seq<Member>)
    requires |d| == |names| && forall i :: 0 <= i < |d| ==> d[i].name == Ascii(names[i])
    requires forall i, j :: 0 <= i < j < |names| ==> names[i] != names[j]
    ensures IsDict(d)
  {
    forall i, j | 0 <= i < j < |d| ensures d[i].name != d[j].name {
      AsciiApart(names[i], names[j]);
    }
  }

  lemma AsciiApart(s: string, t: string)
    ensures s != t ==> Ascii(s) != Ascii(t)
  {
    if Ascii(s) == Ascii(t) {
      assert forall i :: 0 <= i < |s| ==> s[i] as int == Ascii(s)[i] == Ascii(t)[i] == t[i] as int;
      assert s == t;
    }
  }

  lemma IdsAreDict(key: Key, details: Details)
    ensures IsDict(IdsOf(key, details))
  {
    hide IsDict, Integer;
    NamesApart(["trace_id", "span_id", "parent_span_id", "span.kind", "span.status", "service.name"], IdsOf(key, details));
  }

  // ------------------------------------------------------------ events

  function JsonOf(repr: Repr, e: Event): Json {
    match e
    case Complete(key, pid, tid, ts, dur, details) =>
      Obj([Member(Ascii("name"), details.name), Member(Ascii("cat"), details.category), Member(Ascii("ph"), Str(Ascii("X"))),
           Member(Ascii("ts"), Literal(repr(ts))), Member(Ascii("dur"), Literal(repr(dur))),
           Member(Ascii("pid"), Integer(pid)), Member(Ascii("tid"), Integer(tid)),
           Member(Ascii("args"), Obj(ArgsOf(key, details)))])
    case FlowStart(pid, tid, ts, id, source) =>
      Obj([Member(Ascii("name"), Str(Ascii("request.link"))), Member(Ascii("cat"), Str(Ascii("Tracing.Flow"))),
           Member(Ascii("ph"), Str(Ascii("s"))), Member(Ascii("ts"), Literal(repr(ts))),
           Member(Ascii("pid"), Integer(pid)), Member(Ascii("tid"), Integer(tid)), Member(Ascii("id"), Str(id)),
           Member(Ascii("args"), Obj([Member(Ascii("source.span_id"), Str(source))]))])
    case FlowEnd(pid, tid, ts, id) =>
      Obj([Member(Ascii("name"), Str(Ascii("request.link"))), Member(Ascii("cat"), Str(Ascii("Tracing.Flow"))),
           Member(Ascii("ph"), Str(Ascii("f"))), Member(Ascii("ts"), Literal(repr(ts))),
           Member(Ascii("pid"), Integer(pid)), Member(Ascii("tid"), Integer(tid)), Member(Ascii("id"), Str(id)),
           Member(Ascii("bp"), Str(Ascii("e")))])
  }

  /** What is written to the file for an event: one whole JSON value. */
  function TextOf(repr: Repr, e: Event): Text {
    Dumps(JsonOf(repr, e))
  }

  lemma TextIsWhole(repr: Repr, e: Event)
    ensures Whole(TextOf(repr, e))
  {
    hide JsonOf, Dumps, Whole;
    DumpsIsWhole(JsonOf(repr, e));
  }

  // ------------------------------------------------------------ what can be encoded

  predicate CleanMembers(d: seq<Member>) {
    forall i :: 0 <= i < |d| ==> Encodes(d[i].name) && Clean(d[i].value)
  }

  predicate CleanKey(k: Key) {
    Encodes(k.trace) && Encodes(k.span)
  }

  predicate CleanDetails(d: Details) {
    && Clean(d.name) && Clean(d.category) && CleanMembers(d.attributes)
    && Encodes(d.parent) && Clean(d.service) && CleanMembers(d.resource)
  }

  lemma {:induction false} PutClean(d: seq<Member>, name: Text, value: Json)
    requires CleanMembers(d) && Encodes(name) && Clean(value)
    ensures CleanMembers(Put(d, name, value))
  {
    hide Encodes, Clean;
    if d != [] && d[0].name != name {
      PutClean(d[1..], name, value);
    }
  }

  lemma {:induction false} PutResourceClean(d: seq<Member>, resource: seq<Member>)
    requires CleanMembers(d) && CleanMembers(resource)
    ensures CleanMembers(PutResource(d, resource))
  {
    hide Encodes, Clean;
    if resource != [] {
      var last := resource[|resource| - 1];
      PutResourceClean(d, resource[..|resource| - 1]);
      EncodesBoth(Ascii("resource."), last.name);
    }
  }

  lemma {:induction false} UpdateClean(d: seq<Member>, news: seq<Member>)
    requires CleanMembers(d) && CleanMembers(news)
    ensures CleanMembers(Update(d, news))
  {
    hide Encodes, Clean, Put;
    if news != [] {
      UpdateClean(d, news[..|news| - 1]);
      PutClean(Update(d, news[..|news| - 1]), news[|news| - 1].name, news[|news| - 1].value);
    }
  }

  lemma ArgsClean(key: Key, details: Details)
    requires CleanKey(key) && CleanDetails(details)
    ensures CleanMembers(ArgsOf(key, details))
  {
    hide Encodes, Update, PutResource;
    UpdateClean(details.attributes, IdsOf(key, details));
    PutResourceClean(Update(details.attributes, IdsOf(key, details)), details.resource);
  }

  lemma CompleteEncodes(repr: Repr, e: Event)
    requires e.Complete? && CleanKey(e.key) && CleanDetails(e.details)
    ensures Encodes(TextOf(repr, e))
  {
    hide Encodes, ArgsOf, Dumps, Whole;
    ArgsClean(e.key, e.details);
    DumpsEncodes(JsonOf(repr, e));
  }

  /** The name of a span decides alone. */
  lemma NameDecides(repr: Repr, e: Event)
    requires e.Complete? && !Clean(e.details.name)
    ensures !Encodes(TextOf(repr, e))
  {
    hide Encodes, ArgsOf, Dumps, Whole;
    DumpsEncodes(JsonOf(repr, e));
    assert JsonOf(repr, e).members[0].value == e.details.name;
  }

  lemma SourceEncodes(source: Text)
    ensures Clean(Obj([Member(Ascii("source.span_id"), Str(source))])) <==> Encodes(source)
  {
    hide Encodes;
    var d := [Member(Ascii("source.span_id"), Str(source))];
    assert d[0].value == Str(source);
  }

  /** A pair of flow events is written if and only if the ids in it can be encoded. */
  lemma FlowEncodes(repr: Repr, e: Event)
    requires !e.Complete?
    ensures Encodes(TextOf(repr, e)) <==> Encodes(e.id) && (e.FlowStart? ==> Encodes(e.source))
  {
    hide Encodes, Dumps, Whole;
    DumpsEncodes(JsonOf(repr, e));
    assert JsonOf(repr, e).members[6] == Member(Ascii("id"), Str(e.id));
    if e.FlowStart? {
      SourceEncodes(e.source);
      assert JsonOf(repr, e).members[7].value == Obj([Member(Ascii("source.span_id"), Str(e.source))]);
    }
  }
}
