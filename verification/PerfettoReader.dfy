module PerfettoReader {
  /** A reader of JSON texts without white space (RFC 8259, sections 4 to 7): what json.dumps writes is read back as the same value. */

  import opened Basics
  import opened CodePoints
  import opened PerfettoJson

  // ------------------------------------------------------------ strings

  function HexValue(c: Code): Option<nat> {
    if 0x30 <= c < 0x3A then Some(c - 0x30)
    else if 0x61 <= c < 0x67 then Some(c - 0x57)
    else if 0x41 <= c < 0x47 then Some(c - 0x37)
    else None
  }

  /** The character with these four hexadecimal digits.  Surrogates, which are read in pairs, are left out. */
  function HexCode(a: Code, b: Code, c: Code, d: Code): (r: Option<Code>) {
    if HexValue(a).None? || HexValue(b).None? || HexValue(c).None? || HexValue(d).None? then None
    else
      var n := ((HexValue(a).value * 16 + HexValue(b).value) * 16 + HexValue(c).value) * 16 + HexValue(d).value;
      if n < 0x110000 && !Surrogate(n) then Some(n) else None
  }

  /** The character that a backslash and c stand for. */
  function Short(c: Code): Option<Code> {
    if c == QUOTE || c == BACKSLASH || c == 0x2F then Some(c)
    else if c == 0x62 then Some(0x08)
    else if c == 0x66 then Some(0x0C)
    else if c == 0x6E then Some(0x0A)
    else if c == 0x72 then Some(0x0D)
    else if c == 0x74 then Some(0x09)
    else None
  }

  function After(c: Code, rest: Option<Text>): Option<Text> {
    if rest.None? then None else Some([c] + rest.value)
  }

  /** What is meant by the characters between two quotes; control characters must not stand there as they are. */
  function Unescape(t: Text): Option<Text>
    decreases |t|
  {
    if t == [] then Some([])
    else if t[0] != BACKSLASH then
      if t[0] < 0x20 || t[0] == QUOTE then None else After(t[0], Unescape(t[1..]))
    else if |t| >= 2 && Short(t[1]).Some? then After(Short(t[1]).value, Unescape(t[2..]))
    else if |t| >= 6 && t[1] == 0x75 && HexCode(t[2], t[3], t[4], t[5]).Some? then
      After(HexCode(t[2], t[3], t[4], t[5]).value, Unescape(t[6..]))
    else None
  }

  lemma UnescapeOne(c: Code, rest: Text)
    ensures Unescape(Escape(c) + rest) == After(c, Unescape(rest))
  {
    hide Unescape;
    var t := Escape(c) + rest;
    UnescapeFirst(t);
    assert t[|Escape(c)|..] == rest;
    if c < 0x20 {
      assert c == c / 16 * 16 + c % 16;
    }
  }

  /** One turn of Unescape. */
  lemma UnescapeFirst(t: Text)
    requires t != []
    ensures t[0] != BACKSLASH && t[0] >= 0x20 && t[0] != QUOTE ==> Unescape(t) == After(t[0], Unescape(t[1..]))
    ensures t[0] == BACKSLASH && |t| >= 2 && Short(t[1]).Some? ==> Unescape(t) == After(Short(t[1]).value, Unescape(t[2..]))
    ensures t[0] == BACKSLASH && |t| >= 6 && t[1] == 0x75 && HexCode(t[2], t[3], t[4], t[5]).Some? ==>
              Unescape(t) == After(HexCode(t[2], t[3], t[4], t[5]).value, Unescape(t[6..]))
  {
  }

  lemma {:induction false} EscapeAllFirst(t: Text)
    requires t != []
    ensures EscapeAll(t) == Escape(t[0]) + EscapeAll(t[1..])
  {
    hide Escape;
    var front, last := t[..|t| - 1], t[|t| - 1];
    if front == [] {
      assert EscapeAll(t) == EscapeAll([]) + Escape(t[0]);
    } else {
      EscapeAllFirst(front);
      assert front[1..] == t[1..][..|t| - 2];
    }
  }

  /** Reading the escaped characters of a string gives the string. */
  lemma {:induction false} Unescapes(t: Text)
    ensures Unescape(EscapeAll(t)) == Some(t)
    decreases |t|
  {
    hide Escape, EscapeAll, Unescape;
    if t == [] {
      NothingEscaped();
    } else {
      EscapeAllFirst(t);
      UnescapeOne(t[0], EscapeAll(t[1..]));
      Unescapes(t[1..]);
      assert t == [t[0]] + t[1..];
    }
  }

  lemma NothingEscaped()
    ensures EscapeAll([]) == [] && Unescape([]) == Some([])
  {
  }

  /** The characters up to the quote that ends a string, and what comes after it. */
  function Cut(t: Text): (r: Option<(Text, Text)>)
    ensures r.Some? ==> t == r.value.0 + [QUOTE] + r.value.1
    decreases |t|
  {
    if t == [] then None
    else if t[0] == QUOTE then Some(([], t[1..]))
    else if t[0] != BACKSLASH then Before(t[..1], Cut(t[1..]))
    else if |t| >= 2 then Before(t[..2], Cut(t[2..]))
    else None
  }

  function Before(a: Text, r: Option<(Text, Text)>): Option<(Text, Text)> {
    if r.None? then None else Some((a + r.value.0, r.value.1))
  }

  lemma {:induction false} CutPlain(a: Text, rest: Text)
    requires forall i :: 0 <= i < |a| ==> a[i] != QUOTE && a[i] != BACKSLASH
    ensures Cut(a + rest) == Before(a, Cut(rest))
    decreases |a|
  {
    hide Before;
    BeforeNothing(Cut(rest));
    if a == [] {
      assert a + rest == rest;
    } else {
      CutPlain(a[1..], rest);
      assert (a + rest)[1..] == a[1..] + rest && (a + rest)[..1] == a[..1];
      BeforeTwice(a[..1], a[1..], Cut(rest));
      assert a[..1] + a[1..] == a;
    }
  }

  lemma BeforeNothing(r: Option<(Text, Text)>)
    ensures Before([], r) == r
  {
    if r.Some? {
      assert [] + r.value.0 == r.value.0;
    }
  }

  lemma BeforeTwice(a: Text, b: Text, r: Option<(Text, Text)>)
    ensures Before(a, Before(b, r)) == Before(a + b, r)
  {
    if r.Some? {
      assert a + (b + r.value.0) == a + b + r.value.0;
    }
  }

  lemma CutEscape(t: Text)
    requires |t| >= 2 && t[0] == BACKSLASH
    ensures Cut(t) == Before(t[..2], Cut(t[2..]))
  {
  }

  lemma CutOne(c: Code, rest: Text)
    ensures Cut(Escape(c) + rest) == Before(Escape(c), Cut(rest))
  {
    hide Before, Cut;
    var e := Escape(c);
    if |e| == 1 {
      CutPlain(e, rest);
    } else {
      CutEscape(e + rest);
      CutPlain(e[2..], rest);
      assert (e + rest)[2..] == e[2..] + rest && (e + rest)[..2] == e[..2];
      BeforeTwice(e[..2], e[2..], Cut(rest));
      assert e[..2] + e[2..] == e;
    }
  }

  /** The string ends where its quote was written. */
  lemma {:induction false} CutsQuoted(t: Text, rest: Text)
    ensures Cut(EscapeAll(t) + [QUOTE] + rest) == Some((EscapeAll(t), rest))
    decreases |t|
  {
    hide Cut, Escape, EscapeAll;
    if t == [] {
      CutsNothing(rest);
    } else {
      EscapeAllFirst(t);
      CutsQuoted(t[1..], rest);
      CutOne(t[0], EscapeAll(t[1..]) + [QUOTE] + rest);
      assert EscapeAll(t) + [QUOTE] + rest == Escape(t[0]) + (EscapeAll(t[1..]) + [QUOTE] + rest);
    }
  }

  lemma CutsNothing(rest: Text)
    ensures EscapeAll([]) == [] && Cut([] + [QUOTE] + rest) == Some(([], rest))
  {
    assert ([] + [QUOTE] + rest)[1..] == rest;
  }

  // ------------------------------------------------------------ values

  lemma {:induction false} PiecesAreShort(p: Place, value: Text, t: Text)
    ensures forall i :: 0 <= i < |SplitFrom(p, value, t)| ==> |SplitFrom(p, value, t)[i]| <= |value| + |t|
    decreases |t|
  {
    if t != [] {
      var q := Next(p, t[0]);
      if q.None? {
        PiecesAreShort(Outside(0), [], t[1..]);
      } else {
        PiecesAreShort(q.value, value + [t[0]], t[1..]);
      }
    }
  }

  /** What stands between the brackets, split at its own commas. */
  function Inner(t: Text): (pieces: seq<Text>)
    requires |t| >= 2
    ensures forall i :: 0 <= i < |pieces| ==> |pieces[i]| <= |t| - 1
  {
    if |t| == 2 then []
    else
      PiecesAreShort(Outside(0), [], t[1..|t| - 1]);
      Split(t[1..|t| - 1])
  }

  function ReadJson(t: Text): Option<Json>
    decreases |t|, 0
  {
    if t == [] then None
    else if t[0] == QUOTE then
      var cut := Cut(t[1..]);
      if cut.None? || cut.value.1 != [] || Unescape(cut.value.0).None? then None else Some(Str(Unescape(cut.value.0).value))
    else if t[0] == OPEN_ARRAY then
      if |t| < 2 || t[|t| - 1] != CLOSE_ARRAY then None
      else
        var items := ReadAll(Inner(t), |t| - 1);
        if items.None? then None else Some(Arr(items.value))
    else if t[0] == OPEN_OBJECT then
      if |t| < 2 || t[|t| - 1] != CLOSE_OBJECT then None
      else
        var members := ReadMembers(Inner(t), |t| - 1);
        if members.None? then None else Some(Obj(members.value))
    else if IsPlain(t) then Some(Literal(t))
    else None
  }

  function ReadAll(ts: seq<Text>, n: nat): Option<seq<Json>>
    requires forall i :: 0 <= i < |ts| ==> |ts[i]| <= n
    decreases n, |ts|
  {
    if ts == [] then Some([])
    else
      var front, last := ReadAll(ts[..|ts| - 1], n), ReadJson(ts[|ts| - 1]);
      if front.None? || last.None? then None else Some(front.value + [last.value])
  }

  /** A string, a colon and a value. */
  function ReadMember(t: Text): Option<Member>
    decreases |t|, 0
  {
    if t == [] || t[0] != QUOTE then None
    else
      var cut := Cut(t[1..]);
      if cut.None? || Unescape(cut.value.0).None? || cut.value.1 == [] || cut.value.1[0] != COLON then None
      else
        var value := ReadJson(cut.value.1[1..]);
        if value.None? then None else Some(Member(Unescape(cut.value.0).value, value.value))
  }

  function ReadMembers(ts: seq<Text>, n: nat): Option<seq<Member>>
    requires forall i :: 0 <= i < |ts| ==> |ts[i]| <= n
    decreases n, |ts|
  {
    if ts == [] then Some([])
    else
      var front, last := ReadMembers(ts[..|ts| - 1], n), ReadMember(ts[|ts| - 1]);
      if front.None? || last.None? then None else Some(front.value + [last.value])
  }

  // ------------------------------------------------------------ what json.dumps writes is read back

  lemma {:induction false} AllRead(ts: seq<Text>, n: nat, items: seq<Json>)
    requires |ts| == |items| && forall i :: 0 <= i < |ts| ==> |ts[i]| <= n && ReadJson(ts[i]) == Some(items[i])
    ensures ReadAll(ts, n) == Some(items)
  {
    hide ReadJson;
    if ts != [] {
      AllRead(ts[..|ts| - 1], n, items[..|items| - 1]);
      assert items == items[..|items| - 1] + [items[|items| - 1]];
    }
  }

  lemma {:induction false} MembersRead(ts: seq<Text>, n: nat, members: seq<Member>)
    requires |ts| == |members| && forall i :: 0 <= i < |ts| ==> |ts[i]| <= n && ReadMember(ts[i]) == Some(members[i])
    ensures ReadMembers(ts, n) == Some(members)
  {
    hide ReadMember;
    if ts != [] {
      MembersRead(ts[..|ts| - 1], n, members[..|members| - 1]);
      assert members == members[..|members| - 1] + [members[|members| - 1]];
    }
  }

  lemma InnerOf(open: Code, ts: seq<Text>, close: Code)
    requires forall i :: 0 <= i < |ts| ==> Whole(ts[i])
    ensures Inner([open] + Join(ts) + [close]) == ts
  {
    hide Whole, Join, Split;
    var t := [open] + Join(ts) + [close];
    JoinOne(ts);
    if ts != [] {
      JoinNotEmpty(ts);
      SplitJoin(ts, []);
      assert t[1..|t| - 1] == Join(ts) == Join(ts) + [] && ts + [] == ts;
    }
  }

  lemma StringRead(t: Text)
    ensures ReadJson(Quote(t)) == Some(Str(t))
  {
    hide Cut, EscapeAll, Unescape;
    var text := Quote(t);
    CutsQuoted(t, []);
    Unescapes(t);
    assert text[1..] == EscapeAll(t) + [QUOTE] + [];
  }

  lemma MemberRead(m: Member)
    requires ReadJson(Dumps(m.value)) == Some(m.value)
    ensures ReadMember(Quote(m.name) + [COLON] + Dumps(m.value)) == Some(m)
  {
    hide Cut, EscapeAll, Unescape, ReadJson, Dumps;
    var text := Quote(m.name) + [COLON] + Dumps(m.value);
    CutsQuoted(m.name, [COLON] + Dumps(m.value));
    Unescapes(m.name);
    assert text[1..] == EscapeAll(m.name) + [QUOTE] + ([COLON] + Dumps(m.value));
    assert ([COLON] + Dumps(m.value))[1..] == Dumps(m.value);
  }

  lemma MemberIsWhole(m: Member)
    ensures Whole(Quote(m.name) + [COLON] + Dumps(m.value))
  {
    hide Walk, EscapeAll, Dumps;
    DumpsStays(0, m.value);
    QuoteStays(0, m.name);
    WalkOne(Outside(0), COLON);
    WalkOn(Outside(0), Quote(m.name), [COLON]);
    WalkOn(Outside(0), Quote(m.name) + [COLON], Dumps(m.value));
  }

  lemma ArrayRead(ts: seq<Text>, items: seq<Json>)
    requires |ts| == |items| && forall i :: 0 <= i < |ts| ==> Whole(ts[i]) && ReadJson(ts[i]) == Some(items[i])
    ensures ReadJson([OPEN_ARRAY] + Join(ts) + [CLOSE_ARRAY]) == Some(Arr(items))
  {
    hide Whole, Join, ReadJson, Inner;
    var t := [OPEN_ARRAY] + Join(ts) + [CLOSE_ARRAY];
    InnerOf(OPEN_ARRAY, ts, CLOSE_ARRAY);
    AllRead(Inner(t), |t| - 1, items);
    ReadsArray(t);
  }

  lemma ObjectRead(ts: seq<Text>, members: seq<Member>)
    requires |ts| == |members| && forall i :: 0 <= i < |ts| ==> Whole(ts[i]) && ReadMember(ts[i]) == Some(members[i])
    ensures ReadJson([OPEN_OBJECT] + Join(ts) + [CLOSE_OBJECT]) == Some(Obj(members))
  {
    hide Whole, Join, ReadJson, ReadMember, Inner;
    var t := [OPEN_OBJECT] + Join(ts) + [CLOSE_OBJECT];
    InnerOf(OPEN_OBJECT, ts, CLOSE_OBJECT);
    MembersRead(Inner(t), |t| - 1, members);
    ReadsObject(t);
  }

  lemma ReadsArray(t: Text)
    requires |t| >= 2 && t[0] == OPEN_ARRAY && t[|t| - 1] == CLOSE_ARRAY && ReadAll(Inner(t), |t| - 1).Some?
    ensures ReadJson(t) == Some(Arr(ReadAll(Inner(t), |t| - 1).value))
  {
    hide ReadAll, Inner;
  }

  lemma ReadsObject(t: Text)
    requires |t| >= 2 && t[0] == OPEN_OBJECT && t[|t| - 1] == CLOSE_OBJECT && ReadMembers(Inner(t), |t| - 1).Some?
    ensures ReadJson(t) == Some(Obj(ReadMembers(Inner(t), |t| - 1).value))
  {
    hide ReadMembers, Inner;
  }

  lemma LiteralRead(t: Plain)
    ensures ReadJson(t) == Some(Literal(t))
  {
    assert t[0] in t;
  }

  /** Every JSON value is read back from what json.dumps writes for it. */
  lemma {:induction false} ReadsWhatIsDumped(j: Json)
    ensures ReadJson(Dumps(j)) == Some(j)
    decreases j
  {
    hide ReadJson, ReadMember, Join, Quote, Whole;
    match j
    case Literal(text) =>
      LiteralRead(text);
    case Str(text) =>
      StringRead(text);
    case Arr(items) =>
      forall i | 0 <= i < |items| ensures Whole(DumpsAll(items)[i]) && ReadJson(DumpsAll(items)[i]) == Some(items[i]) {
        ReadsWhatIsDumped(items[i]);
        DumpsIsWhole(items[i]);
      }
      ArrayRead(DumpsAll(items), items);
    case Obj(members) =>
      forall i | 0 <= i < |members| ensures Whole(DumpsMembers(members)[i]) && ReadMember(DumpsMembers(members)[i]) == Some(members[i]) {
        ReadsWhatIsDumped(members[i].value);
        MemberRead(members[i]);
        MemberIsWhole(members[i]);
      }
      ObjectRead(DumpsMembers(members), members);
  }

  /** So a text stands for one value only. */
  lemma DumpsTellsApart(a: Json, b: Json)
    requires Dumps(a) == Dumps(b)
    ensures a == b
  {
    hide ReadJson, Dumps;
    ReadsWhatIsDumped(a);
    ReadsWhatIsDumped(b);
  }

  /** A text that ends in a comma is no value. */
  lemma DanglingIsNoValue(t: Text)
    ensures ReadJson([OPEN_ARRAY] + t + [COMMA]) == None
  {
  }
}
