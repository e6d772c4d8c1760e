module PerfettoJson {
  /** The JSON text of the events and of the array that holds them (json.dumps with compact separators; RFC 8259, section 5). */

  import opened Basics
  import opened CodePoints

  // ------------------------------------------------------------ json.dumps(event, ensure_ascii=False, separators=(",", ":"))

  const QUOTE: Code := 0x22
  const BACKSLASH: Code := 0x5C
  const COMMA: Code := 0x2C
  const COLON: Code := 0x3A
  const OPEN_ARRAY: Code := 0x5B
  const CLOSE_ARRAY: Code := 0x5D
  const OPEN_OBJECT: Code := 0x7B
  const CLOSE_OBJECT: Code := 0x7D

  predicate Structural(c: Code) {
    || c == QUOTE || c == BACKSLASH || c == COMMA || c == COLON
    || c == OPEN_ARRAY || c == CLOSE_ARRAY || c == OPEN_OBJECT || c == CLOSE_OBJECT
  }

  predicate IsPlain(t: Text) {
    t != [] && forall c :: c in t ==> !Structural(c) && !Surrogate(c)
  }

  /** How a number, true, false or null is written. */
  type Plain = t: Text | IsPlain(t) witness [0x30]

  datatype Json =
    | Literal(written: Plain)
    | Str(text: Text)
    | Arr(items: seq<Json>)
    | Obj(members: seq<Member>)

  datatype Member = Member(name: Text, value: Json)

  function HexDigit(n: nat): Code
    requires n < 16
  {
    if n < 10 then 0x30 + n else 0x57 + n
  }

  /** Quotes, backslashes and control characters are escaped; everything else is written as it is. */
  function Escape(c: Code): Text {
    if c == QUOTE || c == BACKSLASH then [BACKSLASH, c]
    else if c == 0x0A then [BACKSLASH, 0x6E]
    else if c == 0x0D then [BACKSLASH, 0x72]
    else if c == 0x09 then [BACKSLASH, 0x74]
    else if c == 0x08 then [BACKSLASH, 0x62]
    else if c == 0x0C then [BACKSLASH, 0x66]
    else if c < 0x20 then [BACKSLASH, 0x75, 0x30, 0x30, HexDigit(c / 16), HexDigit(c % 16)]
    else [c]
  }

  function EscapeAll(t: Text): Text {
    if t == [] then [] else EscapeAll(t[..|t| - 1]) + Escape(t[|t| - 1])
  }

  function Quote(t: Text): Text {
    [QUOTE] + EscapeAll(t) + [QUOTE]
  }

  /** ",".join(...) */
  function Join(ts: seq<Text>): Text {
    if ts == [] then [] else if |ts| == 1 then ts[0] else Join(ts[..|ts| - 1]) + [COMMA] + ts[|ts| - 1]
  }

  function Dumps(j: Json): Text {
    match j
    case Literal(text) => text
    case Str(text) => Quote(text)
    case Arr(items) => [OPEN_ARRAY] + Join(DumpsAll(items)) + [CLOSE_ARRAY]
    case Obj(members) => [OPEN_OBJECT] + Join(DumpsMembers(members)) + [CLOSE_OBJECT]
  }

  function DumpsAll(items: seq<Json>): (r: seq<Text>)
    ensures |r| == |items| && forall i :: 0 <= i < |r| ==> r[i] == Dumps(items[i])
  {
    if items == [] then [] else
      var last := items[|items| - 1];
      DumpsAll(items[..|items| - 1]) + [Dumps(last)]
  }

  function DumpsMembers(members: seq<Member>): (r: seq<Text>)
    ensures |r| == |members| && forall i :: 0 <= i < |r| ==> r[i] == Quote(members[i].name) + [COLON] + Dumps(members[i].value)
  {
    if members == [] then [] else
      var last := members[|members| - 1];
      DumpsMembers(members[..|members| - 1]) + [Quote(last.name) + [COLON] + Dumps(last.value)]
  }

  // ------------------------------------------------------------ reading

  /** Where a reader is: how many brackets are open, and whether it is in a string, after a backslash. */
  datatype Place = Outside(depth: nat) | Inside(depth: nat, escaped: bool)

  /** None: a comma or a closing bracket at the top level. */
  function Next(p: Place, c: Code): Option<Place> {
    match p
    case Inside(d, true) => Some(Inside(d, false))
    case Inside(d, false) =>
      if c == QUOTE then Some(Outside(d)) else Some(Inside(d, c == BACKSLASH))
    case Outside(d) =>
      if c == QUOTE then Some(Inside(d, false))
      else if c == OPEN_ARRAY || c == OPEN_OBJECT then Some(Outside(d + 1))
      else if c == CLOSE_ARRAY || c == CLOSE_OBJECT then if d == 0 then None else Some(Outside(d - 1))
      else if c == COMMA && d == 0 then None
      else Some(p)
  }

  function Walk(p: Place, t: Text): Option<Place> {
    if t == [] then Some(p)
    else
      var q := Walk(p, t[..|t| - 1]);
      if q.None? then None else Next(q.value, t[|t| - 1])
  }

  /** A text that a reader at the top level takes for one value: it ends where it began and has no comma of its own. */
  ghost predicate Whole(t: Text) {
    t != [] && Walk(Outside(0), t) == Some(Outside(0))
  }

  /** The values between the top-level commas. */
  function Split(t: Text): seq<Text> {
    SplitFrom(Outside(0), [], t)
  }

  function SplitFrom(p: Place, value: Text, t: Text): seq<Text>
    decreases |t|
  {
    if t == [] then [value]
    else
      var q := Next(p, t[0]);
      if q.None? then [value] + SplitFrom(Outside(0), [], t[1..]) else SplitFrom(q.value, value + [t[0]], t[1..])
  }

  /** The values between the outer brackets, or None where these are missing. */
  function ReadArray(t: Text): Option<seq<Text>> {
    if |t| < 2 || t[0] != OPEN_ARRAY || t[|t| - 1] != CLOSE_ARRAY then None
    else if |t| == 2 then Some([])
    else Some(Split(t[1..|t| - 1]))
  }

  function ArrayText(ts: seq<Text>): Text {
    [OPEN_ARRAY] + Join(ts) + [CLOSE_ARRAY]
  }

  lemma {:induction false} WalkOn(p: Place, a: Text, b: Text)
    ensures Walk(p, a + b) == if Walk(p, a).None? then None else Walk(Walk(p, a).value, b)
  {
    if b == [] {
      assert a + b == a;
    } else {
      assert (a + b)[..|a + b| - 1] == a + b[..|b| - 1];
      WalkOn(p, a, b[..|b| - 1]);
    }
  }

  lemma WalkNothing(p: Place)
    ensures Walk(p, []) == Some(p)
  {
  }

  lemma WalkOne(p: Place, c: Code)
    ensures Walk(p, [c]) == Next(p, c)
  {
    assert [c][..0] == [];
  }

  // ------------------------------------------------------------ what json.dumps writes is whole

  lemma EscapeStays(d: nat, c: Code)
    ensures Walk(Inside(d, false), Escape(c)) == Some(Inside(d, false))
  {
    hide Walk;
    var p, e := Inside(d, false), Escape(c);
    if |e| == 1 {
      WalkOne(p, c);
    } else {
      WalkOne(p, e[0]);
      WalkOne(Inside(d, true), e[1]);
      WalkOn(p, [e[0]], [e[1]]);
      assert [e[0]] + [e[1]] == e[..2];
      if |e| == 2 {
        assert e[..2] == e;
      } else {
        PlainStays(d, e[2..]);
        WalkOn(p, e[..2], e[2..]);
        assert e[..2] + e[2..] == e;
      }
    }
  }

  lemma {:induction false} PlainStays(d: nat, t: Text)
    requires forall c :: c in t ==> !Structural(c)
    ensures Walk(Inside(d, false), t) == Some(Inside(d, false)) && Walk(Outside(d), t) == Some(Outside(d))
  {
    if t != [] {
      PlainStays(d, t[..|t| - 1]);
      assert t[|t| - 1] in t;
    }
  }

  lemma {:induction false} EscapedStays(d: nat, t: Text)
    ensures Walk(Inside(d, false), EscapeAll(t)) == Some(Inside(d, false))
  {
    hide Walk, Escape;
    WalkNothing(Inside(d, false));
    if t != [] {
      EscapedStays(d, t[..|t| - 1]);
      EscapeStays(d, t[|t| - 1]);
      WalkOn(Inside(d, false), EscapeAll(t[..|t| - 1]), Escape(t[|t| - 1]));
    }
  }

  lemma QuoteStays(d: nat, t: Text)
    ensures Walk(Outside(d), Quote(t)) == Some(Outside(d))
  {
    hide Walk, EscapeAll;
    WalkOne(Outside(d), QUOTE);
    WalkOne(Inside(d, false), QUOTE);
    EscapedStays(d, t);
    WalkOn(Outside(d), [QUOTE], EscapeAll(t));
    WalkOn(Outside(d), [QUOTE] + EscapeAll(t), [QUOTE]);
  }

  lemma {:induction false} JoinStays(d: nat, ts: seq<Text>)
    requires d > 0 && forall i :: 0 <= i < |ts| ==> Walk(Outside(d), ts[i]) == Some(Outside(d))
    ensures Walk(Outside(d), Join(ts)) == Some(Outside(d))
  {
    hide Walk;
    WalkNothing(Outside(d));
    if |ts| > 1 {
      var front := ts[..|ts| - 1];
      JoinStays(d, front);
      WalkOne(Outside(d), COMMA);
      WalkOn(Outside(d), Join(front), [COMMA]);
      WalkOn(Outside(d), Join(front) + [COMMA], ts[|ts| - 1]);
    }
  }

  lemma BracketsStay(d: nat, open: Code, close: Code, t: Text)
    requires (open == OPEN_ARRAY || open == OPEN_OBJECT) && (close == CLOSE_ARRAY || close == CLOSE_OBJECT)
    requires Walk(Outside(d + 1), t) == Some(Outside(d + 1))
    ensures Walk(Outside(d), [open] + t + [close]) == Some(Outside(d))
  {
    hide Walk;
    WalkOne(Outside(d), open);
    WalkOne(Outside(d + 1), close);
    WalkOn(Outside(d), [open], t);
    WalkOn(Outside(d), [open] + t, [close]);
  }

  lemma {:induction false} DumpsStays(d: nat, j: Json)
    ensures Dumps(j) != [] && Walk(Outside(d), Dumps(j)) == Some(Outside(d))
    decreases j
  {
    hide Walk, Join, Quote;
    match j
    case Literal(text) =>
      PlainStays(d, text);
    case Str(text) =>
      QuoteStays(d, text);
      QuoteNotEmpty(text);
    case Arr(items) =>
      forall i | 0 <= i < |items| ensures Walk(Outside(d + 1), DumpsAll(items)[i]) == Some(Outside(d + 1)) {
        DumpsStays(d + 1, items[i]);
      }
      JoinStays(d + 1, DumpsAll(items));
      BracketsStay(d, OPEN_ARRAY, CLOSE_ARRAY, Join(DumpsAll(items)));
    case Obj(members) =>
      forall i | 0 <= i < |members| ensures Walk(Outside(d + 1), DumpsMembers(members)[i]) == Some(Outside(d + 1)) {
        var k, v := members[i].name, members[i].value;
        DumpsStays(d + 1, v);
        QuoteStays(d + 1, k);
        WalkOne(Outside(d + 1), COLON);
        WalkOn(Outside(d + 1), Quote(k), [COLON]);
        WalkOn(Outside(d + 1), Quote(k) + [COLON], Dumps(v));
      }
      JoinStays(d + 1, DumpsMembers(members));
      BracketsStay(d, OPEN_OBJECT, CLOSE_OBJECT, Join(DumpsMembers(members)));
  }

  /** Every value that json.dumps writes is whole. */
  lemma DumpsIsWhole(j: Json)
    ensures Whole(Dumps(j))
  {
    DumpsStays(0, j);
  }

  // ------------------------------------------------------------ what json.dumps writes can be encoded

  /** No string in it has a surrogate. */
  predicate Clean(j: Json) {
    match j
    case Literal(_) => true
    case Str(text) => Encodes(text)
    case Arr(items) => forall i :: 0 <= i < |items| ==> Clean(items[i])
    case Obj(members) => forall i :: 0 <= i < |members| ==> Encodes(members[i].name) && Clean(members[i].value)
  }

  lemma {:induction false} EscapeAllEncodes(t: Text)
    ensures Encodes(EscapeAll(t)) <==> Encodes(t)
  {
    hide Encodes;
    if t != [] {
      var front, last := t[..|t| - 1], t[|t| - 1];
      EscapeAllEncodes(front);
      EscapeEncodes(last);
      EncodesBoth(EscapeAll(front), Escape(last));
      EncodesBoth(front, [last]);
      assert front + [last] == t;
    }
  }

  lemma EscapeEncodes(c: Code)
    ensures Encodes(Escape(c)) <==> Encodes([c])
  {
    assert Encodes([c]) <==> !Surrogate([c][0]);
    if c >= 0x20 && c != QUOTE && c != BACKSLASH {
      assert Escape(c) == [c];
    }
  }

  lemma BetweenEncodes(a: Code, t: Text, b: Code)
    requires !Surrogate(a) && !Surrogate(b)
    ensures Encodes([a] + t + [b]) <==> Encodes(t)
  {
    hide Encodes;
    OneEncodes(a);
    OneEncodes(b);
    EncodesBoth([a], t);
    EncodesBoth([a] + t, [b]);
  }

  lemma OneEncodes(c: Code)
    ensures Encodes([c]) <==> !Surrogate(c)
  {
    assert [c][0] == c;
  }

  lemma {:induction false} JoinEncodes(ts: seq<Text>)
    ensures Encodes(Join(ts)) <==> forall i :: 0 <= i < |ts| ==> Encodes(ts[i])
  {
    hide Encodes;
    if |ts| > 1 {
      var front, last := ts[..|ts| - 1], ts[|ts| - 1];
      JoinEncodes(front);
      OneEncodes(COMMA);
      EncodesBoth(Join(front), [COMMA]);
      EncodesBoth(Join(front) + [COMMA], last);
      assert ts == front + [last];
    } else {
      EncodesNothing();
    }
  }

  lemma EncodesNothing()
    ensures Encodes([])
  {
  }

  /** What json.dumps writes without ensure_ascii can be encoded if and only if every string in the value can. */
  lemma {:induction false} DumpsEncodes(j: Json)
    ensures Encodes(Dumps(j)) <==> Clean(j)
    decreases j
  {
    hide Encodes, Join, EscapeAll;
    match j
    case Literal(text) =>
      PlainEncodes(text);
    case Str(text) =>
      QuoteEncodes(text);
    case Arr(items) =>
      var ts := DumpsAll(items);
      forall i | 0 <= i < |items| ensures Encodes(ts[i]) <==> Clean(items[i]) {
        DumpsEncodes(items[i]);
      }
      JoinEncodes(ts);
      BetweenEncodes(OPEN_ARRAY, Join(ts), CLOSE_ARRAY);
    case Obj(members) =>
      var ts := DumpsMembers(members);
      forall i | 0 <= i < |members| ensures Encodes(ts[i]) <==> Encodes(members[i].name) && Clean(members[i].value) {
        var name, value := members[i].name, members[i].value;
        DumpsEncodes(value);
        QuoteEncodes(name);
        OneEncodes(COLON);
        EncodesBoth(Quote(name), [COLON]);
        EncodesBoth(Quote(name) + [COLON], Dumps(value));
      }
      JoinEncodes(ts);
      BetweenEncodes(OPEN_OBJECT, Join(ts), CLOSE_OBJECT);
  }

  lemma PlainEncodes(t: Plain)
    ensures Encodes(t)
  {
    assert forall i :: 0 <= i < |t| ==> t[i] in t;
  }

  lemma QuoteEncodes(t: Text)
    ensures Encodes(Quote(t)) <==> Encodes(t)
  {
    hide Encodes, EscapeAll;
    EscapeAllEncodes(t);
    BetweenEncodes(QUOTE, EscapeAll(t), QUOTE);
  }

  // ------------------------------------------------------------ reading the array back

  lemma {:induction false} WalkFirst(p: Place, t: Text)
    requires t != []
    ensures Walk(p, t) == if Next(p, t[0]).None? then None else Walk(Next(p, t[0]).value, t[1..])
  {
    assert t == [t[0]] + t[1..];
    WalkOn(p, [t[0]], t[1..]);
    WalkOne(p, t[0]);
  }

  lemma {:induction false} SplitWhole(p: Place, value: Text, t: Text, rest: Text)
    requires Walk(p, t) == Some(Outside(0))
    ensures SplitFrom(p, value, t + rest) == SplitFrom(Outside(0), value + t, rest)
    decreases |t|
  {
    hide Walk;
    if t == [] {
      assert t + rest == rest && value + t == value;
      WalkNothing(p);
    } else {
      WalkFirst(p, t);
      assert (t + rest)[1..] == t[1..] + rest;
      SplitWhole(Next(p, t[0]).value, value + [t[0]], t[1..], rest);
      assert value + [t[0]] + t[1..] == value + t;
    }
  }

  lemma SplitRest(value: Text, rest: Text)
    requires rest == [] || rest[0] == COMMA
    ensures SplitFrom(Outside(0), value, rest) == [value] + if rest == [] then [] else Split(rest[1..])
  {
  }

  lemma SplitOne(t: Text, rest: Text)
    requires Whole(t) && (rest == [] || rest[0] == COMMA)
    ensures Split(t + rest) == [t] + if rest == [] then [] else Split(rest[1..])
  {
    hide Walk, SplitFrom;
    SplitWhole(Outside(0), [], t, rest);
    assert [] + t == t;
    SplitRest(t, rest);
  }

  lemma JoinLast(ts: seq<Text>, rest: Text)
    requires |ts| > 1
    ensures Join(ts) + rest == Join(ts[..|ts| - 1]) + ([COMMA] + (ts[|ts| - 1] + rest))
  {
    var front, last := Join(ts[..|ts| - 1]), ts[|ts| - 1];
    assert Join(ts) == front + [COMMA] + last;
    hide Join;
    Regroup(front, [COMMA], last, rest);
  }

  lemma Regroup(a: Text, b: Text, c: Text, d: Text)
    ensures a + b + c + d == a + (b + (c + d))
  {
  }

  /** Joining texts that are whole and splitting again gives the same texts. */
  lemma {:induction false} SplitJoin(ts: seq<Text>, rest: Text)
    requires ts != [] && forall i :: 0 <= i < |ts| ==> Whole(ts[i])
    requires rest == [] || rest[0] == COMMA
    ensures Split(Join(ts) + rest) == ts + if rest == [] then [] else Split(rest[1..])
  {
    hide Split, Whole, Join;
    var front, last := ts[..|ts| - 1], ts[|ts| - 1];
    SplitOne(last, rest);
    if |ts| == 1 {
      JoinOne(ts);
      assert ts == [last];
    } else {
      JoinLast(ts, rest);
      var tail := [COMMA] + (last + rest);
      SplitJoin(front, tail);
      assert tail[1..] == last + rest;
      assert ts == front + [last];
    }
  }

  lemma ReadText(t: Text)
    requires t != []
    ensures ReadArray([OPEN_ARRAY] + t + [CLOSE_ARRAY]) == Some(Split(t))
  {
    hide Split;
    var text := [OPEN_ARRAY] + t + [CLOSE_ARRAY];
    assert text[1..|text| - 1] == t;
  }

  /** Reading the text of an array of whole values gives these values ... */
  lemma ReadsBack(ts: seq<Text>)
    requires forall i :: 0 <= i < |ts| ==> Whole(ts[i])
    ensures ReadArray(ArrayText(ts)) == Some(ts)
  {
    hide Join, Split, Whole;
    JoinOne(ts);
    if ts != [] {
      SplitJoin(ts, []);
      assert Join(ts) + [] == Join(ts) && ts + [] == ts;
      JoinNotEmpty(ts);
      ReadText(Join(ts));
    }
  }

  /** ... and without the closing bracket it gives no array. */
  lemma NotAnArray(t: Text, c: Code)
    requires c != CLOSE_ARRAY
    ensures ReadArray(t + [c]) == None
  {
  }

  /** The text is a JSON array, as json.dumps writes it. */
  ghost predicate IsJsonArray(t: Text) {
    exists items: seq<Json> :: t == Dumps(Arr(items))
  }

  /** Reading what json.dumps writes for a list gives what it writes for the items. */
  lemma ReadsDumped(items: seq<Json>)
    ensures Dumps(Arr(items)) == ArrayText(DumpsAll(items))
    ensures ReadArray(Dumps(Arr(items))) == Some(DumpsAll(items))
  {
    hide Dumps, ReadArray, Join, Whole;
    forall i | 0 <= i < |items| ensures Whole(DumpsAll(items)[i]) {
      DumpsIsWhole(items[i]);
    }
    ArrayIsText(items);
    ReadsBack(DumpsAll(items));
  }

  lemma ArrayIsText(items: seq<Json>)
    ensures Dumps(Arr(items)) == ArrayText(DumpsAll(items))
  {
  }

  /** Without the last bracket there is no array. */
  lemma NoArrayWithout(t: Text)
    requires ReadArray(t) == None
    ensures !IsJsonArray(t)
  {
    hide Dumps, ReadArray;
    forall items ensures t != Dumps(Arr(items)) {
      ReadsDumped(items);
    }
  }

  lemma JoinOne(ts: seq<Text>)
    ensures |ts| == 1 ==> Join(ts) == ts[0]
    ensures ts == [] ==> Join(ts) == []
  {
  }

  lemma QuoteNotEmpty(t: Text)
    ensures Quote(t) != []
  {
  }

  lemma JoinNotEmpty(ts: seq<Text>)
    requires ts != [] && forall i :: 0 <= i < |ts| ==> Whole(ts[i])
    ensures Join(ts) != []
  {
  }

  lemma JoinLonger(ts: seq<Text>, t: Text)
    ensures Join(ts + [t]) == (if ts == [] then [] else Join(ts) + [COMMA]) + t
  {
    var longer := ts + [t];
    assert longer[..|longer| - 1] == ts && longer[|longer| - 1] == t;
    if ts == [] {
      assert [] + t == t;
    }
  }

  lemma {:induction false} JoinMore(a: seq<Text>, b: seq<Text>)
    requires b != []
    ensures Join(a + b) == (if a == [] then [] else Join(a) + [COMMA]) + Join(b)
  {
    hide Join;
    var front, last := b[..|b| - 1], b[|b| - 1];
    assert b == front + [last] && a + b == a + front + [last];
    JoinLonger(a + front, last);
    JoinLonger(front, last);
    if front == [] {
      assert a + front == a && [] + last == last;
    } else {
      JoinMore(a, front);
      Regroup(if a == [] then [] else Join(a) + [COMMA], Join(front), [COMMA], last);
      Regroup([], Join(front), [COMMA], last);
    }
  }
}
