module RidMapping {
  /** Rewriting the request ids of nested values to their originals (plugins/plugin_concat.py). */

  import opened Basics
  import opened RidText

  /** A cell: `Other` is any other object with its text; of a dictionary only the entry "rid" matters. */
  datatype Value =
    | Null
    | Str(text: Text)
    | List(items: seq<Value>)
    | Tuple(items: seq<Value>)
    | Dict(rid: Option<Value>, others: Text)
    | Other(text: Text)

  type RidMap = map<Text, Text>

  // ------------------------------------------------------------ collecting

  /** Texts that are no request ids. */
  predicate IsRid(t: Text) {
    t != [] && t != "nan" && t != "None"
  }

  function One(t: Text): (r: set<Text>)
    ensures forall x :: x in r <==> x == Strip(t) && IsRid(x)
  {
    if IsRid(Strip(t)) then {Strip(t)} else {}
  }

  function RidsOfPieces(ps: seq<Text>): set<Text> {
    if ps == [] then {} else RidsOfPieces(ps[..|ps| - 1]) + One(ps[|ps| - 1])
  }

  lemma {:induction false} PieceRids(ps: seq<Text>, i: nat)
    requires i < |ps|
    ensures One(ps[i]) <= RidsOfPieces(ps)
  {
    hide One;
    if i < |ps| - 1 {
      PieceRids(ps[..|ps| - 1], i);
    }
  }

  /** The ids in the strings of a value, and the texts of its other objects. */
  function StringRids(v: Value): set<Text>
    decreases v, 0
  {
    match v
    case Null => {}
    case Str(t) => RidsOfPieces(Pieces(t))
    case List(items) => AllStringRids(items)
    case Tuple(items) => AllStringRids(items)
    case Dict(rid, _) => if rid.Some? then StringRids(rid.value) else {}
    case Other(_) => {}
  }

  function AllStringRids(vs: seq<Value>): set<Text>
    decreases vs, 1
  {
    if vs == [] then {} else
      var front, last := vs[..|vs| - 1], vs[|vs| - 1];
      AllStringRids(front) + StringRids(last)
  }

  function OtherRids(v: Value): set<Text>
    decreases v, 0
  {
    match v
    case Null => {}
    case Str(_) => {}
    case List(items) => AllOtherRids(items)
    case Tuple(items) => AllOtherRids(items)
    case Dict(rid, _) => if rid.Some? then OtherRids(rid.value) else {}
    case Other(t) => One(t)
  }

  function AllOtherRids(vs: seq<Value>): set<Text>
    decreases vs, 1
  {
    if vs == [] then {} else
      var front, last := vs[..|vs| - 1], vs[|vs| - 1];
      AllOtherRids(front) + OtherRids(last)
  }

  function Rids(v: Value): set<Text> {
    StringRids(v) + OtherRids(v)
  }

  /** The branch for strings of _collect_rids_from_value. */
  method CollectText(t: Text, found: set<Text>) returns (found': set<Text>)
    ensures found' == found + RidsOfPieces(Pieces(t))
  {
    hide One, Pieces;
    if ',' !in t {
      PiecesNoComma(t);
      assert [t][..0] == [] && RidsOfPieces([t]) == One(t);
      return found + One(t);
    }
    var pieces := Pieces(t);
    found' := found;
    for i := 0 to |pieces|
      invariant found' == found + RidsOfPieces(pieces[..i])
    {
      assert pieces[..i + 1][..i] == pieces[..i];
      found' := found' + One(pieces[i]);
    }
    assert pieces[..|pieces|] == pieces;
  }

  /** _collect_rids_from_value */
  method Collect(v: Value, found: set<Text>) returns (found': set<Text>)
    ensures found' == found + Rids(v)
    decreases v
  {
    hide One, RidsOfPieces, AllStringRids, AllOtherRids;
    found' := found;
    match v
    case Null =>
    case Str(t) =>
      found' := CollectText(t, found);
    case Dict(rid, _) =>
      if rid.Some? {
        found' := Collect(rid.value, found);
      }
    case List(items) =>
      found' := CollectAll(items, found);
    case Tuple(items) =>
      found' := CollectAll(items, found);
    case Other(t) =>
      found' := found + One(t);
  }

  method CollectAll(items: seq<Value>, found: set<Text>) returns (found': set<Text>)
    ensures found' == found + AllStringRids(items) + AllOtherRids(items)
    decreases items
  {
    hide StringRids, OtherRids;
    found' := found;
    for i := 0 to |items|
      invariant found' == found + AllStringRids(items[..i]) + AllOtherRids(items[..i])
    {
      assert items[..i + 1][..i] == items[..i];
      found' := Collect(items[i], found');
    }
    assert items[..|items|] == items;
  }

  // ------------------------------------------------------------ which ids a value holds

  /** The id is what is left of the piece without the white space round it. */
  ghost predicate Holds(p: Text, x: Text) {
    && x != [] && x != "nan" && x != "None" && Stripped(x)
    && exists a, b :: Blank(a) && Blank(b) && p == a + x + b
  }

  lemma OneIs(p: Text, x: Text)
    ensures x in One(p) <==> Holds(p, x)
  {
    hide Strip, Blank, Stripped;
    var a, b := StripSplits(p);
    if Holds(p, x) {
      var c, d :| Blank(c) && Blank(d) && p == c + x + d;
      StripIs(c, x, d);
    }
  }

  lemma {:induction false} PiecesHold(ps: seq<Text>, x: Text)
    ensures x in RidsOfPieces(ps) <==> exists i :: 0 <= i < |ps| && Holds(ps[i], x)
  {
    hide One, Holds, RidsOfPieces;
    if ps == [] {
      NothingMapped(map[]);
    } else {
      var front, last := ps[..|ps| - 1], ps[|ps| - 1];
      PiecesHold(front, x);
      OneIs(last, x);
      RidsOne(front, last);
      assert ps == front + [last];
      assert forall i :: 0 <= i < |front| ==> front[i] == ps[i];
    }
  }

  /** The value at the end of a path of positions; position 0 of a dictionary is its entry "rid". */
  function ValueAt(v: Value, path: seq<nat>): Option<Value>
    decreases path
  {
    if path == [] then Some(v)
    else
      match v
      case List(items) => if path[0] < |items| then ValueAt(items[path[0]], path[1..]) else None
      case Tuple(items) => if path[0] < |items| then ValueAt(items[path[0]], path[1..]) else None
      case Dict(rid, _) => if rid.Some? && path[0] == 0 then ValueAt(rid.value, path[1..]) else None
      case _ => None
  }

  /** At the end of the path is a string with the id between two of its commas, or another object with that text. */
  ghost predicate HeldAt(v: Value, path: seq<nat>, x: Text) {
    var w := ValueAt(v, path);
    && w.Some?
    && ((w.value.Str? && exists i :: 0 <= i < |Pieces(w.value.text)| && Holds(Pieces(w.value.text)[i], x))
        || (w.value.Other? && Holds(w.value.text, x)))
  }

  /** Collected are exactly the ids that are held somewhere in the value. */
  lemma CollectsExactly(v: Value, x: Text)
    ensures x in Rids(v) <==> exists path :: HeldAt(v, path, x)
  {
    hide HeldAt, StringRids, OtherRids;
    if x in Rids(v) {
      var path := PathTo(v, x);
    }
    if exists path :: HeldAt(v, path, x) {
      var path :| HeldAt(v, path, x);
      HeldIsCollected(v, path, x);
    }
  }

  lemma HeldBelow(v: Value, i: nat, path: seq<nat>, x: Text)
    requires ValueAt(v, [i]).Some? && HeldAt(ValueAt(v, [i]).value, path, x)
    ensures HeldAt(v, [i] + path, x)
  {
    hide Holds, Pieces;
    assert ([i] + path)[1..] == path;
  }

  lemma {:induction false} PathTo(v: Value, x: Text) returns (path: seq<nat>)
    requires x in Rids(v)
    ensures HeldAt(v, path, x)
    decreases v
  {
    hide One, RidsOfPieces, Holds, Pieces;
    match v
    case Null => assert false;
    case Str(t) =>
      PiecesHold(Pieces(t), x);
      path := [];
    case Other(t) =>
      OneIs(t, x);
      path := [];
    case Dict(rid, _) =>
      path := PathTo(rid.value, x);
      path := StepInto(v, 0, path, x);
    case List(items) =>
      var i := MemberWith(items, x);
      path := PathTo(items[i], x);
      path := StepInto(v, i, path, x);
    case Tuple(items) =>
      var i := MemberWith(items, x);
      path := PathTo(items[i], x);
      path := StepInto(v, i, path, x);
  }

  lemma StepInto(v: Value, i: nat, below: seq<nat>, x: Text) returns (path: seq<nat>)
    requires ValueAt(v, [i]).Some? && HeldAt(ValueAt(v, [i]).value, below, x)
    ensures HeldAt(v, path, x)
  {
    path := [i] + below;
    HeldBelow(v, i, below, x);
  }

  lemma {:induction false} MemberWith(vs: seq<Value>, x: Text) returns (i: nat)
    requires x in AllStringRids(vs) + AllOtherRids(vs)
    ensures i < |vs| && x in Rids(vs[i])
  {
    hide StringRids, OtherRids;
    var front, last := vs[..|vs| - 1], vs[|vs| - 1];
    if x in Rids(last) {
      i := |vs| - 1;
    } else {
      i := MemberWith(front, x);
    }
  }

  lemma {:induction false} MemberIn(vs: seq<Value>, i: nat)
    requires i < |vs|
    ensures StringRids(vs[i]) <= AllStringRids(vs) && OtherRids(vs[i]) <= AllOtherRids(vs)
  {
    hide StringRids, OtherRids;
    if i < |vs| - 1 {
      MemberIn(vs[..|vs| - 1], i);
    }
  }

  lemma {:induction false} HeldIsCollected(v: Value, path: seq<nat>, x: Text)
    requires HeldAt(v, path, x)
    ensures x in Rids(v)
    decreases path
  {
    hide One, RidsOfPieces, Holds, Pieces, AllStringRids, AllOtherRids;
    if path == [] {
      if v.Str? {
        PiecesHold(Pieces(v.text), x);
      } else {
        OneIs(v.text, x);
      }
    } else {
      match v
      case List(items) =>
        HeldIsCollected(items[path[0]], path[1..], x);
        MemberIn(items, path[0]);
      case Tuple(items) =>
        HeldIsCollected(items[path[0]], path[1..], x);
        MemberIn(items, path[0]);
      case Dict(rid, _) =>
        HeldIsCollected(rid.value, path[1..], x);
      case _ => assert false;
    }
  }

  // ------------------------------------------------------------ mapping

  function Renamed(m: RidMap, t: Text): Text {
    if t in m then m[t] else t
  }

  /** The pieces that are not empty, stripped and renamed. */
  function MapPieces(m: RidMap, ps: seq<Text>): (r: seq<Text>)
    ensures |r| <= |ps|
  {
    if ps == [] then [] else
      var front, last := ps[..|ps| - 1], Strip(ps[|ps| - 1]);
      MapPieces(m, front) + if last == [] then [] else [Renamed(m, last)]
  }

  function MapText(m: RidMap, t: Text): Text {
    var mapped := MapPieces(m, Pieces(t));
    if mapped == [] then t else Join(mapped)
  }

  /** _map_rid_value */
  function MapValue(m: RidMap, v: Value): Value
    decreases v, 0
  {
    match v
    case Null => v
    case Str(t) => Str(MapText(m, t))
    case List(items) => List(MapAll(m, items))
    case Tuple(items) => Tuple(MapAll(m, items))
    case Dict(rid, others) => if rid.None? then v else Dict(Some(MapValue(m, rid.value)), others)
    case Other(_) => v
  }

  function MapAll(m: RidMap, vs: seq<Value>): (r: seq<Value>)
    ensures |r| == |vs| && forall i :: 0 <= i < |vs| ==> r[i] == MapValue(m, vs[i])
    decreases vs, 1
  {
    if vs == [] then [] else
      var front, last := vs[..|vs| - 1], vs[|vs| - 1];
      MapAll(m, front) + [MapValue(m, last)]
  }

  /** The branch for strings of _map_rid_value: one id or several, joined by commas. */
  method MapString(m: RidMap, t: Text) returns (r: Text)
    ensures r == MapText(m, t)
  {
    hide Pieces, Strip, Join, MapPieces;
    if ',' !in t {
      PiecesNoComma(t);
      MapSingle(m, t);
      var rid := Strip(t);
      if rid == [] {
        return t;
      }
      JoinSingle(Renamed(m, rid));
      return if rid in m then m[rid] else rid;
    }
    var pieces := Pieces(t);
    var mapped := [];
    NothingMapped(m);
    for i := 0 to |pieces|
      invariant mapped == MapPieces(m, pieces[..i])
    {
      assert pieces[..i + 1] == pieces[..i] + [pieces[i]];
      MapOne(m, pieces[..i], pieces[i]);
      var rid := Strip(pieces[i]);
      mapped := mapped + if rid == [] then [] else [if rid in m then m[rid] else rid];
    }
    assert pieces[..|pieces|] == pieces;
    return if mapped == [] then t else Join(mapped);
  }

  lemma MapSingle(m: RidMap, t: Text)
    ensures MapPieces(m, [t]) == if Strip(t) == [] then [] else [Renamed(m, Strip(t))]
  {
    MapOne(m, [], t);
    assert [] + [t] == [t];
  }

  lemma JoinSingle(t: Text)
    ensures Join([t]) == t
  {
  }

  /** A column of _apply_rid_mapping: the cache of mapped strings never changes a result. */
  method MapColumn(m: RidMap, column: seq<Value>) returns (r: seq<Value>)
    ensures r == MapAll(m, column)
  {
    hide MapText;
    var cache: map<Text, Text> := map[];
    r := [];
    for i := 0 to |column|
      invariant r == MapAll(m, column[..i]) && forall t :: t in cache ==> cache[t] == MapText(m, t)
    {
      assert column[..i + 1][..i] == column[..i];
      if column[i].Str? {
        var t := column[i].text;
        if t !in cache {
          var mapped := MapString(m, t);
          cache := cache[t := mapped];
        }
        assert MapValue(m, column[i]) == Str(MapText(m, t));
        r := r + [Str(cache[t])];
      } else {
        r := r + [MapValue(m, column[i])];
      }
    }
    assert column[..|column|] == column;
  }

  // ------------------------------------------------------------ what mapping does to a string and to a value

  ghost function RenamedEach(m: RidMap, ps: seq<Text>): (r: seq<Text>)
    ensures |r| == |ps| && forall i :: 0 <= i < |ps| ==> r[i] == Renamed(m, Strip(ps[i]))
  {
    seq(|ps|, i requires 0 <= i < |ps| => Renamed(m, Strip(ps[i])))
  }

  lemma {:induction false} MapPiecesEach(m: RidMap, ps: seq<Text>)
    requires forall i :: 0 <= i < |ps| ==> Strip(ps[i]) != []
    ensures MapPieces(m, ps) == RenamedEach(m, ps)
  {
    hide Strip, Renamed, MapPieces, RenamedEach;
    if ps == [] {
      NothingMapped(m);
    } else {
      var front, last := ps[..|ps| - 1], ps[|ps| - 1];
      assert ps == front + [last];
      assert forall i :: 0 <= i < |front| ==> front[i] == ps[i];
      MapPiecesEach(m, front);
      MapOne(m, front, last);
      assert RenamedEach(m, ps) == RenamedEach(m, front) + [Renamed(m, Strip(last))];
    }
  }

  lemma {:induction false} MapPiecesJoin(m: RidMap, ps: seq<Text>, qs: seq<Text>)
    ensures MapPieces(m, ps + qs) == MapPieces(m, ps) + MapPieces(m, qs)
  {
    hide Strip, Renamed, MapPieces;
    if qs == [] {
      NothingMapped(m);
      assert ps + qs == ps;
    } else {
      var front, last := qs[..|qs| - 1], qs[|qs| - 1];
      MapPiecesJoin(m, ps, front);
      MapOne(m, front, last);
      MapOne(m, ps + front, last);
      assert ps + qs == ps + front + [last] && qs == front + [last];
    }
  }

  /** Each id between the commas is replaced by its image, in its place. */
  lemma MapsEach(m: RidMap, ps: seq<Text>)
    requires ps != [] && NoCommas(ps) && forall i :: 0 <= i < |ps| ==> Strip(ps[i]) != []
    ensures MapText(m, Join(ps)) == Join(RenamedEach(m, ps))
  {
    hide Pieces, Join, MapPieces, RenamedEach, Strip;
    PiecesJoin(ps);
    MapPiecesEach(m, ps);
  }

  /** An empty piece among others is dropped. */
  lemma BlankPieceDropped(m: RidMap, ps: seq<Text>, k: nat, blank: Text)
    requires ps != [] && NoCommas(ps) && k <= |ps| && Blank(blank) && exists i :: 0 <= i < |ps| && Strip(ps[i]) != []
    ensures MapText(m, Join(ps[..k] + [blank] + ps[k..])) == MapText(m, Join(ps))
  {
    hide Pieces, Join, MapPieces, Strip, Blank, NoCommas;
    SamePieces(ps);
    MoreWithoutCommas(ps, k, blank);
    PiecesJoin(ps[..k] + [blank] + ps[k..]);
    assert ps == ps[..k] + ps[k..];
    BlankAdded(m, ps[..k], blank, ps[k..]);
    EmptyPieces(m, ps);
  }

  lemma SamePieces(ps: seq<Text>)
    requires ps != [] && NoCommas(ps)
    ensures Pieces(Join(ps)) == ps
  {
    hide Pieces, Join;
    PiecesJoin(ps);
  }

  lemma MoreWithoutCommas(ps: seq<Text>, k: nat, blank: Text)
    requires NoCommas(ps) && k <= |ps| && Blank(blank)
    ensures var more := ps[..k] + [blank] + ps[k..];
            more != [] && forall i :: 0 <= i < |more| ==> ',' !in more[i]
  {
    hide Blank;
    BlankHasNoComma(blank);
  }

  lemma BlankAdded(m: RidMap, ps: seq<Text>, blank: Text, qs: seq<Text>)
    requires Blank(blank)
    ensures MapPieces(m, ps + [blank] + qs) == MapPieces(m, ps + qs)
  {
    hide MapPieces, Strip, Blank;
    BlankIsEmpty(blank);
    MapPiecesJoin(m, ps + [blank], qs);
    MapOne(m, ps, blank);
    MapPiecesJoin(m, ps, qs);
    assert MapPieces(m, ps) + [] == MapPieces(m, ps);
  }

  /** A string without any id is kept. */
  lemma BlankTextKept(m: RidMap, t: Text)
    requires forall i :: 0 <= i < |Pieces(t)| ==> Blank(Pieces(t)[i])
    ensures MapText(m, t) == t
  {
    hide Pieces, Join, MapPieces, Strip, Blank;
    forall i | 0 <= i < |Pieces(t)| ensures Strip(Pieces(t)[i]) == [] {
      BlankIsEmpty(Pieces(t)[i]);
    }
    EmptyPieces(m, Pieces(t));
  }

  lemma BlankHasNoComma(t: Text)
    requires Blank(t)
    ensures ',' !in t
  {
    assert !Space(',');
  }

  lemma BlankIsEmpty(t: Text)
    requires Blank(t)
    ensures Strip(t) == []
  {
    hide Strip;
    StripIs(t, [], []);
    assert t + [] + [] == t;
  }

  lemma {:induction false} RidsJoin(ps: seq<Text>, qs: seq<Text>)
    ensures RidsOfPieces(ps + qs) == RidsOfPieces(ps) + RidsOfPieces(qs)
  {
    hide One, RidsOfPieces;
    if qs == [] {
      assert RidsOfPieces([]) == {} by {
        NothingMapped(map[]);
      }
      assert ps + qs == ps;
    } else {
      var front, last := qs[..|qs| - 1], qs[|qs| - 1];
      RidsJoin(ps, front);
      RidsOne(front, last);
      RidsOne(ps + front, last);
      assert ps + qs == ps + front + [last] && qs == front + [last];
    }
  }

  lemma RidsReplaced(ps: seq<Text>, i: nat, p: Text)
    requires i < |ps| && One(p) == One(ps[i])
    ensures RidsOfPieces(ps[i := p]) == RidsOfPieces(ps)
  {
    hide RidsOfPieces, One;
    var before, after := ps[..i], ps[i + 1..];
    assert ps == before + [ps[i]] + after && ps[i := p] == before + [p] + after;
    RidsJoin(before + [p], after);
    RidsJoin(before + [ps[i]], after);
    RidsOne(before, p);
    RidsOne(before, ps[i]);
  }

  /** White space round a piece changes neither the ids collected from the string nor what it is mapped to. */
  lemma SpacesDoNotMatter(m: RidMap, ps: seq<Text>, i: nat, a: Text, b: Text)
    requires NoCommas(ps) && i < |ps| && Blank(a) && Blank(b)
    ensures var padded := ps[i := a + ps[i] + b];
            && Rids(Str(Join(padded))) == Rids(Str(Join(ps)))
            && ((exists k :: 0 <= k < |ps| && Strip(ps[k]) != []) ==> MapText(m, Join(padded)) == MapText(m, Join(ps)))
  {
    hide Pieces, Join, MapPieces, Strip, Blank, RidsOfPieces, IsRid;
    var p := a + ps[i] + b;
    BlankHasNoComma(a);
    BlankHasNoComma(b);
    StripPadded(a, ps[i], b);
    RidsReplaced(ps, i, p);
    PiecesJoin(ps);
    PiecesJoin(ps[i := p]);
    MapReplaced(m, ps, i, p);
    EmptyPieces(m, ps);
  }

  lemma MapReplaced(m: RidMap, ps: seq<Text>, i: nat, p: Text)
    requires i < |ps| && Strip(p) == Strip(ps[i])
    ensures MapPieces(m, ps[i := p]) == MapPieces(m, ps)
  {
    hide MapPieces, Strip;
    var before, after := ps[..i], ps[i + 1..];
    assert ps == before + [ps[i]] + after && ps[i := p] == before + [p] + after;
    MapPiecesJoin(m, before + [p], after);
    MapPiecesJoin(m, before + [ps[i]], after);
    MapOne(m, before, p);
    MapOne(m, before, ps[i]);
  }

  /** What mapping makes of a value, apart from what is inside it. */
  ghost predicate MapsTo(m: RidMap, w: Value, w': Value) {
    match w
    case Null => w' == w
    case Str(t) => w' == Str(MapText(m, t))
    case List(items) => w'.List? && |w'.items| == |items|
    case Tuple(items) => w'.Tuple? && |w'.items| == |items|
    case Dict(rid, others) => w'.Dict? && w'.others == others && (w'.rid.Some? <==> rid.Some?)
    case Other(_) => w' == w
  }

  /** Mapping keeps the shape of a value and rewrites exactly its strings. */
  lemma {:induction false} MapsInPlace(m: RidMap, v: Value, path: seq<nat>)
    ensures var w, w' := ValueAt(v, path), ValueAt(MapValue(m, v), path);
            (w.Some? <==> w'.Some?) && (w.Some? ==> MapsTo(m, w.value, w'.value))
    decreases path
  {
    hide MapText;
    if path != [] {
      match v
      case List(items) =>
        if path[0] < |items| {
          MapsInPlace(m, items[path[0]], path[1..]);
        }
      case Tuple(items) =>
        if path[0] < |items| {
          MapsInPlace(m, items[path[0]], path[1..]);
        }
      case Dict(rid, _) =>
        if rid.Some? {
          MapsInPlace(m, rid.value, path[1..]);
        }
      case _ =>
    }
  }

  // ------------------------------------------------------------ maps that rename variants to originals

  /** A request id as it appears between commas. */
  predicate Clean(t: Text) {
    IsRid(t) && Stripped(t) && ',' !in t
  }

  /** No original is itself renamed, and for the ids that can be found between commas the original can be, too. */
  ghost predicate GoodMap(m: RidMap) {
    && (forall k :: k in m ==> IsRid(k) && m[k] !in m)
    && forall k :: k in m && ',' !in k ==> Clean(m[k])
  }

  ghost function Image(m: RidMap, s: set<Text>): (r: set<Text>)
    ensures forall t :: t in s ==> Renamed(m, t) in r
    ensures forall x :: x in r ==> exists t :: t in s && x == Renamed(m, t)
  {
    set t | t in s :: Renamed(m, t)
  }

  /** What mapping leaves: stripped ids that are not renamed any more. */
  ghost predicate SettledId(m: RidMap, t: Text) {
    t != [] && Stripped(t) && ',' !in t && t !in m
  }

  ghost predicate Settled(m: RidMap, ps: seq<Text>) {
    forall i :: 0 <= i < |ps| ==> SettledId(m, ps[i])
  }

  ghost predicate NoCommas(ps: seq<Text>) {
    forall i :: 0 <= i < |ps| ==> ',' !in ps[i]
  }

  lemma RidsOne(ps: seq<Text>, p: Text)
    ensures RidsOfPieces(ps + [p]) == RidsOfPieces(ps) + One(p)
  {
    assert (ps + [p])[..|ps|] == ps;
  }

  lemma MapOne(m: RidMap, ps: seq<Text>, p: Text)
    ensures MapPieces(m, ps + [p]) == MapPieces(m, ps) + if Strip(p) == [] then [] else [Renamed(m, Strip(p))]
  {
    hide Strip, Renamed;
    assert (ps + [p])[..|ps|] == ps;
  }

  lemma MappedOneMore(m: RidMap, front: seq<Text>, p: Text)
    requires GoodMap(m) && ',' !in p
    requires Settled(m, MapPieces(m, front)) && RidsOfPieces(MapPieces(m, front)) == Image(m, RidsOfPieces(front))
    ensures Settled(m, MapPieces(m, front + [p]))
    ensures RidsOfPieces(MapPieces(m, front + [p])) == Image(m, RidsOfPieces(front + [p]))
  {
    hide Strip, SettledId, Image, IsRid, GoodMap, One, Renamed, MapPieces, RidsOfPieces;
    var mapped := MapPieces(m, front);
    MapOne(m, front, p);
    RidsOne(front, p);
    ImageMore(m, RidsOfPieces(front), One(p));
    if Strip(p) != [] {
      RenamedOne(m, p);
      RidsOne(mapped, Renamed(m, Strip(p)));
    } else {
      EmptyIsNoRid(p, m);
      assert mapped + [] == mapped;
    }
  }

  lemma {:induction false} MappedPieces(m: RidMap, ps: seq<Text>)
    requires GoodMap(m) && NoCommas(ps)
    ensures Settled(m, MapPieces(m, ps)) && RidsOfPieces(MapPieces(m, ps)) == Image(m, RidsOfPieces(ps))
  {
    hide GoodMap, Image, RidsOfPieces, MapPieces, Settled, NoCommas;
    if ps == [] {
      NothingMapped(m);
    } else {
      var front, last := ps[..|ps| - 1], ps[|ps| - 1];
      NoCommasFront(ps);
      MappedPieces(m, front);
      MappedOneMore(m, front, last);
      assert ps == front + [last];
    }
  }

  lemma NothingMapped(m: RidMap)
    ensures MapPieces(m, []) == [] && RidsOfPieces([]) == {} && Image(m, {}) == {} && Settled(m, [])
  {
  }

  lemma NoCommasFront(ps: seq<Text>)
    requires NoCommas(ps) && ps != []
    ensures NoCommas(ps[..|ps| - 1]) && ',' !in ps[|ps| - 1]
  {
  }

  lemma ImageOfNothing(m: RidMap)
    ensures Image(m, {}) == {}
  {
  }

  lemma ImageMore(m: RidMap, a: set<Text>, b: set<Text>)
    ensures Image(m, a + b) == Image(m, a) + Image(m, b)
  {
  }

  lemma EmptyIsNoRid(p: Text, m: RidMap)
    requires Strip(p) == []
    ensures One(p) == {} && Image(m, One(p)) == {}
  {
  }

  lemma RenamedOne(m: RidMap, p: Text)
    requires GoodMap(m) && ',' !in p && Strip(p) != []
    ensures SettledId(m, Renamed(m, Strip(p))) && One(Renamed(m, Strip(p))) == Image(m, One(p))
  {
    var t := Strip(p);
    var x := Renamed(m, t);
    hide Strip;
    assert ',' !in t;
    assert IsRid(t) <==> IsRid(x);
    assert One(p) == if IsRid(t) then {t} else {};
    assert Image(m, {t}) == {x};
    ImageOfNothing(m);
  }

  lemma EmptyImage(m: RidMap, s: set<Text>)
    requires Image(m, s) == {}
    ensures s == {}
  {
    assert forall x :: x in s ==> Renamed(m, x) in Image(m, s);
  }

  lemma MappedText(m: RidMap, t: Text)
    requires GoodMap(m)
    ensures RidsOfPieces(Pieces(MapText(m, t))) == Image(m, RidsOfPieces(Pieces(t)))
  {
    var mapped := MapPieces(m, Pieces(t));
    PiecesNoComma(t);
    MappedPieces(m, Pieces(t));
    if mapped == [] {
      EmptyImage(m, RidsOfPieces(Pieces(t)));
    } else {
      PiecesJoin(mapped);
    }
  }

  /** The ids in the strings of a mapped value are the images of those of the original; other objects are left alone. */
  lemma {:induction false} MappedStrings(m: RidMap, v: Value)
    requires GoodMap(m)
    ensures StringRids(MapValue(m, v)) == Image(m, StringRids(v)) && OtherRids(MapValue(m, v)) == OtherRids(v)
    decreases v, 0
  {
    hide GoodMap, MapText, Image, RidsOfPieces, One, AllStringRids, AllOtherRids, MapAll;
    ImageOfNothing(m);
    match v
    case Null =>
    case Str(t) =>
      MappedText(m, t);
    case List(items) =>
      MappedAll(m, items);
    case Tuple(items) =>
      MappedAll(m, items);
    case Dict(rid, _) =>
      if rid.Some? {
        MappedStrings(m, rid.value);
      }
    case Other(_) =>
  }

  lemma {:induction false} MappedAll(m: RidMap, vs: seq<Value>)
    requires GoodMap(m)
    ensures AllStringRids(MapAll(m, vs)) == Image(m, AllStringRids(vs)) && AllOtherRids(MapAll(m, vs)) == AllOtherRids(vs)
    decreases vs, 1
  {
    hide GoodMap, Image;
    ImageOfNothing(m);
    if vs != [] {
      var front, last := vs[..|vs| - 1], vs[|vs| - 1];
      MappedAll(m, front);
      MappedStrings(m, last);
      ImageMore(m, AllStringRids(front), StringRids(last));
      assert MapAll(m, vs)[..|front|] == MapAll(m, front);
    }
  }

  /** Collecting after mapping gives the images of what is collected before, exactly when no object that is not a string has a
      text that is renamed. */
  lemma CommutesExactlyWhen(m: RidMap, v: Value)
    requires GoodMap(m)
    ensures Rids(MapValue(m, v)) == Image(m, Rids(v)) <==> OtherRids(v) !! m.Keys
  {
    hide StringRids, OtherRids, MapValue, Image;
    MappedStrings(m, v);
    ImageMore(m, StringRids(v), OtherRids(v));
    if OtherRids(v) !! m.Keys {
      ImageSame(m, OtherRids(v));
    } else {
      var k :| k in OtherRids(v) && k in m;
      ImageAvoids(m, Rids(v));
    }
  }

  lemma ImageSame(m: RidMap, s: set<Text>)
    requires s !! m.Keys
    ensures Image(m, s) == s
  {
    forall x ensures x in Image(m, s) <==> x in s {
      assert x in s ==> Renamed(m, x) == x;
    }
  }

  /** A number whose text looks like a variant: collecting sees it, mapping does not change it. */
  lemma NumbersAreLeft()
    ensures var m, v := map["1e-05" := "1e"], Other("1e-05");
            GoodMap(m) && Rids(MapValue(m, v)) != Image(m, Rids(v))
  {
    hide Strip, Rids, MapValue, Image;
    var m, v := map["1e-05" := "1e"], Other("1e-05");
    assert Stripped("1e-05") && Stripped("1e");
    assert Strip("1e-05") == "1e-05";
    assert "1e-05" in One("1e-05") && OtherRids(v) == One("1e-05");
    CommutesExactlyWhen(m, v);
  }

  // ------------------------------------------------------------ mapping twice

  lemma {:induction false} PiecesFixed(m: RidMap, ps: seq<Text>)
    requires forall i :: 0 <= i < |ps| ==> ps[i] != [] && Stripped(ps[i]) && ps[i] !in m
    ensures MapPieces(m, ps) == ps
  {
    if ps != [] {
      PiecesFixed(m, ps[..|ps| - 1]);
      assert ps == ps[..|ps| - 1] + [ps[|ps| - 1]];
    }
  }

  /** A mapped string has its ids stripped and no empty pieces, or has no ids at all. */
  ghost predicate Tidy(t: Text) {
    || (forall i :: 0 <= i < |Pieces(t)| ==> Strip(Pieces(t)[i]) == [])
    || (Join(Pieces(t)) == t && forall i :: 0 <= i < |Pieces(t)| ==> Pieces(t)[i] != [] && Stripped(Pieces(t)[i]))
  }

  ghost predicate TidyValue(v: Value)
    decreases v, 0
  {
    match v
    case Null => true
    case Str(t) => Tidy(t)
    case List(items) => forall i :: 0 <= i < |items| ==> TidyValue(items[i])
    case Tuple(items) => forall i :: 0 <= i < |items| ==> TidyValue(items[i])
    case Dict(rid, _) => rid.Some? ==> TidyValue(rid.value)
    case Other(_) => true
  }

  lemma {:induction false} EmptyPieces(m: RidMap, ps: seq<Text>)
    ensures MapPieces(m, ps) == [] <==> forall i :: 0 <= i < |ps| ==> Strip(ps[i]) == []
  {
    hide Strip, MapPieces, Renamed;
    if ps == [] {
      NothingMapped(m);
    } else {
      var front, last := ps[..|ps| - 1], ps[|ps| - 1];
      EmptyPieces(m, front);
      MapOne(m, front, last);
      assert ps == front + [last];
      assert forall i :: 0 <= i < |front| ==> front[i] == ps[i];
    }
  }

  lemma MappedIsTidy(m: RidMap, t: Text)
    requires GoodMap(m)
    ensures Tidy(MapText(m, t))
  {
    hide GoodMap, Image, RidsOfPieces, MapPieces, Strip, Stripped, Pieces, Join;
    var mapped := MapPieces(m, Pieces(t));
    EmptyPieces(m, Pieces(t));
    if mapped != [] {
      PiecesNoComma(t);
      MappedPieces(m, Pieces(t));
      PiecesJoin(mapped);
    }
  }

  /** Mapping leaves a tidy string alone if none of its ids is renamed. */
  lemma TidyFixed(m: RidMap, t: Text)
    requires Tidy(t) && RidsOfPieces(Pieces(t)) !! m.Keys && forall k :: k in m ==> IsRid(k)
    ensures MapText(m, t) == t
  {
    EmptyPieces(m, Pieces(t));
    if exists i :: 0 <= i < |Pieces(t)| && Strip(Pieces(t)[i]) != [] {
      forall i | 0 <= i < |Pieces(t)| ensures Pieces(t)[i] !in m {
        PieceRids(Pieces(t), i);
        assert IsRid(Pieces(t)[i]) ==> Pieces(t)[i] in One(Pieces(t)[i]);
      }
      PiecesFixed(m, Pieces(t));
    }
  }

  lemma {:induction false} MappedTidy(m: RidMap, v: Value)
    requires GoodMap(m)
    ensures TidyValue(MapValue(m, v))
    decreases v
  {
    hide GoodMap, Tidy, MapText;
    match v
    case Null =>
    case Str(t) =>
      MappedIsTidy(m, t);
    case List(items) =>
      forall i | 0 <= i < |items| ensures TidyValue(MapAll(m, items)[i]) {
        MappedTidy(m, items[i]);
      }
    case Tuple(items) =>
      forall i | 0 <= i < |items| ensures TidyValue(MapAll(m, items)[i]) {
        MappedTidy(m, items[i]);
      }
    case Dict(rid, _) =>
      if rid.Some? {
        MappedTidy(m, rid.value);
      }
    case Other(_) =>
  }

  lemma {:induction false} ValueFixed(m: RidMap, v: Value)
    requires TidyValue(v) && StringRids(v) !! m.Keys && forall k :: k in m ==> IsRid(k)
    ensures MapValue(m, v) == v
    decreases v
  {
    hide Tidy, MapText, IsRid;
    match v
    case Null =>
    case Str(t) =>
      TidyFixed(m, t);
    case List(items) =>
      forall i | 0 <= i < |items| ensures MapAll(m, items)[i] == items[i] {
        MemberIn(items, i);
        ValueFixed(m, items[i]);
      }
      assert MapAll(m, items) == items;
    case Tuple(items) =>
      forall i | 0 <= i < |items| ensures MapAll(m, items)[i] == items[i] {
        MemberIn(items, i);
        ValueFixed(m, items[i]);
      }
      assert MapAll(m, items) == items;
    case Dict(rid, _) =>
      if rid.Some? {
        ValueFixed(m, rid.value);
      }
    case Other(_) =>
  }

  lemma ImageAvoids(m: RidMap, s: set<Text>)
    requires GoodMap(m)
    ensures Image(m, s) !! m.Keys
  {
  }

  /** Mapping twice is mapping once. */
  lemma MappingIsIdempotent(m: RidMap, v: Value)
    requires GoodMap(m)
    ensures MapValue(m, MapValue(m, v)) == MapValue(m, v)
  {
    hide TidyValue, StringRids, MapValue, Image;
    MappedTidy(m, v);
    MappedStrings(m, v);
    ImageAvoids(m, StringRids(v));
    ValueFixed(m, MapValue(m, v));
  }
}
