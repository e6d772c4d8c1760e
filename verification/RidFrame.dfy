module RidFrame {
  /** The whole pass over the merged data: build the mapping from the data, and apply it to them (plugins/plugin_concat.py). */

  import opened Basics
  import opened RidText
  import opened RidMapping

  /** The columns name, rid, rid_list and res_list; the last two may be missing. */
  datatype Frame = Frame(names: seq<Text>, rid: seq<Value>, ridList: Option<seq<Value>>, resList: Option<seq<Value>>)

  ghost predicate IsFrame(f: Frame) {
    |f.names| == |f.rid|
  }

  predicate OriginalEvent(name: Text) {
    name == "httpReq" || name == "tokenize"
  }

  /** The ids of the events that carry original ones. */
  function OriginalValues(names: seq<Text>, rid: seq<Value>): (vs: seq<Value>)
    requires |names| == |rid|
  {
    if names == [] then []
    else
      var front, last := OriginalValues(names[..|names| - 1], rid[..|rid| - 1]), |names| - 1;
      if OriginalEvent(names[last]) then front + [rid[last]] else front
  }

  function AllRids(vs: seq<Value>): set<Text> {
    AllStringRids(vs) + AllOtherRids(vs)
  }

  function Column(vs: Option<seq<Value>>): seq<Value> {
    if vs.Some? then vs.value else []
  }

  function Originals(f: Frame): set<Text>
    requires IsFrame(f)
  {
    AllRids(OriginalValues(f.names, f.rid))
  }

  ghost function Strings(f: Frame): set<Text> {
    AllStringRids(f.rid) + AllStringRids(Column(f.ridList)) + AllStringRids(Column(f.resList))
  }

  function Observed(f: Frame): set<Text>
    requires IsFrame(f)
  {
    AllRids(f.rid) + AllRids(Column(f.ridList)) + AllRids(Column(f.resList)) - Originals(f)
  }

  ghost function BuildMap(f: Frame): (m: RidMap)
    requires IsFrame(f)
  {
    map t | t in Observed(f) && OriginalOf(t, Originals(f)).Some? :: OriginalOf(t, Originals(f)).value
  }

  function MapColumns(m: RidMap, f: Frame): (f': Frame)
    requires IsFrame(f)
    ensures IsFrame(f')
  {
    Frame(f.names, MapAll(m, f.rid),
          if f.ridList.Some? then Some(MapAll(m, f.ridList.value)) else None,
          if f.resList.Some? then Some(MapAll(m, f.resList.value)) else None)
  }

  /** Each cell of the column is mapped. */
  ghost predicate IsMapped(m: RidMap, vs: seq<Value>, vs': seq<Value>) {
    |vs'| == |vs| && forall i :: 0 <= i < |vs| ==> vs'[i] == MapValue(m, vs[i])
  }

  ghost predicate OptionMapped(m: RidMap, vs: Option<seq<Value>>, vs': Option<seq<Value>>) {
    (vs'.Some? <==> vs.Some?) && (vs.Some? ==> IsMapped(m, vs.value, vs'.value))
  }

  /** An empty mapping is not applied at all. */
  ghost function Normalise(f: Frame): (f': Frame)
    requires IsFrame(f)
    ensures IsFrame(f')
  {
    if BuildMap(f) == map[] then f else MapColumns(BuildMap(f), f)
  }

  // ------------------------------------------------------------ which ids are originals, and which are seen

  /** Some cell of the column holds the id. */
  ghost predicate InColumn(vs: seq<Value>, x: Text) {
    exists i :: 0 <= i < |vs| && x in Rids(vs[i])
  }

  lemma AllRidsAre(vs: seq<Value>, x: Text)
    ensures x in AllRids(vs) <==> InColumn(vs, x)
  {
    hide StringRids, OtherRids;
    if x in AllRids(vs) {
      var i := MemberWith(vs, x);
    }
    if InColumn(vs, x) {
      var i :| 0 <= i < |vs| && x in Rids(vs[i]);
      MemberIn(vs, i);
    }
  }

  /** The originals are the ids of the events named httpReq and tokenize. */
  lemma {:induction false} OriginalsAre(f: Frame, x: Text)
    requires IsFrame(f)
    ensures x in Originals(f) <==>
            exists i :: 0 <= i < |f.names| && (f.names[i] == "httpReq" || f.names[i] == "tokenize") && x in Rids(f.rid[i])
  {
    hide Rids, AllStringRids, AllOtherRids;
    AllRidsAre(OriginalValues(f.names, f.rid), x);
    var places := OriginalPlaces(f.names, f.rid);
  }

  lemma {:induction false} OriginalPlaces(names: seq<Text>, rid: seq<Value>) returns (places: seq<nat>)
    requires |names| == |rid|
    ensures |places| == |OriginalValues(names, rid)|
    ensures forall k :: 0 <= k < |places| ==>
              && places[k] < |names| && (names[places[k]] == "httpReq" || names[places[k]] == "tokenize")
              && OriginalValues(names, rid)[k] == rid[places[k]]
    ensures forall i :: 0 <= i < |names| && (names[i] == "httpReq" || names[i] == "tokenize") ==> i in places
  {
    if names == [] {
      places := [];
    } else {
      var last := |names| - 1;
      places := OriginalPlaces(names[..last], rid[..last]);
      if OriginalEvent(names[last]) {
        places := places + [last];
      }
    }
  }

  /** The ids seen are those of the three columns that are no originals. */
  lemma ObservedAre(f: Frame, x: Text)
    requires IsFrame(f)
    ensures x in Observed(f) <==>
            && x !in Originals(f)
            && (InColumn(f.rid, x) || (f.ridList.Some? && InColumn(f.ridList.value, x)) || (f.resList.Some? && InColumn(f.resList.value, x)))
  {
    hide Rids, AllStringRids, AllOtherRids, Originals;
    AllRidsAre(f.rid, x);
    AllRidsAre(Column(f.ridList), x);
    AllRidsAre(Column(f.resList), x);
  }

  // ------------------------------------------------------------ the methods

  /** _build_rid_hash_mapping */
  method BuildRidHashMapping(f: Frame) returns (m: RidMap)
    requires IsFrame(f)
    ensures m == BuildMap(f)
  {
    hide AllStringRids, AllOtherRids, OriginalValues, OriginalOf, Column;
    var originals := CollectAll(OriginalValues(f.names, f.rid), {});
    assert originals == Originals(f);
    var observed := CollectAll(f.rid, {});
    observed := CollectAll(Column(f.ridList), observed);
    observed := CollectAll(Column(f.resList), observed);
    observed := observed - originals;
    assert observed == Observed(f);
    m := map[];
    var rest := observed;
    while rest != {}
      invariant rest <= observed
      invariant m == map t | t in observed - rest && OriginalOf(t, originals).Some? :: OriginalOf(t, originals).value
      decreases rest
    {
      var t :| t in rest;
      var original := FindOriginal(t, originals);
      if original.Some? {
        m := m[t := original.value];
      }
      rest := rest - {t};
    }
  }

  /** _try_apply_hash_rid_mapping */
  method TryApplyMapping(f: Frame) returns (f': Frame)
    requires IsFrame(f)
    ensures f' == Normalise(f) && f'.names == f.names
    ensures BuildMap(f) == map[] ==> f' == f
    ensures BuildMap(f) != map[] ==>
              && IsMapped(BuildMap(f), f.rid, f'.rid)
              && OptionMapped(BuildMap(f), f.ridList, f'.ridList) && OptionMapped(BuildMap(f), f.resList, f'.resList)
  {
    hide MapAll, BuildMap;
    var m := BuildRidHashMapping(f);
    if m == map[] {
      return f;
    }
    var rid := MapColumn(m, f.rid);
    return MapColumns(m, f).(rid := rid);
  }

  // ------------------------------------------------------------ the mapping is good

  ghost predicate Collected(s: set<Text>) {
    forall t :: t in s ==> IsRid(t) && Stripped(t)
  }

  lemma OneCollected(t: Text)
    ensures Collected(One(t))
  {
  }

  lemma {:induction false} PiecesCollected(ps: seq<Text>)
    ensures Collected(RidsOfPieces(ps))
  {
    hide One, Stripped, IsRid;
    if ps != [] {
      PiecesCollected(ps[..|ps| - 1]);
      OneCollected(ps[|ps| - 1]);
    }
  }

  lemma {:induction false} ValueCollected(v: Value)
    ensures Collected(StringRids(v)) && Collected(OtherRids(v))
    decreases v, 0
  {
    hide Stripped, IsRid, One, RidsOfPieces, Pieces;
    match v
    case Null =>
    case Str(t) =>
      PiecesCollected(Pieces(t));
    case List(items) =>
      AllCollected(items);
    case Tuple(items) =>
      AllCollected(items);
    case Dict(rid, _) =>
      if rid.Some? {
        ValueCollected(rid.value);
      }
    case Other(t) =>
      OneCollected(t);
  }

  lemma {:induction false} AllCollected(vs: seq<Value>)
    ensures Collected(AllStringRids(vs)) && Collected(AllOtherRids(vs)) && Collected(AllRids(vs))
    decreases vs, 1
  {
    hide Stripped, IsRid, StringRids, OtherRids;
    if vs != [] {
      AllCollected(vs[..|vs| - 1]);
      ValueCollected(vs[|vs| - 1]);
    }
  }

  /** The mapping built from any data renames variants to originals that are not renamed themselves. */
  lemma BuiltMapIsGood(f: Frame)
    requires IsFrame(f)
    ensures GoodMap(BuildMap(f))
  {
    hide AllRids, OriginalValues, Stripped, IsRid, Column;
    var m := BuildMap(f);
    AllCollected(OriginalValues(f.names, f.rid));
    AllCollected(f.rid);
    AllCollected(Column(f.ridList));
    AllCollected(Column(f.resList));
    forall k | k in m ensures m[k] in Originals(f) && m[k] == k[..|m[k]|] {
      assert OriginalAt(k, Originals(f), |m[k]|, |k|);
    }
    forall k | k in m && ',' !in k ensures ',' !in m[k] {
      assert forall c :: c in k[..|m[k]|] ==> c in k;
    }
  }

  // ------------------------------------------------------------ what the pass achieves

  lemma {:induction false} OriginalsOfMapped(m: RidMap, names: seq<Text>, rid: seq<Value>)
    requires |names| == |rid|
    ensures OriginalValues(names, MapAll(m, rid)) == MapAll(m, OriginalValues(names, rid))
  {
    hide MapValue;
    if names != [] {
      var front, last := rid[..|rid| - 1], rid[|rid| - 1];
      OriginalsOfMapped(m, names[..|names| - 1], front);
      assert MapAll(m, rid)[..|rid| - 1] == MapAll(m, front);
      var vs := OriginalValues(names[..|names| - 1], front);
      assert MapAll(m, vs + [last]) == MapAll(m, vs) + [MapValue(m, last)] by {
        assert (vs + [last])[..|vs|] == vs;
      }
    }
  }

  /** The originals are the same before and after. */
  lemma OriginalsKept(f: Frame)
    requires IsFrame(f)
    ensures Originals(Normalise(f)) == Originals(f)
  {
    hide AllStringRids, AllOtherRids, OriginalValues, MapAll, Image, GoodMap, Observed;
    var m, vs := BuildMap(f), OriginalValues(f.names, f.rid);
    if m != map[] {
      BuiltMapIsGood(f);
      OriginalsOfMapped(m, f.names, f.rid);
      MappedAll(m, vs);
      KeysAreNoOriginals(f);
      ImageSame(m, AllStringRids(vs));
    }
  }

  lemma KeysAreNoOriginals(f: Frame)
    requires IsFrame(f)
    ensures BuildMap(f).Keys !! Originals(f)
  {
  }

  lemma ImageSplit(m: RidMap, a: set<Text>, b: set<Text>, c: set<Text>)
    ensures Image(m, a + b + c) == Image(m, a) + Image(m, b) + Image(m, c)
  {
    ImageMore(m, a + b, c);
    ImageMore(m, a, b);
  }

  lemma MappedStringsOf(m: RidMap, f: Frame)
    requires IsFrame(f) && GoodMap(m)
    ensures Strings(MapColumns(m, f)) == Image(m, Strings(f))
  {
    hide AllStringRids, AllOtherRids, MapAll, Image, GoodMap;
    MappedAll(m, f.rid);
    ColumnMapped(m, f.ridList);
    ColumnMapped(m, f.resList);
    ImageSplit(m, AllStringRids(f.rid), AllStringRids(Column(f.ridList)), AllStringRids(Column(f.resList)));
  }

  lemma ColumnMapped(m: RidMap, vs: Option<seq<Value>>)
    requires GoodMap(m)
    ensures AllStringRids(Column(if vs.Some? then Some(MapAll(m, vs.value)) else None)) == Image(m, AllStringRids(Column(vs)))
  {
    hide AllStringRids, Image, GoodMap;
    MappedAll(m, Column(vs));
    assert MapAll(m, []) == [];
  }

  /** After the pass every id in a string is an original or has no original. */
  lemma NoVariantLeft(f: Frame, t: Text)
    requires IsFrame(f) && t in Strings(Normalise(f))
    ensures t in Originals(f) || OriginalOf(t, Originals(f)) == None
  {
    hide Strings, Observed, Originals, GoodMap, MapColumns, OriginalOf;
    var m := BuildMap(f);
    if m == map[] {
      NotKey(f, t);
    } else {
      BuiltMapIsGood(f);
      MappedStringsOf(m, f);
      var x :| x in Strings(f) && t == Renamed(m, x);
      NotKey(f, x);
      KeysAreOriginals(f);
    }
  }

  lemma NotKey(f: Frame, t: Text)
    requires IsFrame(f) && t in Strings(f)
    ensures t in Originals(f) || (t in BuildMap(f) <==> OriginalOf(t, Originals(f)).Some?)
  {
  }

  lemma KeysAreOriginals(f: Frame)
    requires IsFrame(f)
    ensures forall k :: k in BuildMap(f) ==> BuildMap(f)[k] in Originals(f)
  {
    forall k | k in BuildMap(f) ensures BuildMap(f)[k] in Originals(f) {
      assert OriginalAt(k, Originals(f), |BuildMap(f)[k]|, |k|);
    }
  }

  lemma {:induction false} ColumnFixed(m: RidMap, vs: seq<Value>)
    requires AllStringRids(vs) !! m.Keys && (forall k :: k in m ==> IsRid(k)) && forall i :: 0 <= i < |vs| ==> TidyValue(vs[i])
    ensures MapAll(m, vs) == vs
  {
    hide TidyValue, MapValue, StringRids, IsRid;
    forall i | 0 <= i < |vs| ensures MapAll(m, vs)[i] == vs[i] {
      MemberIn(vs, i);
      ValueFixed(m, vs[i]);
    }
  }

  lemma ColumnTidy(m: RidMap, vs: seq<Value>)
    requires GoodMap(m)
    ensures forall i :: 0 <= i < |vs| ==> TidyValue(MapAll(m, vs)[i])
  {
    hide TidyValue, MapValue;
    forall i | 0 <= i < |vs| ensures TidyValue(MapAll(m, vs)[i]) {
      MappedTidy(m, vs[i]);
    }
  }

  ghost predicate TidyFrame(f: Frame) {
    && (forall i :: 0 <= i < |f.rid| ==> TidyValue(f.rid[i]))
    && (forall i :: 0 <= i < |Column(f.ridList)| ==> TidyValue(Column(f.ridList)[i]))
    && (forall i :: 0 <= i < |Column(f.resList)| ==> TidyValue(Column(f.resList)[i]))
  }

  lemma MappedFrameTidy(m: RidMap, f: Frame)
    requires GoodMap(m) && IsFrame(f)
    ensures TidyFrame(MapColumns(m, f))
  {
    hide TidyValue, MapAll, GoodMap;
    ColumnTidy(m, f.rid);
    ColumnTidy(m, Column(f.ridList));
    ColumnTidy(m, Column(f.resList));
  }

  lemma FrameFixed(m: RidMap, f: Frame)
    requires IsFrame(f) && TidyFrame(f) && Strings(f) !! m.Keys && forall k :: k in m ==> IsRid(k)
    ensures MapColumns(m, f) == f
  {
    hide TidyValue, MapAll, IsRid, AllStringRids;
    ColumnFixed(m, f.rid);
    ColumnFixed(m, Column(f.ridList));
    ColumnFixed(m, Column(f.resList));
  }

  /** The pass changes nothing the second time, although it builds a new mapping from the rewritten data. */
  lemma PassIsIdempotent(f: Frame)
    requires IsFrame(f)
    ensures Normalise(Normalise(f)) == Normalise(f)
  {
    hide Strings, Originals, Observed, BuildMap, MapColumns, TidyFrame, GoodMap, OriginalOf, IsRid;
    var m, f' := BuildMap(f), Normalise(f);
    if m != map[] {
      BuiltMapIsGood(f);
      MappedFrameTidy(m, f);
      OriginalsKept(f);
      var m' := BuildMap(f');
      forall t | t in Strings(f') ensures t !in m' {
        NoVariantLeft(f, t);
        KeysAreNoOriginals(f');
        KeyHasOriginal(f', t);
      }
      BuiltMapIsGood(f');
      GoodKeys(m');
      FrameFixed(m', f');
    }
  }

  lemma KeyHasOriginal(f: Frame, t: Text)
    requires IsFrame(f)
    ensures t in BuildMap(f) ==> OriginalOf(t, Originals(f)).Some?
  {
  }

  lemma GoodKeys(m: RidMap)
    requires GoodMap(m)
    ensures forall k :: k in m ==> IsRid(k)
  {
  }
}
