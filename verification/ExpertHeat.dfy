/** Expert heat: cumulative snapshots to differences, routing to a map, heat of slots to heat of experts
    (processor/processor_eplb_observe.py, exporters/exporter_eplb_observe.py). */
module ExpertHeat {
  import opened Basics

  /** A snapshot of one rank holds a number for every layer and expert of the rank; a row of the array is an iteration, and a
      column is a layer and an expert. */
  type Row = seq<int>

  // ------------------------------------------------------------ differences

  /** The rows of an array. */
  ghost function RowOf(a: array2<int>, i: nat): (r: Row)
    requires i < a.Length0
    reads a
    ensures |r| == a.Length1 && forall j :: 0 <= j < |r| ==> r[j] == a[i, j]
  {
    seq(a.Length1, j requires 0 <= j < a.Length1 reads a => a[i, j])
  }

  /** split_expert_hot: each snapshot becomes what was added since the one before. */
  method SplitExpertHot(a: array2<int>)
    modifies a
    ensures forall i, j :: 0 <= i < a.Length0 && 0 <= j < a.Length1 ==>
              a[i, j] == old(a[i, j]) - if i == 0 then 0 else old(a[i - 1, j])
  {
    if a.Length0 <= 1 {
      return;
    }
    var copy := new int[a.Length0, a.Length1]((i, j) requires 0 <= i < a.Length0 && 0 <= j < a.Length1 reads a => a[i, j]);
    for i := 1 to a.Length0
      invariant forall x, j :: 0 <= x < a.Length0 && 0 <= j < a.Length1 ==> copy[x, j] == old(a[x, j])
      invariant forall x, j :: 0 <= x < a.Length0 && 0 <= j < a.Length1 ==>
                  a[x, j] == old(a[x, j]) - if 0 < x < i then old(a[x - 1, j]) else 0
    {
      for j := 0 to a.Length1
        invariant forall x, y :: 0 <= x < a.Length0 && 0 <= y < a.Length1 ==> copy[x, y] == old(a[x, y])
        invariant forall x, y :: 0 <= x < a.Length0 && 0 <= y < a.Length1 ==>
                    a[x, y] == old(a[x, y]) - if 0 < x < i || (x == i && y < j) then old(a[x - 1, y]) else 0
      {
        a[i, j] := a[i, j] - copy[i - 1, j];
      }
    }
  }

  /** The same on values: one column of snapshots. */
  ghost function Differences(column: seq<int>): (d: seq<int>)
    ensures |d| == |column| && forall i :: 0 <= i < |d| ==> d[i] == column[i] - if i == 0 then 0 else column[i - 1]
  {
    seq(|column|, i requires 0 <= i < |column| => column[i] - if i == 0 then 0 else column[i - 1])
  }

  ghost function SumOf(xs: seq<int>): int {
    if xs == [] then 0 else SumOf(xs[..|xs| - 1]) + xs[|xs| - 1]
  }

  /** Summing the differences of the first n snapshots gives the last of them. */
  lemma {:induction false} DifferencesSumToLast(column: seq<int>, n: nat)
    requires 0 < n <= |column|
    ensures SumOf(Differences(column)[..n]) == column[n - 1]
  {
    var d := Differences(column)[..n];
    if n == 1 {
      assert d[..0] == [];
    } else {
      DifferencesSumToLast(column, n - 1);
      assert d[..n - 1] == Differences(column)[..n - 1];
    }
  }

  // ------------------------------------------------------------ the common iterations

  function MinLen(lens: seq<nat>): (m: nat)
    requires lens != []
    ensures m in lens && forall i :: 0 <= i < |lens| ==> m <= lens[i]
  {
    if |lens| == 1 then lens[0]
    else
      var m, last := MinLen(lens[..|lens| - 1]), lens[|lens| - 1];
      if last < m then last else m
  }

  function LensOf<T>(ranks: seq<seq<T>>): (lens: seq<nat>)
    ensures |lens| == |ranks| && forall i :: 0 <= i < |lens| ==> lens[i] == |ranks[i]|
  {
    if ranks == [] then [] else LensOf(ranks[..|ranks| - 1]) + [|ranks[|ranks| - 1]|]
  }

  /** cut2samelen: every rank keeps its first iterations, as many as the shortest has; none at all is an error. */
  method CutToSameLen<T>(ranks: seq<seq<T>>) returns (r: Option<seq<seq<T>>>)
    requires ranks != []
    ensures var n := MinLen(LensOf(ranks));
            && (r.None? <==> n == 0)
            && (r.Some? ==> |r.value| == |ranks| && forall i :: 0 <= i < |ranks| ==> n <= |ranks[i]| && r.value[i] == ranks[i][..n])
  {
    var minLen := MinLen(LensOf(ranks));
    if minLen == 0 {
      return None;
    }
    var cut := [];
    for i := 0 to |ranks|
      invariant |cut| == i && forall k :: 0 <= k < i ==> minLen <= |ranks[k]| && cut[k] == ranks[k][..minLen]
    {
      assert LensOf(ranks)[i] == |ranks[i]|;
      cut := cut + [ranks[i][..minLen]];
    }
    return Some(cut);
  }

  /** A column of one rank. */
  ghost function ColumnOf(snapshots: seq<Row>, j: nat): (c: seq<int>)
    requires forall i :: 0 <= i < |snapshots| ==> j < |snapshots[i]|
    ensures |c| == |snapshots| && forall i :: 0 <= i < |c| ==> c[i] == snapshots[i][j]
  {
    seq(|snapshots|, i requires 0 <= i < |snapshots| => snapshots[i][j])
  }

  ghost predicate Shaped(ranks: seq<seq<Row>>, width: nat) {
    forall k, i :: 0 <= k < |ranks| && 0 <= i < |ranks[k]| ==> |ranks[k][i]| == width
  }

  /** The rank's columns after splitting: the differences of its cumulative columns. */
  ghost predicate SplitOf(cumulative: seq<Row>, split: seq<Row>, width: nat) {
    && |split| == |cumulative| && (forall i :: 0 <= i < |split| ==> |split[i]| == |cumulative[i]| == width)
    && forall i, j :: 0 <= i < |split| && 0 <= j < width ==>
         split[i][j] == cumulative[i][j] - if i == 0 then 0 else cumulative[i - 1][j]
  }

  /** After splitting, cutting to the first n iterations and summing over them, every slot has its n-th cumulative number. */
  lemma SlotConserved(cumulative: seq<Row>, split: seq<Row>, width: nat, n: nat, j: nat)
    requires SplitOf(cumulative, split, width) && j < width && 0 < n <= |cumulative|
    ensures SumOf(ColumnOf(split[..n], j)) == cumulative[n - 1][j]
  {
    var column := ColumnOf(cumulative, j);
    assert ColumnOf(split[..n], j) == Differences(column)[..n] by {
      forall i | 0 <= i < n ensures ColumnOf(split[..n], j)[i] == Differences(column)[i] {
        assert split[..n][i] == split[i];
      }
    }
    DifferencesSumToLast(column, n);
  }

  // ------------------------------------------------------------ the sum over the iterations

  /** The sums of layer l over the iterations of one rank, for its first n experts. */
  ghost function RankPart(rank: seq<Row>, width: nat, l: nat, perRank: nat, n: nat): (r: Row)
    requires (forall i :: 0 <= i < |rank| ==> |rank[i]| == width) && n <= perRank && l * perRank + perRank <= width
    ensures |r| == n && forall e :: 0 <= e < n ==> r[e] == SumOf(ColumnOf(rank, l * perRank + e))
  {
    seq(n, e requires 0 <= e < n => SumOf(ColumnOf(rank, l * perRank + e)))
  }

  /** One layer of the summed heat: rank by rank, and within a rank expert by expert. */
  ghost function SummedLayer(ranks: seq<seq<Row>>, width: nat, l: nat, perRank: nat): (r: Row)
    requires Shaped(ranks, width) && l * perRank + perRank <= width
    ensures |r| == |ranks| * perRank
  {
    if ranks == [] then []
    else
      var front, last := ranks[..|ranks| - 1], ranks[|ranks| - 1];
      assert |ranks| * perRank == (|ranks| - 1) * perRank + perRank;
      SummedLayer(front, width, l, perRank) + RankPart(last, width, l, perRank, perRank)
  }

  lemma {:induction false} SummedSlot(ranks: seq<seq<Row>>, width: nat, l: nat, perRank: nat, k: nat, e: nat)
    requires Shaped(ranks, width) && l * perRank + perRank <= width && k < |ranks| && e < perRank
    ensures k * perRank + e < |ranks| * perRank
    ensures SummedLayer(ranks, width, l, perRank)[k * perRank + e] == SumOf(ColumnOf(ranks[k], l * perRank + e))
  {
    var front := ranks[..|ranks| - 1];
    assert |ranks| * perRank == |front| * perRank + perRank;
    if k < |front| {
      SummedSlot(front, width, l, perRank, k, e);
    }
  }

  // ------------------------------------------------------------ transpose and reshape

  type Cube = seq<seq<Row>>

  ghost predicate HasShape(c: Cube, a: nat, b: nat, d: nat) {
    && |c| == a
    && (forall i :: 0 <= i < a ==> |c[i]| == b)
    && forall i, j :: 0 <= i < a && 0 <= j < b ==> |c[i][j]| == d
  }

  /** Element e of block k, in blocks of the given size. */
  function Place(k: nat, size: nat, e: nat): nat {
    k * size + e
  }

  lemma PlaceBelow(k: nat, blocks: nat, size: nat, e: nat)
    requires k < blocks && e < size
    ensures Place(k, size, e) < blocks * size
    ensures k * size + size <= blocks * size
  {
    var more := blocks - k - 1;
    assert blocks * size == k * size + size + more * size;
    assert more * size >= 0;
  }

  lemma OneBlock(blocks: nat, size: nat)
    requires blocks > 0
    ensures blocks * size == (blocks - 1) * size + size
  {
  }

  /** One number of the sum over the iterations. */
  ghost function SumAt(rank: seq<Row>, j: nat): int {
    if forall i :: 0 <= i < |rank| ==> j < |rank[i]| then SumOf(ColumnOf(rank, j)) else 0
  }

  /** Summing over the iterations: rank by layer by expert. */
  ghost function Summed(ranks: seq<seq<Row>>, layers: nat, perRank: nat): (c: Cube)
    ensures HasShape(c, |ranks|, layers, perRank)
    ensures forall k, l, e :: 0 <= k < |ranks| && 0 <= l < layers && 0 <= e < perRank ==>
              c[k][l][e] == SumAt(ranks[k], Place(l, perRank, e))
  {
    seq(|ranks|, k requires 0 <= k < |ranks| =>
      seq(layers, l requires 0 <= l < layers =>
        seq(perRank, e requires 0 <= e < perRank => SumAt(ranks[k], Place(l, perRank, e)))))
  }

  /** transpose([0, 2, 1]) */
  ghost function SwapInner(c: Cube, a: nat, b: nat, d: nat): (r: Cube)
    requires HasShape(c, a, b, d)
    ensures HasShape(r, a, d, b)
    ensures forall i, j, k :: 0 <= i < a && 0 <= j < d && 0 <= k < b ==> r[i][j][k] == c[i][k][j]
  {
    seq(a, i requires 0 <= i < a => seq(d, j requires 0 <= j < d => seq(b, k requires 0 <= k < b => c[i][k][j])))
  }

  ghost predicate AllWide(rows: seq<Row>, width: nat) {
    forall i :: 0 <= i < |rows| ==> |rows[i]| == width
  }

  ghost function RowsOf(c: Cube): seq<Row> {
    if c == [] then [] else RowsOf(c[..|c| - 1]) + c[|c| - 1]
  }

  /** The elements in memory order. */
  ghost function Flat(rows: seq<Row>): Row {
    if rows == [] then [] else Flat(rows[..|rows| - 1]) + rows[|rows| - 1]
  }

  /** reshape(-1, width), which makes n rows. */
  ghost function Reshape(flat: Row, n: nat, width: nat): (rows: seq<Row>)
    requires |flat| == n * width
    ensures |rows| == n && AllWide(rows, width)
  {
    if n == 0 then []
    else
      OneBlock(n, width);
      Reshape(flat[..|flat| - width], n - 1, width) + [flat[|flat| - width..]]
  }

  /** transpose([1, 0]) */
  ghost function Transposed(rows: seq<Row>, width: nat): (r: seq<Row>)
    requires AllWide(rows, width)
    ensures |r| == width && AllWide(r, |rows|)
    ensures forall i, j :: 0 <= i < |rows| && 0 <= j < width ==> r[j][i] == rows[i][j]
  {
    seq(width, j requires 0 <= j < width => seq(|rows|, i requires 0 <= i < |rows| => rows[i][j]))
  }

  /** Reshaping to the old width gives the rows back. */
  lemma {:induction false} ReshapeFlat(rows: seq<Row>, width: nat)
    requires AllWide(rows, width)
    ensures |Flat(rows)| == |rows| * width && Reshape(Flat(rows), |rows|, width) == rows
  {
    if rows != [] {
      var front, last := rows[..|rows| - 1], rows[|rows| - 1];
      ReshapeFlat(front, width);
      OneBlock(|rows|, width);
      assert Flat(rows)[..|Flat(rows)| - width] == Flat(front) && Flat(rows)[|Flat(rows)| - width..] == last;
      assert rows == front + [last];
    }
  }

  lemma {:induction false} RowsAt(c: Cube, a: nat, b: nat, d: nat)
    requires HasShape(c, a, b, d)
    ensures |RowsOf(c)| == a * b && AllWide(RowsOf(c), d)
    ensures forall k, e :: 0 <= k < a && 0 <= e < b ==> Place(k, b, e) < a * b && RowsOf(c)[Place(k, b, e)] == c[k][e]
  {
    if c != [] {
      var front := c[..a - 1];
      RowsAt(front, a - 1, b, d);
      OneBlock(a, b);
      forall k, e | 0 <= k < a && 0 <= e < b ensures Place(k, b, e) < a * b && RowsOf(c)[Place(k, b, e)] == c[k][e] {
        if k < a - 1 {
          PlaceBelow(k, a - 1, b, e);
          assert front[k] == c[k];
        }
      }
    }
  }

  /** The program's sum, transpose, reshape and transpose. */
  ghost function SummedHeat(ranks: seq<seq<Row>>, layers: nat, perRank: nat): seq<Row> {
    var c := SwapInner(Summed(ranks, layers, perRank), |ranks|, layers, perRank);
    RowsAt(c, |ranks|, perRank, layers);
    ReshapeFlat(RowsOf(c), layers);
    Transposed(Reshape(Flat(RowsOf(c)), |ranks| * perRank, layers), layers)
  }

  /** They give the layers with their slots rank by rank. */
  lemma SummedHeatIs(ranks: seq<seq<Row>>, layers: nat, perRank: nat, l: nat)
    requires Shaped(ranks, layers * perRank) && l < layers
    ensures |SummedHeat(ranks, layers, perRank)| == layers && l * perRank + perRank <= layers * perRank
    ensures SummedHeat(ranks, layers, perRank)[l] == SummedLayer(ranks, layers * perRank, l, perRank)
  {
    hide SummedLayer, SumOf, RowsOf, Flat, Reshape, SumAt, Place;
    LayersFit(l, layers, perRank);
    var c := SwapInner(Summed(ranks, layers, perRank), |ranks|, layers, perRank);
    RowsAt(c, |ranks|, perRank, layers);
    ReshapeFlat(RowsOf(c), layers);
    var heat, layer := SummedHeat(ranks, layers, perRank)[l], SummedLayer(ranks, layers * perRank, l, perRank);
    forall s | 0 <= s < |layer| ensures heat[s] == layer[s] {
      var k, e := SlotOf(|ranks|, perRank, s);
      SumIsLayer(ranks, layers, perRank, l, k, e);
      assert RowsOf(c)[Place(k, perRank, e)] == c[k][e];
    }
  }

  lemma SumIsLayer(ranks: seq<seq<Row>>, layers: nat, perRank: nat, l: nat, k: nat, e: nat)
    requires Shaped(ranks, layers * perRank) && l < layers && k < |ranks| && e < perRank
    requires l * perRank + perRank <= layers * perRank
    ensures Place(k, perRank, e) < |ranks| * perRank
    ensures SummedLayer(ranks, layers * perRank, l, perRank)[Place(k, perRank, e)] == SumAt(ranks[k], Place(l, perRank, e))
  {
    hide SummedLayer, SumOf;
    PlaceBelow(k, |ranks|, perRank, e);
    SummedSlot(ranks, layers * perRank, l, perRank, k, e);
  }

  lemma LayersFit(l: nat, layers: nat, perRank: nat)
    requires l < layers
    ensures l * perRank + perRank <= layers * perRank
  {
    if perRank > 0 {
      PlaceBelow(l, layers, perRank, 0);
    }
  }

  lemma SlotOf(ranks: nat, perRank: nat, s: nat) returns (k: nat, e: nat)
    requires s < ranks * perRank
    ensures k < ranks && e < perRank && s == Place(k, perRank, e)
  {
    k, e := s / perRank, s % perRank;
    var over := k - ranks;
    assert k * perRank == ranks * perRank + over * perRank;
    assert over >= 0 ==> over * perRank >= 0;
  }

  // ------------------------------------------------------------ the expert map

  const UNFILLED := -1

  /** What writing the routing of one layer leaves in that layer of the map: experts are written in order. */
  function Routed(row: Row, routing: seq<nat>): (r: Row)
    requires forall e :: 0 <= e < |routing| ==> routing[e] < |row|
    ensures |r| == |row|
  {
    if routing == [] then row
    else
      var last := |routing| - 1;
      Routed(row, routing[..last])[routing[last] := last]
  }

  /** update_expert_map, for one map and its routing. */
  method UpdateExpertMap(m: array2<int>, routing: seq<seq<nat>>)
    requires |routing| <= m.Length0
    requires forall l, e :: 0 <= l < |routing| && 0 <= e < |routing[l]| ==> routing[l][e] < m.Length1
    modifies m
    ensures forall l :: 0 <= l < |routing| ==> RowOf(m, l) == Routed(old(RowOf(m, l)), routing[l])
    ensures forall l :: |routing| <= l < m.Length0 ==> RowOf(m, l) == old(RowOf(m, l))
  {
    hide Routed;
    for l := 0 to |routing|
      invariant forall x :: 0 <= x < l ==> RowOf(m, x) == Routed(old(RowOf(m, x)), routing[x])
      invariant forall x :: l <= x < m.Length0 ==> RowOf(m, x) == old(RowOf(m, x))
    {
      WriteLayer(m, l, routing[l]);
    }
  }

  method WriteLayer(m: array2<int>, l: nat, routing: seq<nat>)
    requires l < m.Length0 && forall e :: 0 <= e < |routing| ==> routing[e] < m.Length1
    modifies m
    ensures RowOf(m, l) == Routed(old(RowOf(m, l)), routing)
    ensures forall x :: 0 <= x < m.Length0 && x != l ==> RowOf(m, x) == old(RowOf(m, x))
  {
    assert routing[..0] == [];
    for e := 0 to |routing|
      invariant RowOf(m, l) == Routed(old(RowOf(m, l)), routing[..e])
      invariant forall x, j :: 0 <= x < m.Length0 && x != l && 0 <= j < m.Length1 ==> m[x, j] == old(m[x, j])
    {
      assert routing[..e + 1][..e] == routing[..e];
      ghost var row := RowOf(m, l);
      m[l, routing[e]] := e;
      assert RowOf(m, l) == row[routing[e] := e];
    }
    assert routing[..|routing|] == routing;
  }

  ghost predicate Injective(routing: seq<nat>) {
    forall d, e :: 0 <= d < e < |routing| ==> routing[d] != routing[e]
  }

  /** With different slots the map inverts the routing and leaves the other slots alone. */
  lemma {:induction false} RoutedInverts(row: Row, routing: seq<nat>)
    requires (forall e :: 0 <= e < |routing| ==> routing[e] < |row|) && Injective(routing)
    ensures forall e :: 0 <= e < |routing| ==> Routed(row, routing)[routing[e]] == e
    ensures forall s :: 0 <= s < |row| && s !in routing ==> Routed(row, routing)[s] == row[s]
  {
    if routing != [] {
      var last := |routing| - 1;
      RoutedInverts(row, routing[..last]);
      assert routing == routing[..last] + [routing[last]];
    }
  }

  // ------------------------------------------------------------ remapping

  /** The column of an expert; numpy reads index -1 as the last column. */
  function ColumnFor(e: int, width: nat): int {
    if e < 0 then e + width else e
  }

  /** The heat that arrives in column c from the first n slots. */
  function HeatOf(map': Row, heat: Row, c: int, width: nat, n: nat): int
    requires n <= |map'| == |heat|
  {
    if n == 0 then 0
    else HeatOf(map', heat, c, width, n - 1) + if ColumnFor(map'[n - 1], width) == c then heat[n - 1] else 0
  }

  function MaxOf(rows: seq<Row>): (m: int)
    requires rows != [] && forall i :: 0 <= i < |rows| ==> rows[i] != []
    ensures forall i, j :: 0 <= i < |rows| && 0 <= j < |rows[i]| ==> rows[i][j] <= m
    ensures exists i, j :: 0 <= i < |rows| && 0 <= j < |rows[i]| && rows[i][j] == m
  {
    var last := MaxRow(rows[|rows| - 1]);
    if |rows| == 1 then last
    else
      var m := MaxOf(rows[..|rows| - 1]);
      if m < last then last else m
  }

  function MaxRow(row: Row): (m: int)
    requires row != []
    ensures m in row && forall j :: 0 <= j < |row| ==> row[j] <= m
  {
    if |row| == 1 then row[0]
    else
      var m, last := MaxRow(row[..|row| - 1]), row[|row| - 1];
      if m < last then last else m
  }

  ghost predicate Rectangle(rows: seq<Row>, width: nat) {
    forall i :: 0 <= i < |rows| ==> |rows[i]| == width
  }

  /** The entries of a map that update_expert_map can make: experts, or -1 for a slot that was never written. */
  ghost predicate MapEntries(rows: seq<Row>) {
    forall i, j :: 0 <= i < |rows| && 0 <= j < |rows[i]| ==> rows[i][j] >= UNFILLED
  }

  /** remap_expert_hot.  Different shapes are an error, and so is a map in which nothing was written. */
  method Remap(map': seq<Row>, heat: seq<Row>, slots: nat) returns (r: Option<array2<int>>)
    requires map' != [] && slots > 0 && Rectangle(map', slots) && MapEntries(map')
    ensures r.Some? ==> |map'| == |heat| && Rectangle(heat, slots) && fresh(r.value)
    ensures r.None? <==> MaxOf(map') == UNFILLED || |map'| != |heat| || !Rectangle(heat, slots)
    ensures r.Some? ==> r.value.Length0 == |map'| && r.value.Length1 == MaxOf(map') + 1
    ensures r.Some? ==> forall l, c :: 0 <= l < |map'| && 0 <= c < r.value.Length1 ==>
                          r.value[l, c] == HeatOf(map'[l], heat[l], c, r.value.Length1, slots)
  {
    hide HeatOf;
    var width := MaxOf(map') + 1;
    if width == 0 || |map'| != |heat| || !(forall i :: 0 <= i < |heat| ==> |heat[i]| == slots) {
      return None;
    }
    var remapped := new int[|map'|, width]((_, _) => 0);
    for l := 0 to |map'|
      invariant forall x, c :: 0 <= x < l && 0 <= c < width ==> remapped[x, c] == HeatOf(map'[x], heat[x], c, width, slots)
      invariant forall x, c :: l <= x < |map'| && 0 <= c < width ==> remapped[x, c] == 0
    {
      AddLayer(remapped, l, map'[l], heat[l], width);
    }
    return Some(remapped);
  }

  method AddLayer(remapped: array2<int>, l: nat, map': Row, heat: Row, width: nat)
    requires l < remapped.Length0 && remapped.Length1 == width > 0 && |map'| == |heat|
    requires forall j :: 0 <= j < |map'| ==> UNFILLED <= map'[j] < width
    requires forall c :: 0 <= c < width ==> remapped[l, c] == 0
    modifies remapped
    ensures forall c :: 0 <= c < width ==> remapped[l, c] == HeatOf(map', heat, c, width, |map'|)
    ensures forall x, c :: 0 <= x < remapped.Length0 && x != l && 0 <= c < width ==> remapped[x, c] == old(remapped[x, c])
  {
    for j := 0 to |map'|
      invariant forall c :: 0 <= c < width ==> remapped[l, c] == HeatOf(map', heat, c, width, j)
      invariant forall x, c :: 0 <= x < remapped.Length0 && x != l && 0 <= c < width ==> remapped[x, c] == old(remapped[x, c])
    {
      var c := ColumnFor(map'[j], width);
      remapped[l, c] := remapped[l, c] + heat[j];
    }
  }

  // ------------------------------------------------------------ what remapping keeps

  /** The sum of columns 0 to n - 1. */
  ghost function ColumnsSum(map': Row, heat: Row, width: nat, slots: nat, n: nat): int
    requires slots <= |map'| == |heat| && n <= width
  {
    if n == 0 then 0 else ColumnsSum(map', heat, width, slots, n - 1) + HeatOf(map', heat, n - 1, width, slots)
  }

  lemma {:induction false} OneMoreSlot(map': Row, heat: Row, width: nat, slots: nat, n: nat)
    requires 0 < slots <= |map'| == |heat| && n <= width
    ensures ColumnsSum(map', heat, width, slots, n) == ColumnsSum(map', heat, width, slots - 1, n)
              + if 0 <= ColumnFor(map'[slots - 1], width) < n then heat[slots - 1] else 0
  {
    if n > 0 {
      OneMoreSlot(map', heat, width, slots, n - 1);
    }
  }

  lemma {:induction false} NoSlots(map': Row, heat: Row, width: nat, n: nat)
    requires |map'| == |heat| && n <= width
    ensures ColumnsSum(map', heat, width, 0, n) == 0
  {
    if n > 0 {
      NoSlots(map', heat, width, n - 1);
    }
  }

  /** No layer gains or loses heat, filled map or not. */
  lemma {:induction false} LayerTotalKept(map': Row, heat: Row, width: nat, slots: nat)
    requires slots <= |map'| == |heat| && width > 0 && forall j :: 0 <= j < |map'| ==> UNFILLED <= map'[j] < width
    ensures ColumnsSum(map', heat, width, slots, width) == SumOf(heat[..slots])
  {
    if slots == 0 {
      NoSlots(map', heat, width, width);
      assert heat[..0] == [];
    } else {
      LayerTotalKept(map', heat, width, slots - 1);
      OneMoreSlot(map', heat, width, slots, width);
      assert heat[..slots][..slots - 1] == heat[..slots - 1];
    }
  }

  /** The heat of the slots that were never written. */
  ghost function Stray(map': Row, heat: Row, n: nat): int
    requires n <= |map'| == |heat|
  {
    if n == 0 then 0 else Stray(map', heat, n - 1) + if map'[n - 1] == UNFILLED then heat[n - 1] else 0
  }

  /** The heat that belongs to an expert. */
  ghost function Own(map': Row, heat: Row, e: nat, n: nat): int
    requires n <= |map'| == |heat|
  {
    if n == 0 then 0 else Own(map', heat, e, n - 1) + if map'[n - 1] == e then heat[n - 1] else 0
  }

  /** The last expert is given the heat of the slots that were never written, so all experts get their own heat exactly when
      these slots have none. */
  lemma {:induction false} StrayHeat(map': Row, heat: Row, e: nat, width: nat, n: nat)
    requires n <= |map'| == |heat| && e < width && forall j :: 0 <= j < |map'| ==> UNFILLED <= map'[j] < width
    ensures HeatOf(map', heat, e, width, n) == Own(map', heat, e, n) + if e == width - 1 then Stray(map', heat, n) else 0
  {
    if n > 0 {
      StrayHeat(map', heat, e, width, n - 1);
    }
  }

  lemma ExactHeatExactlyWhen(map': Row, heat: Row, width: nat)
    requires |map'| == |heat| && width > 0 && forall j :: 0 <= j < |map'| ==> UNFILLED <= map'[j] < width
    ensures (forall e: nat :: e < width ==> HeatOf(map', heat, e, width, |map'|) == Own(map', heat, e, |map'|)) <==>
            Stray(map', heat, |map'|) == 0
  {
    hide HeatOf, Own, Stray;
    forall e: nat | e < width
      ensures HeatOf(map', heat, e, width, |map'|) ==
              Own(map', heat, e, |map'|) + if e == width - 1 then Stray(map', heat, |map'|) else 0 {
      StrayHeat(map', heat, e, width, |map'|);
    }
    if Stray(map', heat, |map'|) != 0 {
      assert HeatOf(map', heat, width - 1, width, |map'|) != Own(map', heat, width - 1, |map'|);
    }
  }

  lemma {:induction false} OwnOfOne(map': Row, heat: Row, e: nat, s: nat, n: nat)
    requires s < |map'| == |heat| && n <= |map'| && map'[s] == e
    requires forall j :: 0 <= j < |map'| && j != s ==> map'[j] != e
    ensures Own(map', heat, e, n) == if s < n then heat[s] else 0
  {
    if n > 0 {
      OwnOfOne(map', heat, e, s, n - 1);
    }
  }

  lemma {:induction false} NoStray(map': Row, heat: Row, n: nat)
    requires n <= |map'| == |heat| && forall j :: 0 <= j < |map'| ==> map'[j] != UNFILLED
    ensures Stray(map', heat, n) == 0
  {
    if n > 0 {
      NoStray(map', heat, n - 1);
    }
  }

  /** With a bijective routing each expert gets the heat of the slot it is routed to. */
  lemma BijectiveRouting(empty: Row, routing: seq<nat>, heat: Row, e: nat)
    requires |empty| == |routing| == |heat| && e < |routing|
    requires (forall x :: 0 <= x < |routing| ==> routing[x] < |routing|) && Injective(routing)
    ensures HeatOf(Routed(empty, routing), heat, e, |routing|, |routing|) == heat[routing[e]]
  {
    hide Routed, HeatOf, Own, Stray;
    var row := Routed(empty, routing);
    RoutedInverts(empty, routing);
    Pigeonhole(routing);
    forall s | 0 <= s < |row| ensures 0 <= row[s] < |routing| && routing[row[s]] == s {
      assert s in routing;
      var x :| 0 <= x < |routing| && routing[x] == s;
    }
    StrayHeat(row, heat, e, |routing|, |routing|);
    NoStray(row, heat, |routing|);
    OwnOfOne(row, heat, e, routing[e], |routing|);
  }

  /** From cumulative snapshots to the heat of a model expert: with n common iterations and a bijective routing of the layer, the
      expert that is routed to expert x of rank k has the n-th cumulative number of that slot. */
  lemma ExpertGetsItsHeat(cumulative: seq<seq<Row>>, split: seq<seq<Row>>, cut: seq<seq<Row>>, layers: nat, l: nat, perRank: nat,
                          n: nat, empty: Row, routing: seq<nat>, e: nat, k: nat, x: nat)
    requires |cumulative| == |split| == |cut| && k < |cut| && x < perRank && l < layers
    requires forall i :: 0 <= i < |cut| ==>
               SplitOf(cumulative[i], split[i], layers * perRank) && 0 < n <= |split[i]| && cut[i] == split[i][..n]
    requires |empty| == |routing| == |cut| * perRank && e < |routing| && routing[e] == k * perRank + x
    requires (forall i :: 0 <= i < |routing| ==> routing[i] < |routing|) && Injective(routing)
    ensures |SummedHeat(cut, layers, perRank)| == layers && |SummedHeat(cut, layers, perRank)[l]| == |routing|
    ensures |cumulative[k]| >= n && |cumulative[k][n - 1]| == layers * perRank && l * perRank + x < layers * perRank
    ensures HeatOf(Routed(empty, routing), SummedHeat(cut, layers, perRank)[l], e, |routing|, |routing|) ==
            cumulative[k][n - 1][l * perRank + x]
  {
    hide SummedLayer, SummedHeat, Routed, HeatOf, Injective, SplitOf, Shaped;
    LayersFit(l, layers, perRank);
    CutShaped(cumulative, split, cut, layers * perRank, n);
    SummedHeatIs(cut, layers, perRank, l);
    BijectiveRouting(empty, routing, SummedLayer(cut, layers * perRank, l, perRank), e);
    SlotHeat(cumulative, split, cut, layers * perRank, l, perRank, n, k, x);
  }

  lemma CutShaped(cumulative: seq<seq<Row>>, split: seq<seq<Row>>, cut: seq<seq<Row>>, width: nat, n: nat)
    requires |cumulative| == |split| == |cut|
    requires forall i :: 0 <= i < |cut| ==> SplitOf(cumulative[i], split[i], width) && n <= |split[i]| && cut[i] == split[i][..n]
    ensures Shaped(cut, width)
  {
    forall i, j | 0 <= i < |cut| && 0 <= j < |cut[i]| ensures |cut[i][j]| == width {
      assert SplitOf(cumulative[i], split[i], width);
      assert cut[i][j] == split[i][j];
    }
  }

  /** A slot of the summed layer holds the last common cumulative number. */
  lemma SlotHeat(cumulative: seq<seq<Row>>, split: seq<seq<Row>>, cut: seq<seq<Row>>, width: nat, l: nat, perRank: nat, n: nat,
                 k: nat, x: nat)
    requires |cumulative| == |split| == |cut| && k < |cut| && x < perRank && Shaped(cut, width) && l * perRank + perRank <= width
    requires SplitOf(cumulative[k], split[k], width) && 0 < n <= |split[k]| && cut[k] == split[k][..n]
    ensures n <= |cumulative[k]| && |cumulative[k][n - 1]| == width && k * perRank + x < |cut| * perRank
    ensures SummedLayer(cut, width, l, perRank)[k * perRank + x] == cumulative[k][n - 1][l * perRank + x]
  {
    hide SummedLayer, SumOf;
    SummedSlot(cut, width, l, perRank, k, x);
    SlotConserved(cumulative[k], split[k], width, n, l * perRank + x);
  }
}
