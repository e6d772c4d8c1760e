module Collectives {
  /**
   The deque of partly filled rows behind gather, all_gather and the finish
   barrier (task_manager.py, fill_gater_data).  Every contribution of a process
   goes to the first row in which the process's own column is still unfilled.
   */

  import opened Basics

  datatype Cell<+D> = Unfilled | Filled(d: D)

  type Row<+D> = seq<Cell<D>>

  /** `BadIndex` is Python's IndexError or TypeError on `list_item[task_index]`. */
  datatype FillResult<+D> =
    | BadIndex
    | Kept(deque: seq<Row<D>>)
    | Returned(deque: seq<Row<D>>, row: seq<D>)

  predicate AllFilled<D>(row: Row<D>) {
    forall j :: 0 <= j < |row| ==> row[j].Filled?
  }

  function Values<D>(row: Row<D>): (ds: seq<D>)
    requires AllFilled(row)
    ensures |ds| == |row| && forall j :: 0 <= j < |row| ==> row[j] == Filled(ds[j])
  {
    seq(|row|, j requires 0 <= j < |row| => row[j].d)
  }

  /** The index of the first row, from `k` on, whose cell `idx` is unfilled; |deque| if there is none;
      None when a row on the way cannot be indexed. */
  function FirstOpen<D>(deque: seq<Row<D>>, idx: Option<nat>, k: nat): (r: Option<nat>)
    requires k <= |deque|
    ensures r.Some? ==> k <= r.value <= |deque|
    ensures r.Some? && r.value < |deque| ==>
              idx.Some? && idx.value < |deque[r.value]| && deque[r.value][idx.value].Unfilled?
    decreases |deque| - k
  {
    if k == |deque| then Some(k)
    else if idx.None? || idx.value >= |deque[k]| then None
    else if deque[k][idx.value].Unfilled? then Some(k)
    else FirstOpen(deque, idx, k + 1)
  }

  /** The search stops at the first row it can fill or cannot index; it passes only rows in which the cell is filled. */
  lemma {:induction false} FirstOpenIsFirst<D>(deque: seq<Row<D>>, idx: Option<nat>, k: nat) returns (at: nat)
    requires k <= |deque|
    ensures k <= at <= |deque|
    ensures forall i :: k <= i < at ==> idx.Some? && idx.value < |deque[i]| && deque[i][idx.value].Filled?
    ensures FirstOpen(deque, idx, k) == if at < |deque| && (idx.None? || idx.value >= |deque[at]|) then None else Some(at)
    ensures at < |deque| && idx.Some? && idx.value < |deque[at]| ==> deque[at][idx.value].Unfilled?
    decreases |deque| - k
  {
    at := k;
    if k < |deque| && idx.Some? && idx.value < |deque[k]| && deque[k][idx.value].Filled? {
      at := FirstOpenIsFirst(deque, idx, k + 1);
    }
  }

  /** What one call of fill_gater_data does to the deque of a task with `n` processes. */
  function Fill<D>(n: nat, deque: seq<Row<D>>, idx: Option<nat>, d: D): FillResult<D>
  {
    var open := FirstOpen(deque, idx, 0);
    if open.None? then BadIndex
    else if open.value < |deque| then
      var row := deque[open.value][idx.value := Filled(d)];
      var filled := deque[open.value := row];
      if open.value == 0 && AllFilled(row) then Returned(filled[1..], Values(row)) else Kept(filled)
    else if n == 1 then Returned(deque, [d])
    else if idx.None? || idx.value >= n then BadIndex
    else Kept(deque + [seq(n, _ => Unfilled)[idx.value := Filled(d)]])
  }

  // ---------------------------------------------------------------- streams

  /** Column j's stream is everything process j has contributed so far. */
  type Streams<D> = seq<seq<D>>

  ghost function MinLen<D>(acc: Streams<D>): (m: nat)
    requires |acc| > 0
    ensures forall j :: 0 <= j < |acc| ==> m <= |acc[j]|
  {
    if |acc| == 1 then |acc[0]|
    else
      var m := MinLen(acc[1..]);
      assert forall j :: 1 <= j < |acc| ==> acc[j] == acc[1..][j - 1];
      if |acc[0]| <= m then |acc[0]| else m
  }

  ghost function MaxLen<D>(acc: Streams<D>): nat
    requires |acc| > 0
  {
    if |acc| == 1 then |acc[0]|
    else
      var m := MaxLen(acc[1..]);
      if |acc[0]| >= m then |acc[0]| else m
  }

  lemma {:induction false} MinLenWitness<D>(acc: Streams<D>) returns (x: nat)
    requires |acc| > 0
    ensures x < |acc| && |acc[x]| == MinLen(acc)
    ensures forall j :: 0 <= j < |acc| ==> MinLen(acc) <= |acc[j]|
  {
    x := 0;
    if |acc| > 1 {
      var y := MinLenWitness(acc[1..]);
      assert forall j :: 1 <= j < |acc| ==> acc[j] == acc[1..][j - 1];
      if |acc[0]| > |acc[1..][y]| {
        x := y + 1;
      }
    }
  }

  lemma {:induction false} MaxLenWitness<D>(acc: Streams<D>) returns (x: nat)
    requires |acc| > 0
    ensures x < |acc| && |acc[x]| == MaxLen(acc)
    ensures forall j :: 0 <= j < |acc| ==> |acc[j]| <= MaxLen(acc)
  {
    x := 0;
    if |acc| > 1 {
      var y := MaxLenWitness(acc[1..]);
      assert forall j :: 1 <= j < |acc| ==> acc[j] == acc[1..][j - 1];
      if |acc[0]| < |acc[1..][y]| {
        x := y + 1;
      }
    }
  }

  /** The vector of k-th contributions. */
  ghost function RowAt<D>(acc: Streams<D>, k: nat): (row: seq<D>)
    requires |acc| > 0 && k < MinLen(acc)
  {
    seq(|acc|, j requires 0 <= j < |acc| => acc[j][k])
  }

  function CellAt<D>(stream: seq<D>, k: nat): Cell<D> {
    if k < |stream| then Filled(stream[k]) else Unfilled
  }

  function PartialRow<D>(acc: Streams<D>, k: nat): (row: Row<D>)
    ensures |row| == |acc| && forall j :: 0 <= j < |acc| ==> row[j] == CellAt(acc[j], k)
  {
    seq(|acc|, j requires 0 <= j < |acc| => CellAt(acc[j], k))
  }

  /** The staircase: the rows not yet complete, oldest first. */
  ghost function Staircase<D>(acc: Streams<D>): seq<Row<D>>
    requires |acc| > 0
  {
    Rows(acc, MinLen(acc), MaxLen(acc))
  }

  ghost function Rows<D>(acc: Streams<D>, from: nat, to: nat): (deque: seq<Row<D>>)
    ensures from <= to ==> |deque| == to - from
    ensures forall k :: 0 <= k < |deque| ==> deque[k] == PartialRow(acc, from + k)
  {
    seq(if from <= to then to - from else 0, k requires 0 <= k => PartialRow(acc, from + k))
  }

  function Push<D>(acc: Streams<D>, j: nat, d: D): (r: Streams<D>)
    requires j < |acc|
    ensures |r| == |acc|
  {
    acc[j := acc[j] + [d]]
  }

  lemma MinLeqMax<D>(acc: Streams<D>)
    requires |acc| > 0
    ensures MinLen(acc) <= MaxLen(acc)
  {
    var x := MinLenWitness(acc);
    var y := MaxLenWitness(acc);
  }

  /** No stored row is full, and each process fills a prefix of the stored rows. */
  lemma StaircaseShape<D>(acc: Streams<D>)
    requires |acc| > 0
    ensures forall k :: 0 <= k < |Staircase(acc)| ==> !AllFilled(Staircase(acc)[k])
    ensures forall k, k', j :: 0 <= k < k' < |Staircase(acc)| && 0 <= j < |acc| && Staircase(acc)[k'][j].Filled? ==>
                               Staircase(acc)[k][j].Filled?
  {
    var m := MinLen(acc);
    var j := MinLenWitness(acc);
    forall k | 0 <= k < |Staircase(acc)| ensures !AllFilled(Staircase(acc)[k]) {
      assert Staircase(acc)[k][j] == CellAt(acc[j], m + k);
    }
  }

  /** In the rows `from..to` of the streams, the first open cell of column j is row |acc[j]|. */
  lemma {:induction false} FirstOpenInRows<D>(acc: Streams<D>, from: nat, to: nat, j: nat, k: nat)
    requires j < |acc| && from + k <= |acc[j]| <= to
    ensures FirstOpen(Rows(acc, from, to), Some(j), k) == Some(|acc[j]| - from)
    decreases |acc[j]| - k
  {
    var dq := Rows(acc, from, to);
    if k < |dq| {
      assert dq[k][j] == CellAt(acc[j], from + k);
      if from + k < |acc[j]| {
        FirstOpenInRows(acc, from, to, j, k + 1);
      }
    }
  }

  lemma MinLenIs<D>(acc: Streams<D>, m: nat, j: nat)
    requires j < |acc| && |acc[j]| == m
    requires forall x :: 0 <= x < |acc| ==> m <= |acc[x]|
    ensures MinLen(acc) == m
  {
    var x := MinLenWitness(acc);
  }

  lemma MaxLenIs<D>(acc: Streams<D>, m: nat, j: nat)
    requires j < |acc| && |acc[j]| == m
    requires forall x :: 0 <= x < |acc| ==> |acc[x]| <= m
    ensures MaxLen(acc) == m
  {
    var x := MaxLenWitness(acc);
  }

  lemma PushMax<D>(acc: Streams<D>, j: nat, d: D)
    requires j < |acc|
    ensures |acc[j]| <= MaxLen(acc)
    ensures MaxLen(Push(acc, j, d)) == if |acc[j]| == MaxLen(acc) then MaxLen(acc) + 1 else MaxLen(acc)
  {
    var acc' := Push(acc, j, d);
    var u := MaxLenWitness(acc);
    if |acc[j]| == MaxLen(acc) {
      MaxLenIs(acc', MaxLen(acc) + 1, j);
    } else {
      MaxLenIs(acc', MaxLen(acc), u);
    }
  }

  /** A contribution completes at most one row, and does so exactly when every process has now contributed to it. */
  lemma PushMin<D>(acc: Streams<D>, j: nat, d: D)
    requires j < |acc|
    ensures MinLen(acc) <= |acc[j]|
    ensures MinLen(Push(acc, j, d)) == MinLen(acc) || MinLen(Push(acc, j, d)) == MinLen(acc) + 1
    ensures MinLen(Push(acc, j, d)) > MinLen(acc) ==> |acc[j]| == MinLen(acc)
    ensures MinLen(Push(acc, j, d)) > MinLen(acc) <==> AllFilled(PartialRow(Push(acc, j, d), MinLen(acc)))
  {
    var acc' := Push(acc, j, d);
    var m := MinLen(acc);
    var w := MinLenWitness(acc);
    var row := PartialRow(acc', m);
    if x :| 0 <= x < |acc| && x != j && |acc[x]| == m {
      MinLenIs(acc', m, x);
      assert !row[x].Filled?;
    } else {
      assert w == j;
      MinLenIs(acc', m + 1, j);
    }
  }

  /** What a contribution of process `j` leads to: a complete row is handed out, an incomplete one kept. */
  ghost function AfterPush<D>(acc: Streams<D>, j: nat, d: D): FillResult<D>
    requires j < |acc|
  {
    var acc' := Push(acc, j, d);
    if MinLen(acc') > MinLen(acc)
    then Returned(Staircase(acc'), RowAt(acc', MinLen(acc)))
    else Kept(Staircase(acc'))
  }

  /** The staircase is what fill_gater_data keeps: filling it with one more contribution of process `j`
      gives the staircase of the longer streams, and a row is returned exactly when it is complete. */
  lemma FillStaircase<D>(acc: Streams<D>, j: nat, d: D)
    requires j < |acc|
    ensures Fill(|acc|, Staircase(acc), Some(j), d) == AfterPush(acc, j, d)
  {
    hide *;
    PushMax(acc, j, d);
    if |acc[j]| < MaxLen(acc) {
      FillStaircaseStored(acc, j, d);
    } else {
      FillStaircaseNewRow(acc, j, d);
    }
  }

  lemma FillStaircaseStored<D>(acc: Streams<D>, j: nat, d: D)
    requires j < |acc| && |acc[j]| < MaxLen(acc)
    ensures Fill(|acc|, Staircase(acc), Some(j), d) == AfterPush(acc, j, d)
  {
    hide MinLen, MaxLen, FirstOpen, Values, RowAt;
    var acc', from, to, h := Push(acc, j, d), MinLen(acc), MaxLen(acc), |acc[j]|;
    PushMax(acc, j, d);
    PushMin(acc, j, d);
    FirstOpenInRows(acc, from, to, j, 0);
    FillStored(acc, from, to, j, d);
    if h == from && AllFilled(PartialRow(acc', h)) {
      DropFirstRow(acc', from, to);
    }
  }

  lemma DropFirstRow<D>(acc: Streams<D>, from: nat, to: nat)
    requires |acc| > 0 && from < to && from < MinLen(acc)
    requires AllFilled(PartialRow(acc, from))
    ensures Rows(acc, from, to)[1..] == Rows(acc, from + 1, to)
    ensures Values(PartialRow(acc, from)) == RowAt(acc, from)
  {
    hide *;
    RowsTail(acc, from, to);
    FullRow(acc, from);
  }

  lemma RowsTail<D>(acc: Streams<D>, from: nat, to: nat)
    requires |acc| > 0 && from < to
    ensures Rows(acc, from, to)[1..] == Rows(acc, from + 1, to)
  {
    hide MinLen, MaxLen, PartialRow, RowAt, Values;
    forall i | 0 <= i < to - from - 1 ensures Rows(acc, from, to)[1..][i] == Rows(acc, from + 1, to)[i] {
      assert Rows(acc, from, to)[1..][i] == Rows(acc, from, to)[i + 1];
    }
  }

  lemma FullRow<D>(acc: Streams<D>, k: nat)
    requires |acc| > 0 && k < MinLen(acc) && AllFilled(PartialRow(acc, k))
    ensures Values(PartialRow(acc, k)) == RowAt(acc, k)
  {
    hide MinLen, MaxLen, Rows;
  }

  lemma FillStaircaseNewRow<D>(acc: Streams<D>, j: nat, d: D)
    requires j < |acc| && |acc[j]| == MaxLen(acc)
    ensures Fill(|acc|, Staircase(acc), Some(j), d) == AfterPush(acc, j, d)
  {
    hide MinLen, MaxLen, FirstOpen;
    var acc', from, to := Push(acc, j, d), MinLen(acc), MaxLen(acc);
    PushMax(acc, j, d);
    PushMin(acc, j, d);
    FirstOpenInRows(acc, from, to, j, 0);
    var u := MaxLenWitness(acc);
    FillNewRow(acc, from, to, j, d);
    if |acc| == 1 {
      assert [d] == RowAt(acc', from);
    } else {
      NotAllAtTop(acc, j, d);
    }
  }

  lemma NotAllAtTop<D>(acc: Streams<D>, j: nat, d: D)
    requires 1 < |acc| && j < |acc| && |acc[j]| == MaxLen(acc)
    ensures MinLen(Push(acc, j, d)) == MinLen(acc)
  {
    PushMin(acc, j, d);
    var u := MaxLenWitness(acc);
    var x := if j == 0 then 1 else 0;
    var row := PartialRow(Push(acc, j, d), MinLen(acc));
    assert MinLen(acc) == |acc[j]| ==> !row[x].Filled?;
  }

  lemma FillStored<D>(acc: Streams<D>, from: nat, to: nat, j: nat, d: D)
    requires j < |acc| && from <= |acc[j]| < to
    ensures var row := Rows(acc, from, to)[|acc[j]| - from][j := Filled(d)];
            var acc' := Push(acc, j, d);
            && row == PartialRow(acc', |acc[j]|)
            && Rows(acc, from, to)[|acc[j]| - from := row] == Rows(acc', from, to)
  {
    var acc' := Push(acc, j, d);
    var h := |acc[j]|;
    assert Rows(acc, from, to)[h - from][j := Filled(d)] == PartialRow(acc', h);
    var old_, new_ := Rows(acc, from, to)[h - from := PartialRow(acc', h)], Rows(acc', from, to);
    forall y | 0 <= y < |old_| ensures old_[y] == new_[y] {
      assert forall x :: 0 <= x < |acc| ==> old_[y][x] == new_[y][x];
    }
    assert old_ == new_;
  }

  lemma FillNewRow<D>(acc: Streams<D>, from: nat, to: nat, j: nat, d: D)
    requires j < |acc| && from <= |acc[j]| == to
    requires forall x :: 0 <= x < |acc| ==> |acc[x]| <= to
    ensures var acc' := Push(acc, j, d);
            && Rows(acc, from, to) == Rows(acc', from, to)
            && Rows(acc', from, to) + [seq(|acc|, _ => Unfilled)[j := Filled(d)]] == Rows(acc', from, to + 1)
  {
    var acc' := Push(acc, j, d);
    assert seq(|acc|, _ => Unfilled)[j := Filled(d)] == PartialRow(acc', to);
    var rows, rows' := Rows(acc, from, to), Rows(acc', from, to);
    forall y | 0 <= y < |rows| ensures rows[y] == rows'[y] {
      assert forall x :: 0 <= x < |acc| ==> rows[y][x] == rows'[y][x];
    }
    assert rows == rows';
  }

  // ------------------------------------------------- any arrival order

  datatype Arrival<+D> = Arrival(who: nat, d: D)

  /** Everything process `j` contributed, in its own order. */
  function StreamOf<D>(arrivals: seq<Arrival<D>>, j: nat): seq<D> {
    if arrivals == [] then []
    else
      var a := arrivals[|arrivals| - 1];
      StreamOf(arrivals[..|arrivals| - 1], j) + if a.who == j then [a.d] else []
  }

  function StreamsOf<D>(n: nat, arrivals: seq<Arrival<D>>): (acc: Streams<D>)
    ensures |acc| == n
  {
    seq(n, j requires 0 <= j => StreamOf(arrivals, j))
  }

  datatype Session<+D> = Session(deque: seq<Row<D>>, rows: seq<seq<D>>) | Broken

  /** The rows handed out by a sequence of fill_gater_data calls on an empty deque. */
  function Serve<D>(n: nat, arrivals: seq<Arrival<D>>): Session<D> {
    if arrivals == [] then Session([], [])
    else
      var a := arrivals[|arrivals| - 1];
      match Serve(n, arrivals[..|arrivals| - 1])
      case Broken => Broken
      case Session(deque, rows) =>
        match Fill(n, deque, Some(a.who), a.d)
        case BadIndex => Broken
        case Kept(deque') => Session(deque', rows)
        case Returned(deque', row) => Session(deque', rows + [row])
  }

  lemma StreamsExtend<D>(n: nat, arrivals: seq<Arrival<D>>)
    requires arrivals != [] && arrivals[|arrivals| - 1].who < n
    ensures var before, a := arrivals[..|arrivals| - 1], arrivals[|arrivals| - 1];
            StreamsOf(n, arrivals) == Push(StreamsOf(n, before), a.who, a.d)
  {
    var before, a := arrivals[..|arrivals| - 1], arrivals[|arrivals| - 1];
    assert forall j :: 0 <= j < n ==> StreamsOf(n, arrivals)[j] == Push(StreamsOf(n, before), a.who, a.d)[j];
  }

  lemma RowAtPush<D>(acc: Streams<D>, j: nat, d: D, k: nat)
    requires j < |acc| && k < MinLen(acc) <= MinLen(Push(acc, j, d))
    ensures RowAt(Push(acc, j, d), k) == RowAt(acc, k)
  {
  }

  ghost predicate RowsAre<D>(rows: seq<seq<D>>, acc: Streams<D>)
    requires |acc| > 0
  {
    && |rows| == MinLen(acc)
    && forall k :: 0 <= k < |rows| ==> rows[k] == RowAt(acc, k)
  }

  lemma RowsArePush<D>(rows: seq<seq<D>>, acc: Streams<D>, j: nat, d: D)
    requires j < |acc| && RowsAre(rows, acc)
    ensures MinLen(Push(acc, j, d)) == MinLen(acc) ==> RowsAre(rows, Push(acc, j, d))
    ensures MinLen(Push(acc, j, d)) > MinLen(acc) ==>
              RowsAre(rows + [RowAt(Push(acc, j, d), MinLen(acc))], Push(acc, j, d))
  {
    hide MinLen, Push, RowAt;
    PushMin(acc, j, d);
    var acc' := Push(acc, j, d);
    forall k | 0 <= k < |rows| ensures rows[k] == RowAt(acc', k) {
      RowAtPush(acc, j, d, k);
    }
  }

  lemma EmptyStreams<D>(acc: Streams<D>)
    requires |acc| > 0 && forall j :: 0 <= j < |acc| ==> acc[j] == []
    ensures MinLen(acc) == 0 && Staircase(acc) == [] && RowsAre([], acc)
  {
    MinLenIs(acc, 0, 0);
    MaxLenIs(acc, 0, 0);
  }

  /** Collectives transpose streams: whatever the interleaving, the k-th row returned is the vector of
      k-th contributions, the rows returned are exactly the complete ones, and the deque holds the rest. */
  lemma {:induction false} CollectivesTranspose<D>(n: nat, arrivals: seq<Arrival<D>>)
    requires n > 0 && forall a :: a in arrivals ==> a.who < n
    ensures Serve(n, arrivals).Session?
    ensures Serve(n, arrivals).deque == Staircase(StreamsOf(n, arrivals))
    ensures RowsAre(Serve(n, arrivals).rows, StreamsOf(n, arrivals))
  {
    hide MinLen, MaxLen, Fill, Push, RowAt, RowsAre, Staircase;
    var acc := StreamsOf(n, arrivals);
    if arrivals == [] {
      EmptyStreams(acc);
    } else {
      var before, a := arrivals[..|arrivals| - 1], arrivals[|arrivals| - 1];
      CollectivesTranspose(n, before);
      StreamsExtend(n, arrivals);
      PushMin(StreamsOf(n, before), a.who, a.d);
      FillStaircase(StreamsOf(n, before), a.who, a.d);
      RowsArePush(Serve(n, before).rows, StreamsOf(n, before), a.who, a.d);
    }
  }
}
