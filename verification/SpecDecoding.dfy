module SpecDecoding {
  /** Acceptance counts of speculative decoding, per request and per position (exporters/exporter_batch.py).  Ratios are kept as
      numerator and denominator, before rounding. */

  import opened Basics

  type Rid = nat

  /** An entry of res_list: fields may be missing. */
  datatype Req = Req(rid: Option<Rid>, specOutput: Option<int>, scheduled: Option<int>, accepted: Option<int>)

  /** `x or y` on optional numbers: zero counts as missing. */
  function Or(x: Option<int>, y: int): int {
    if x.Some? && x.value != 0 then x.value else y
  }

  /** The tokens proposed, if their number is there and not zero; else those scheduled; else none. */
  function Proposed(r: Req): (n: int)
    ensures r.specOutput.Some? && r.specOutput.value != 0 ==> n == r.specOutput.value
    ensures (r.specOutput.None? || r.specOutput.value == 0) && r.scheduled.Some? ==> n == r.scheduled.value
    ensures (r.specOutput.None? || r.specOutput.value == 0) && r.scheduled.None? ==> n == 0
  {
    Or(r.specOutput, Or(r.scheduled, 0))
  }

  function Accepted(r: Req): (n: int)
    ensures n == if r.accepted.Some? then r.accepted.value else 0
  {
    Or(r.accepted, 0)
  }

  datatype Ratio = Ratio(num: nat, denom: nat)

  // ------------------------------------------------------------ the dictionaries

  /** Later entries replace earlier ones with the same rid; entries without one are left out. */
  function PerReq(rows: seq<Req>, value: Req -> int): map<Rid, int> {
    if rows == [] then map[]
    else
      var m, r := PerReq(rows[..|rows| - 1], value), rows[|rows| - 1];
      if r.rid.Some? then m[r.rid.value := value(r)] else m
  }

  /** What the dictionary holds for a request: the value of its last entry, and nothing if it has none. */
  lemma {:induction false} PerReqIs(rows: seq<Req>, value: Req -> int, k: Rid)
    ensures k in PerReq(rows, value) <==> exists i :: 0 <= i < |rows| && LastOf(rows, k, i)
    ensures forall i :: 0 <= i < |rows| && LastOf(rows, k, i) ==> PerReq(rows, value)[k] == value(rows[i])
  {
    if rows != [] {
      var front, last := rows[..|rows| - 1], rows[|rows| - 1];
      PerReqIs(front, value, k);
      if last.rid == Some(k) {
        assert LastOf(rows, k, |front|);
      } else {
        forall i | 0 <= i < |front| ensures LastOf(front, k, i) <==> LastOf(rows, k, i) {
          assert forall j :: 0 <= j < |front| ==> front[j] == rows[j];
        }
      }
    }
  }

  /** Entry i is the last one of the request. */
  ghost predicate LastOf(rows: seq<Req>, k: Rid, i: int)
    requires 0 <= i < |rows|
  {
    rows[i].rid == Some(k) && forall j :: i < j < |rows| ==> rows[j].rid != Some(k)
  }

  /** The requests whose value is at least t. */
  function Reaching(m: map<Rid, int>, t: int): set<Rid> {
    set k | k in m && m[k] >= t
  }

  function AtLeast(m: map<Rid, int>, t: int): nat {
    |Reaching(m, t)|
  }

  ghost function SumOf(rows: seq<Req>, value: Req -> int): int {
    if rows == [] then 0 else SumOf(rows[..|rows| - 1], value) + value(rows[|rows| - 1])
  }

  // ------------------------------------------------------------ sums over a dictionary

  ghost function SumMap(m: map<Rid, int>): int
    decreases |m|
  {
    if m == map[] then 0
    else
      var k := First(m);
      m[k] + SumMap(m - {k})
  }

  ghost function First(m: map<Rid, int>): (k: Rid)
    requires m != map[]
    ensures k in m
  {
    assert m.Keys != {};
    var k :| k in m;
    k
  }

  /** The sum may start anywhere. */
  lemma {:induction false} FirstMinus(m: map<Rid, int>, k: Rid)
    requires k in m
    ensures SumMap(m) == m[k] + SumMap(m - {k})
    decreases |m|
  {
    var f := First(m);
    if f != k {
      FirstMinus(m - {f}, k);
      FirstMinus(m - {k}, f);
      assert m - {f} - {k} == m - {k} - {f};
    }
  }

  lemma SumWrite(m: map<Rid, int>, k: Rid, v: int)
    ensures SumMap(m[k := v]) == SumMap(m) + v - if k in m then m[k] else 0
  {
    FirstMinus(m[k := v], k);
    assert m[k := v] - {k} == m - {k};
    if k in m {
      FirstMinus(m, k);
    } else {
      assert m - {k} == m;
    }
  }

  // ------------------------------------------------------------ what the dictionaries leave out

  /** r shows in the dictionaries: it has a rid that does not come again. */
  ghost predicate Shows(r: Req, rest: seq<Req>) {
    r.rid.Some? && forall j :: 0 <= j < |rest| ==> rest[j].rid != r.rid
  }

  /** The entries that do not show. */
  ghost function Hidden(rows: seq<Req>): seq<Req> {
    if rows == [] then [] else (if Shows(rows[0], rows[1..]) then [] else [rows[0]]) + Hidden(rows[1..])
  }

  /** The dictionary, built from the front. */
  ghost function Shown(rows: seq<Req>, value: Req -> int): map<Rid, int> {
    if rows == [] then map[]
    else
      var m, r := Shown(rows[1..], value), rows[0];
      if Shows(r, rows[1..]) then m[r.rid.value := value(r)] else m
  }

  lemma {:induction false} ShownMore(rows: seq<Req>, r: Req, value: Req -> int)
    ensures Shown(rows + [r], value) == if r.rid.Some? then Shown(rows, value)[r.rid.value := value(r)] else Shown(rows, value)
  {
    if rows == [] {
      assert (rows + [r])[1..] == [];
    } else {
      var a, rest := rows[0], rows[1..];
      assert (rows + [r])[1..] == rest + [r];
      ShownMore(rest, r, value);
      assert Shows(a, rest + [r]) <==> Shows(a, rest) && a.rid != r.rid by {
        assert (rest + [r])[|rest|] == r;
        assert forall j :: 0 <= j < |rest| ==> (rest + [r])[j] == rest[j];
      }
    }
  }

  lemma {:induction false} ShownIsPerReq(rows: seq<Req>, value: Req -> int)
    ensures Shown(rows, value) == PerReq(rows, value)
  {
    if rows != [] {
      var front := rows[..|rows| - 1];
      ShownIsPerReq(front, value);
      ShownMore(front, rows[|front|], value);
      assert rows == front + [rows[|front|]];
    }
  }

  lemma {:induction false} ShownKeys(rows: seq<Req>, value: Req -> int, k: Rid)
    ensures k in Shown(rows, value) <==> exists j :: 0 <= j < |rows| && rows[j].rid == Some(k)
  {
    if rows != [] {
      ShownKeys(rows[1..], value, k);
      assert forall j :: 0 < j < |rows| ==> rows[j] == rows[1..][j - 1];
      assert forall j :: 0 <= j < |rows| - 1 ==> rows[1..][j] == rows[j + 1];
    }
  }

  lemma {:induction false} SumSplit(a: seq<Req>, b: seq<Req>, value: Req -> int)
    ensures SumOf(a + b, value) == SumOf(a, value) + SumOf(b, value)
  {
    if b == [] {
      assert a + b == a;
    } else {
      assert (a + b)[..|a + b| - 1] == a + b[..|b| - 1];
      SumSplit(a, b[..|b| - 1], value);
    }
  }

  lemma SumOne(r: Req, value: Req -> int)
    ensures SumOf([r], value) == value(r)
  {
    assert [r][..0] == [];
  }

  /** The total over all entries is the total over the dictionary plus that over the entries that do not show in it. */
  lemma {:induction false} TotalIsShownAndHidden(rows: seq<Req>, value: Req -> int)
    ensures SumOf(rows, value) == SumMap(PerReq(rows, value)) + SumOf(Hidden(rows), value)
  {
    hide SumMap, PerReq, SumOf;
    ShownIsPerReq(rows, value);
    if rows == [] {
      NothingSummed(value);
    } else {
      var r, rest := rows[0], rows[1..];
      TotalIsShownAndHidden(rest, value);
      ShownIsPerReq(rest, value);
      assert rows == [r] + rest;
      SumSplit([r], rest, value);
      SumOne(r, value);
      if Shows(r, rest) {
        ShownKeys(rest, value, r.rid.value);
        SumWrite(Shown(rest, value), r.rid.value, value(r));
        assert [] + Hidden(rest) == Hidden(rest);
      } else {
        SumSplit([r], Hidden(rest), value);
      }
    }
  }

  lemma NothingSummed(value: Req -> int)
    ensures SumOf([], value) == 0 && SumMap(map[]) == 0
  {
  }

  lemma {:induction false} ZeroSum(rows: seq<Req>, value: Req -> int)
    requires forall i :: 0 <= i < |rows| ==> value(rows[i]) >= 0
    ensures SumOf(rows, value) >= 0
    ensures SumOf(rows, value) == 0 <==> forall i :: 0 <= i < |rows| ==> value(rows[i]) == 0
  {
    if rows != [] {
      ZeroSum(rows[..|rows| - 1], value);
      assert forall i :: 0 <= i < |rows| - 1 ==> rows[..|rows| - 1][i] == rows[i];
    }
  }

  lemma {:induction false} HiddenAreRows(rows: seq<Req>)
    ensures forall i :: 0 <= i < |Hidden(rows)| ==> Hidden(rows)[i] in rows
  {
    if rows != [] {
      HiddenAreRows(rows[1..]);
      assert rows == [rows[0]] + rows[1..];
    }
  }

  /** Nothing is hidden if all entries have rids and these are different. */
  lemma {:induction false} NothingHidden(rows: seq<Req>)
    ensures Hidden(rows) == [] <==>
            (forall i :: 0 <= i < |rows| ==> rows[i].rid.Some?) && forall i, j :: 0 <= i < j < |rows| ==> rows[i].rid != rows[j].rid
  {
    if rows != [] {
      NothingHidden(rows[1..]);
      assert forall i :: 0 <= i < |rows| - 1 ==> rows[1..][i] == rows[i + 1];
      if Hidden(rows) == [] {
        forall i, j | 0 <= i < j < |rows| ensures rows[i].rid.Some? && rows[j].rid.Some? && rows[i].rid != rows[j].rid {
          assert rows[j] == rows[1..][j - 1];
          assert i > 0 ==> rows[i] == rows[1..][i - 1];
        }
      }
    }
  }

  // ------------------------------------------------------------ positions

  /** The sum over positions 1 to n of the number of values that reach the position. */
  ghost function PositionSum(m: map<Rid, int>, n: nat): nat {
    if n == 0 then 0 else PositionSum(m, n - 1) + AtLeast(m, n)
  }

  function Clamp(x: int, n: nat): nat {
    if x < 0 then 0 else if x > n then n else x
  }

  lemma AtLeastMinus(m: map<Rid, int>, k: Rid, t: int)
    requires k in m
    ensures AtLeast(m, t) == AtLeast(m - {k}, t) + if m[k] >= t then 1 else 0
  {
    assert Reaching(m, t) == Reaching(m - {k}, t) + if m[k] >= t then {k} else {};
  }

  lemma {:induction false} PositionsMinus(m: map<Rid, int>, k: Rid, n: nat)
    requires k in m
    ensures PositionSum(m, n) == PositionSum(m - {k}, n) + Clamp(m[k], n)
  {
    hide AtLeast;
    if n > 0 {
      PositionsMinus(m, k, n - 1);
      AtLeastMinus(m, k, n);
    }
  }

  lemma {:induction false} NoPositions(n: nat)
    ensures PositionSum(map[], n) == 0
  {
    if n > 0 {
      NoPositions(n - 1);
      assert AtLeast(map[], n) == 0;
    }
  }

  /** Summing over positions is summing over requests. */
  lemma {:induction false} PositionsSumUp(m: map<Rid, int>, n: nat)
    requires forall k :: k in m ==> 0 <= m[k] <= n
    ensures PositionSum(m, n) == SumMap(m)
    decreases |m|
  {
    hide PositionSum;
    if m == map[] {
      NoPositions(n);
    } else {
      var k := First(m);
      PositionsMinus(m, k, n);
      PositionsSumUp(m - {k}, n);
    }
  }

  // ------------------------------------------------------------ the counts agree

  ghost predicate IsMax(m: map<Rid, int>, max: int) {
    if m == map[] then max == 0 else (exists k :: k in m && m[k] == max) && forall k :: k in m ==> m[k] <= max
  }

  ghost predicate Sane(rows: seq<Req>) {
    forall i :: 0 <= i < |rows| ==> 0 <= Accepted(rows[i]) <= Proposed(rows[i])
  }

  /** The denominator of a position below the maximum is never zero, whatever the entries: the loop never breaks. */
  lemma DenominatorsPositive(m: map<Rid, int>, max: int, p: nat)
    requires IsMax(m, max) && p < max
    ensures AtLeast(m, p + 1) > 0
  {
    var k :| k in m && m[k] == max;
    AtLeastMinus(m, k, p + 1);
  }

  lemma {:induction false} PerReqWithin(rows: seq<Req>, k: Rid)
    requires Sane(rows)
    ensures k in PerReq(rows, Proposed) <==> k in PerReq(rows, Accepted)
    ensures k in PerReq(rows, Proposed) ==> 0 <= PerReq(rows, Accepted)[k] <= PerReq(rows, Proposed)[k]
  {
    if rows != [] {
      PerReqWithin(rows[..|rows| - 1], k);
    }
  }

  /** At no position more requests accept than propose. */
  lemma NumeratorsWithin(rows: seq<Req>, p: nat)
    requires Sane(rows)
    ensures AtLeast(PerReq(rows, Accepted), p + 1) <= AtLeast(PerReq(rows, Proposed), p + 1)
  {
    var acc, spec := PerReq(rows, Accepted), PerReq(rows, Proposed);
    var a, b := Reaching(acc, p + 1), Reaching(spec, p + 1);
    forall k | k in a ensures k in b {
      PerReqWithin(rows, k);
    }
    assert b == a + (b - a);
  }

  /** The denominators add up to the tokens proposed and the numerators to those accepted exactly when the entries that do not
      show, because they have no rid or come again, have none. */
  lemma PositionsAddUpExactlyWhen(rows: seq<Req>, max: nat)
    requires Sane(rows) && IsMax(PerReq(rows, Proposed), max)
    ensures PositionSum(PerReq(rows, Proposed), max) == SumOf(rows, Proposed) <==>
            forall i :: 0 <= i < |Hidden(rows)| ==> Proposed(Hidden(rows)[i]) == 0
    ensures PositionSum(PerReq(rows, Accepted), max) == SumOf(rows, Accepted) <==>
            forall i :: 0 <= i < |Hidden(rows)| ==> Accepted(Hidden(rows)[i]) == 0
  {
    hide PerReq, SumOf, PositionSum, Hidden, SumMap, Proposed, Accepted, AtLeast;
    forall k ensures k in PerReq(rows, Proposed) <==> k in PerReq(rows, Accepted) {
      PerReqWithin(rows, k);
    }
    forall k | k in PerReq(rows, Proposed) ensures 0 <= PerReq(rows, Accepted)[k] <= PerReq(rows, Proposed)[k] <= max {
      PerReqWithin(rows, k);
    }
    PositionsSumUp(PerReq(rows, Proposed), max);
    PositionsSumUp(PerReq(rows, Accepted), max);
    TotalIsShownAndHidden(rows, Proposed);
    TotalIsShownAndHidden(rows, Accepted);
    HiddenAreRows(rows);
    ZeroSum(Hidden(rows), Proposed);
    ZeroSum(Hidden(rows), Accepted);
  }

  // ------------------------------------------------------------ the counting of _process_spec_decoding_rows

  method MaxValue(m: map<Rid, int>) returns (max: int)
    ensures IsMax(m, max)
  {
    if m == map[] {
      return 0;
    }
    assert m.Keys != {};
    var k :| k in m;
    max := m[k];
    var rest := m.Keys - {k};
    while rest != {}
      invariant rest <= m.Keys && (exists x :: x in m && m[x] == max) && forall x :: x in m.Keys - rest ==> m[x] <= max
      decreases rest
    {
      var x :| x in rest;
      if m[x] > max {
        max := m[x];
      }
      rest := rest - {x};
    }
  }

  /** One row of the table: the accepted ratio, if any tokens were proposed, and the ratio of every position. */
  method Count(rows: seq<Req>) returns (overall: Option<(int, int)>, perPosition: seq<Ratio>)
    ensures overall == if SumOf(rows, Proposed) > 0 then Some((SumOf(rows, Accepted), SumOf(rows, Proposed))) else None
    ensures var spec, acc := PerReq(rows, Proposed), PerReq(rows, Accepted);
            exists max ::
              && IsMax(spec, max) && |perPosition| == (if max > 0 then max else 0)
              && forall p :: 0 <= p < |perPosition| ==> perPosition[p] == Ratio(AtLeast(acc, p + 1), AtLeast(spec, p + 1))
  {
    hide AtLeast, Proposed, Accepted;
    var totalSpec, totalAcc := 0, 0;
    var spec, acc: map<Rid, int> := map[], map[];
    for i := 0 to |rows|
      invariant totalSpec == SumOf(rows[..i], Proposed) && totalAcc == SumOf(rows[..i], Accepted)
      invariant spec == PerReq(rows[..i], Proposed) && acc == PerReq(rows[..i], Accepted)
    {
      assert rows[..i + 1][..i] == rows[..i];
      var r := rows[i];
      totalSpec, totalAcc := totalSpec + Proposed(r), totalAcc + Accepted(r);
      if r.rid.Some? {
        spec, acc := spec[r.rid.value := Proposed(r)], acc[r.rid.value := Accepted(r)];
      }
    }
    assert rows[..|rows|] == rows;
    overall := if totalSpec > 0 then Some((totalAcc, totalSpec)) else None;
    var max := MaxValue(spec);
    perPosition := [];
    var p := 0;
    while p < max
      invariant p == |perPosition| && (p <= max || p == 0)
      invariant forall q :: 0 <= q < p ==> perPosition[q] == Ratio(AtLeast(acc, q + 1), AtLeast(spec, q + 1))
    {
      var denom := AtLeast(spec, p + 1);
      DenominatorsPositive(spec, max, p);
      if denom == 0 {
        break;
      }
      perPosition := perPosition + [Ratio(AtLeast(acc, p + 1), denom)];
      p := p + 1;
    }
  }
}
