/** Small helpers shared by the models. */
module Basics {

  datatype Option<+T> = None | Some(value: T)

  /** No element occurs twice. */
  ghost predicate NoDup<T>(s: seq<T>) {
    forall i, j :: 0 <= i < j < |s| ==> s[i] != s[j]
  }

  function Repeat<T>(x: T, n: nat): (r: seq<T>)
    ensures |r| == n && forall i :: 0 <= i < n ==> r[i] == x
  {
    seq(n, _ => x)
  }

  lemma FirstOf<T>(s: seq<T>) returns (x: T)
    requires s != []
    ensures x in s
  {
    x := s[0];
  }

  /** `s` lists the elements of `xs`, each once: one possible iteration order of a Python set. */
  ghost predicate Lists<T>(s: seq<T>, xs: set<T>) {
    && NoDup(s)
    && (set x | x in s) == xs
  }

  // ------------------------------------------------------------ iteration orders of a set

  lemma ListOneMore<T>(order: seq<T>, xs: set<T>, x: T)
    requires Lists(order, xs) && x !in xs
    ensures Lists(order + [x], xs + {x})
  {
    var longer := order + [x];
    assert forall y :: y in xs <==> y in (set z | z in order);
    assert forall k :: 0 <= k < |order| ==> longer[k] == order[k] && longer[k] in xs;
    assert longer[|order|] == x;
    assert (set y | y in longer) == xs + {x};
  }

  lemma {:induction false} ListSet<T>(xs: set<T>) returns (order: seq<T>)
    ensures Lists(order, xs) && (xs == {} ==> order == [])
  {
    if xs == {} {
      order := [];
    } else {
      var x :| x in xs;
      var rest := ListSet(xs - {x});
      ListOneMore(rest, xs - {x}, x);
      order := rest + [x];
      assert xs - {x} + {x} == xs;
    }
  }

  lemma ListBoth<T>(a: seq<T>, xs: set<T>, b: seq<T>, ys: set<T>)
    requires Lists(a, xs) && Lists(b, ys) && xs !! ys
    ensures Lists(a + b, xs + ys)
  {
    var both := a + b;
    assert forall y :: y in xs <==> y in (set z | z in a);
    assert forall y :: y in ys <==> y in (set z | z in b);
    forall i, j | 0 <= i < j < |both| ensures both[i] != both[j] {
      assert both[i] == if i < |a| then a[i] else b[i - |a|];
      assert both[j] == if j < |a| then a[j] else b[j - |a|];
      assert i < |a| ==> a[i] in xs;
      assert j >= |a| ==> b[j - |a|] in ys;
    }
    assert (set y | y in both) == xs + ys;
  }

  // ------------------------------------------------------------ counting

  ghost function Elems<T(!new)>(s: seq<T>): (r: set<T>)
    ensures forall x :: x in s <==> x in r
    ensures |r| <= |s|
    ensures NoDup(s) ==> |r| == |s|
  {
    if s == [] then {}
    else
      var front, last := s[..|s| - 1], s[|s| - 1];
      assert s == front + [last];
      assert NoDup(s) ==> NoDup(front) && last !in front;
      Elems(front) + {last}
  }

  ghost function Below(n: nat): (r: set<nat>)
    ensures forall k: nat :: k in r <==> k < n
    ensures |r| == n
  {
    if n == 0 then {} else Below(n - 1) + {n - 1}
  }

  lemma SubsetSize<T>(a: set<T>, b: set<T>)
    requires a <= b
    ensures |a| <= |b|
  {
    assert b == a + (b - a);
  }

  lemma SubsetOfSameSize<T>(a: set<T>, b: set<T>)
    requires a <= b && |a| == |b|
    ensures a == b
  {
    assert b == a + (b - a);
    assert |b - a| == 0;
  }

  /** n different numbers below n are all the numbers below n. */
  lemma Pigeonhole(s: seq<nat>)
    requires NoDup(s) && forall x :: 0 <= x < |s| ==> s[x] < |s|
    ensures forall k: nat :: k < |s| ==> k in s
  {
    hide Elems, Below;
    SubsetOfSameSize(Elems(s), Below(|s|));
    assert forall k: nat :: k < |s| ==> k in Below(|s|);
  }

  /** Different numbers below n are at most n. */
  lemma DistinctBelow(s: seq<nat>, n: nat)
    requires NoDup(s) && forall x :: 0 <= x < |s| ==> s[x] < n
    ensures |s| <= n
  {
    hide Elems, Below;
    assert Elems(s) <= Below(n);
    var rest := Below(n) - Elems(s);
    assert Below(n) == Elems(s) + rest;
  }

  // ------------------------------------------------------------ sums

  ghost function Sum(xs: seq<nat>): nat {
    if xs == [] then 0 else Sum(xs[..|xs| - 1]) + xs[|xs| - 1]
  }

  lemma {:induction false} SumUpdate(xs: seq<nat>, i: nat, v: nat)
    requires i < |xs|
    ensures Sum(xs[i := v]) + xs[i] == Sum(xs) + v
  {
    var front := xs[..|xs| - 1];
    if i == |xs| - 1 {
      assert xs[i := v][..|xs| - 1] == front;
    } else {
      assert xs[i := v][..|xs| - 1] == front[i := v];
      SumUpdate(front, i, v);
    }
  }

  ghost function Lengths<T>(ss: seq<seq<T>>): (xs: seq<nat>)
    ensures |xs| == |ss| && forall i :: 0 <= i < |ss| ==> xs[i] == |ss[i]|
  {
    seq(|ss|, i requires 0 <= i < |ss| => |ss[i]|)
  }

  ghost function Total<T>(ss: seq<seq<T>>): nat {
    Sum(Lengths(ss))
  }

  lemma TotalUpdate<T>(ss: seq<seq<T>>, i: nat, s: seq<T>)
    requires i < |ss|
    ensures Total(ss[i := s]) + |ss[i]| == Total(ss) + |s|
  {
    assert Lengths(ss[i := s]) == Lengths(ss)[i := |s|];
    SumUpdate(Lengths(ss), i, |s|);
  }
}
