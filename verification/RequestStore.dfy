module RequestStore {
  /** The bounded store of request contexts, ordered by recency (tracer/hook_runtime.py). */

  import opened Basics

  const MAX_INFLIGHT_REQUESTS := 10000
  const MAX_LINKS_PER_SPAN := 128

  type Id = string

  /** A valid span context. */
  type Context = nat

  datatype Op = Register(id: Id, context: Context) | Finish(id: Id)

  // ------------------------------------------------------------ what a history says

  /** When j was registered last, or -1 if it was never registered or has been finished since. */
  function LastIn(h: seq<Op>, j: Id): (k: int)
    ensures -1 <= k < |h|
    ensures k >= 0 ==> h[k].Register? && h[k].id == j
  {
    if h == [] then -1
    else
      var op := h[|h| - 1];
      if op.id == j then (if op.Register? then |h| - 1 else -1) else LastIn(h[..|h| - 1], j)
  }

  /** The requests registered after moment k and not finished since. */
  ghost function LiveAfter(h: seq<Op>, k: int): (r: set<Id>)
    requires k >= -1
    ensures forall j :: j in r <==> LastIn(h, j) > k
  {
    MentionedAll(h);
    set i | 0 <= i < |h| && LastIn(h, h[i].id) > k :: h[i].id
  }

  lemma MentionedAll(h: seq<Op>)
    ensures forall j :: LastIn(h, j) >= 0 ==> exists i :: 0 <= i < |h| && h[i].id == j
  {
    forall j | LastIn(h, j) >= 0 ensures exists i :: 0 <= i < |h| && h[i].id == j {
      assert h[LastIn(h, j)].id == j;
    }
  }

  /** j was registered, has not been finished since, and never since then were `max` requests alive that were registered later. */
  ghost predicate Survives(max: nat, h: seq<Op>, j: Id) {
    LastIn(h, j) >= 0 && NeverCrowded(max, h, LastIn(h, j))
  }

  ghost predicate NeverCrowded(max: nat, h: seq<Op>, k: nat) {
    forall m :: k < m <= |h| ==> |LiveAfter(h[..m], k)| < max
  }

  // ------------------------------------------------------------ the store

  /** An OrderedDict: its keys in order and its values. */
  datatype Store = Store(order: seq<Id>, requests: map<Id, Context>)

  function Without(order: seq<Id>, id: Id): (r: seq<Id>)
    ensures forall j :: j in r <==> j in order && j != id
  {
    if order == [] then [] else
      var front, last := order[..|order| - 1], order[|order| - 1];
      assert order == front + [last];
      if last == id then Without(front, id) else Without(front, id) + [last]
  }

  function Apply(max: nat, s: Store, op: Op): Store {
    match op
    case Finish(id) => Store(Without(s.order, id), s.requests - {id})
    case Register(id, context) =>
      var order, requests := Without(s.order, id) + [id], s.requests[id := context];
      if |order| > max then Store(order[1..], requests - {order[0]}) else Store(order, requests)
  }

  function RunOps(max: nat, h: seq<Op>): Store {
    if h == [] then Store([], map[]) else Apply(max, RunOps(max, h[..|h| - 1]), h[|h| - 1])
  }

  ghost predicate Ascending(h: seq<Op>, order: seq<Id>) {
    forall a, b :: 0 <= a < b < |order| ==> LastIn(h, order[a]) < LastIn(h, order[b])
  }

  /** The keys are exactly the surviving requests, the one registered longest ago first, and there are no more than `max`. */
  ghost predicate OrderIs(max: nat, h: seq<Op>, order: seq<Id>) {
    && (forall j :: j in order <==> Survives(max, h, j))
    && Ascending(h, order) && |order| <= max
  }

  /** Each has the context it was last registered with. */
  ghost predicate ValuesAre(h: seq<Op>, order: seq<Id>, requests: map<Id, Context>) {
    && (forall j :: j in requests <==> j in order)
    && forall j :: j in order ==> LastIn(h, j) >= 0 && requests[j] == h[LastIn(h, j)].context
  }

  ghost predicate StoreIs(max: nat, h: seq<Op>, s: Store) {
    OrderIs(max, h, s.order) && ValuesAre(h, s.order, s.requests)
  }

  // ------------------------------------------------------------ one step

  lemma LastMore(h: seq<Op>, op: Op, j: Id)
    ensures LastIn(h + [op], j) == if op.id == j then (if op.Register? then |h| else -1) else LastIn(h, j)
  {
    assert (h + [op])[..|h|] == h;
  }

  lemma LiveMore(h: seq<Op>, op: Op, k: int)
    requires -1 <= k < |h|
    ensures LiveAfter(h + [op], k) == if op.Register? then LiveAfter(h, k) + {op.id} else LiveAfter(h, k) - {op.id}
  {
    forall j ensures LastIn(h + [op], j) == if op.id == j then (if op.Register? then |h| else -1) else LastIn(h, j) {
      LastMore(h, op, j);
    }
  }

  lemma CrowdedMore(max: nat, h: seq<Op>, op: Op, k: nat)
    requires k < |h|
    ensures NeverCrowded(max, h + [op], k) <==> NeverCrowded(max, h, k) && |LiveAfter(h + [op], k)| < max
  {
    hide LiveAfter;
    var h' := h + [op];
    assert h'[..|h'|] == h';
    if NeverCrowded(max, h', k) {
      assert |LiveAfter(h'[..|h'|], k)| < max;
      forall m | k < m <= |h| ensures |LiveAfter(h[..m], k)| < max {
        assert h'[..m] == h[..m];
      }
    }
    if NeverCrowded(max, h, k) && |LiveAfter(h', k)| < max {
      forall m | k < m <= |h'| ensures |LiveAfter(h'[..m], k)| < max {
        if m <= |h| {
          assert h'[..m] == h[..m];
        }
      }
    }
  }

  /** One operation on another request. */
  lemma SurvivesMore(max: nat, h: seq<Op>, op: Op, j: Id)
    requires op.id != j && LastIn(h, j) >= 0
    ensures Survives(max, h + [op], j) <==> Survives(max, h, j) && |LiveAfter(h + [op], LastIn(h, j))| < max
  {
    hide LiveAfter, NeverCrowded, LastIn;
    LastMore(h, op, j);
    CrowdedMore(max, h, op, LastIn(h, j));
  }

  /** Whoever was registered after a survivor survives, too. */
  lemma LaterSurvives(max: nat, h: seq<Op>, i: Id, j: Id)
    requires Survives(max, h, i) && LastIn(h, j) > LastIn(h, i)
    ensures Survives(max, h, j)
  {
    var k, l := LastIn(h, i), LastIn(h, j);
    forall m | l < m <= |h| ensures |LiveAfter(h[..m], l)| < max {
      assert LiveAfter(h[..m], l) <= LiveAfter(h[..m], k);
      SubsetSize(LiveAfter(h[..m], l), LiveAfter(h[..m], k));
    }
  }

  lemma AscendingFront(h: seq<Op>, order: seq<Id>)
    requires Ascending(h, order) && order != []
    ensures Ascending(h, order[..|order| - 1])
    ensures forall j :: j in order[..|order| - 1] ==> LastIn(h, j) < LastIn(h, order[|order| - 1])
    ensures order[|order| - 1] !in order[..|order| - 1]
  {
    hide LastIn;
    var front := order[..|order| - 1];
    forall j | j in front ensures LastIn(h, j) < LastIn(h, order[|order| - 1]) {
      var a :| 0 <= a < |front| && front[a] == j;
      assert order[a] == j;
    }
    forall a | 0 <= a < |front| ensures front[a] != order[|order| - 1] {
      assert LastIn(h, order[a]) < LastIn(h, order[|order| - 1]);
    }
  }

  lemma AscendingRest(h: seq<Op>, order: seq<Id>)
    requires Ascending(h, order) && order != []
    ensures Ascending(h, order[1..]) && order[0] !in order[1..]
  {
    hide LastIn;
    var rest := order[1..];
    forall a | 0 <= a < |rest| ensures rest[a] != order[0] {
      assert LastIn(h, order[0]) < LastIn(h, order[a + 1]);
    }
  }

  lemma AscendingAdd(h: seq<Op>, order: seq<Id>, last: Id)
    requires Ascending(h, order) && forall j :: j in order ==> LastIn(h, j) < LastIn(h, last)
    ensures Ascending(h, order + [last])
  {
    hide LastIn;
    var more := order + [last];
    forall a, b | 0 <= a < b < |more| ensures LastIn(h, more[a]) < LastIn(h, more[b]) {
      assert more[a] == order[a] && order[a] in order;
      assert b < |order| ==> more[b] == order[b];
    }
  }

  lemma AscendingNoDup(h: seq<Op>, order: seq<Id>)
    requires Ascending(h, order)
    ensures NoDup(order)
  {
    hide LastIn;
  }

  /** The history goes on with an operation on some other request. */
  lemma AscendingMore(h: seq<Op>, op: Op, order: seq<Id>)
    requires Ascending(h, order) && op.id !in order
    ensures Ascending(h + [op], order)
  {
    hide LastIn;
    forall a, b | 0 <= a < b < |order| ensures LastIn(h + [op], order[a]) < LastIn(h + [op], order[b]) {
      LastMore(h, op, order[a]);
      LastMore(h, op, order[b]);
    }
  }

  lemma {:induction false} WithoutAscending(h: seq<Op>, order: seq<Id>, id: Id)
    requires Ascending(h, order)
    ensures Ascending(h, Without(order, id))
    ensures |Without(order, id)| == |order| - if id in order then 1 else 0
  {
    hide LastIn, Ascending;
    if order == [] {
      assert Without(order, id) == order;
    } else {
      var front, last := order[..|order| - 1], order[|order| - 1];
      assert order == front + [last];
      AscendingFront(h, order);
      WithoutAscending(h, front, id);
      if last != id {
        AscendingAdd(h, Without(front, id), last);
      }
    }
  }

  /** The requests registered after the one at position p are those behind it. */
  lemma LiveIsBehind(max: nat, h: seq<Op>, order: seq<Id>, p: nat)
    requires OrderIs(max, h, order) && p < |order|
    ensures |LiveAfter(h, LastIn(h, order[p]))| == |order| - p - 1
  {
    hide Survives, LiveAfter, Elems, LastIn;
    var k, behind := LastIn(h, order[p]), order[p + 1..];
    assert order[p] in order;
    Surviving(max, h, order[p]);
    forall j ensures j in LiveAfter(h, k) <==> j in behind {
      if LastIn(h, j) > k {
        LaterSurvives(max, h, order[p], j);
        assert j in order;
        var q :| 0 <= q < |order| && order[q] == j;
        assert q > p;
        assert behind[q - p - 1] == j;
      }
      if j in behind {
        var q :| 0 <= q < |behind| && behind[q] == j;
        assert order[p + 1 + q] == j;
      }
    }
    assert LiveAfter(h, k) == Elems(behind);
    assert NoDup(behind) by {
      AscendingNoDup(h, order);
    }
  }

  lemma Surviving(max: nat, h: seq<Op>, j: Id)
    requires Survives(max, h, j)
    ensures LastIn(h, j) >= 0
  {
  }

  // ------------------------------------------------------------ finishing

  lemma FinishSurvivors(max: nat, h: seq<Op>, id: Id, j: Id)
    ensures Survives(max, h + [Finish(id)], j) <==> j != id && Survives(max, h, j)
  {
    hide LiveAfter, NeverCrowded;
    var op, k := Finish(id), LastIn(h, j);
    LastMore(h, op, j);
    if j != id && k >= 0 {
      SurvivesMore(max, h, op, j);
      if Survives(max, h, j) {
        LiveMore(h, op, k);
        SubsetSize(LiveAfter(h + [op], k), LiveAfter(h, k));
        NotCrowdedNow(max, h, k);
      }
    }
  }

  lemma NotCrowdedNow(max: nat, h: seq<Op>, k: nat)
    requires k < |h| && NeverCrowded(max, h, k)
    ensures |LiveAfter(h, k)| < max
  {
    assert h[..|h|] == h;
  }

  lemma FinishStep(max: nat, h: seq<Op>, s: Store, id: Id)
    requires StoreIs(max, h, s)
    ensures StoreIs(max, h + [Finish(id)], Apply(max, s, Finish(id)))
  {
    hide Survives, LastIn, Ascending;
    var op := Finish(id);
    var h', s' := h + [op], Apply(max, s, op);
    WithoutAscending(h, s.order, id);
    AscendingMore(h, op, s'.order);
    forall j ensures j in s'.order <==> Survives(max, h', j) {
      FinishSurvivors(max, h, id, j);
    }
    forall j | j in s'.order ensures LastIn(h', j) >= 0 && s'.requests[j] == h'[LastIn(h', j)].context {
      LastMore(h, op, j);
    }
  }

  // ------------------------------------------------------------ registering

  /** The one registered last survives. */
  lemma NewSurvives(max: nat, h: seq<Op>, op: Op)
    requires max > 0 && op.Register?
    ensures Survives(max, h + [op], op.id)
  {
    var h' := h + [op];
    LastMore(h, op, op.id);
    assert h'[..|h'|] == h';
    assert LiveAfter(h', |h|) == {};
  }

  /** Another one survives unless `max` requests are now behind it: those that were, and the new one. */
  lemma RegisterSurvivors(max: nat, h: seq<Op>, op: Op, j: Id)
    requires op.Register? && j != op.id && LastIn(h, j) >= 0
    ensures Survives(max, h + [op], j) <==> Survives(max, h, j) && |LiveAfter(h, LastIn(h, j)) + {op.id}| < max
  {
    hide LiveAfter, NeverCrowded, LastIn;
    SurvivesMore(max, h, op, j);
    LiveMore(h, op, LastIn(h, j));
  }

  lemma NeverRegistered(max: nat, h: seq<Op>, op: Op, j: Id)
    requires j != op.id && LastIn(h, j) < 0
    ensures !Survives(max, h + [op], j) && !Survives(max, h, j)
  {
    LastMore(h, op, j);
  }

  /** How many are behind position p of the keys once the new one is at the end. */
  lemma BehindNow(max: nat, h: seq<Op>, op: Op, order: seq<Id>, p: nat)
    requires OrderIs(max, h, order) && op.Register? && p < |Without(order, op.id)|
    ensures var j := Without(order, op.id)[p];
            && j != op.id && LastIn(h, j) >= 0 && Survives(max, h, j)
            && |LiveAfter(h, LastIn(h, j)) + {op.id}| == |Without(order, op.id)| - p
  {
    hide Survives, LiveAfter, LastIn, Ascending;
    var rest := Without(order, op.id);
    var j := rest[p];
    assert j in rest;
    Surviving(max, h, j);
    WithoutAscending(h, order, op.id);
    var k := LastIn(h, j);
    forall i ensures i in LiveAfter(h, k) - {op.id} <==> i in rest[p + 1..] {
      if LastIn(h, i) > k && i != op.id {
        LaterSurvives(max, h, j, i);
        assert i in rest;
      }
      BehindIs(h, rest, p, i);
    }
    AscendingNoDup(h, rest);
    assert LiveAfter(h, k) - {op.id} == Elems(rest[p + 1..]);
    assert LiveAfter(h, k) + {op.id} == (LiveAfter(h, k) - {op.id}) + {op.id};
  }

  lemma BehindIs(h: seq<Op>, order: seq<Id>, p: nat, i: Id)
    requires Ascending(h, order) && p < |order|
    ensures i in order[p + 1..] <==> i in order && LastIn(h, i) > LastIn(h, order[p])
  {
    hide LastIn;
    if i in order && LastIn(h, i) > LastIn(h, order[p]) {
      var q :| 0 <= q < |order| && order[q] == i;
      assert order[p + 1..][q - p - 1] == i;
    }
    if i in order[p + 1..] {
      var q :| 0 <= q < |order[p + 1..]| && order[p + 1..][q] == i;
      assert order[p + 1 + q] == i;
    }
  }

  /** Of the keys with the new one at the end exactly the first one does not survive, if they are too many. */
  lemma RegisterOrder(max: nat, h: seq<Op>, op: Op, order: seq<Id>)
    requires max > 0 && OrderIs(max, h, order) && op.Register?
    ensures var longer := Without(order, op.id) + [op.id];
            OrderIs(max, h + [op], if |longer| > max then longer[1..] else longer)
  {
    hide Survives, LiveAfter, LastIn, Ascending;
    var rest, h' := Without(order, op.id), h + [op];
    var longer := rest + [op.id];
    var order' := if |longer| > max then longer[1..] else longer;
    WithoutAscending(h, order, op.id);
    AscendingMore(h, op, rest);
    forall j | j in rest ensures LastIn(h', j) < LastIn(h', op.id) {
      LastMore(h, op, j);
      LastMore(h, op, op.id);
    }
    AscendingAdd(h', rest, op.id);
    AscendingRest(h', longer);
    forall j ensures j in order' <==> Survives(max, h', j) {
      if j == op.id {
        NewSurvives(max, h, op);
        assert order'[|order'| - 1] == j;
      } else if LastIn(h, j) < 0 {
        NeverRegistered(max, h, op, j);
        assert j !in longer;
      } else {
        RegisterSurvivors(max, h, op, j);
        if j in rest {
          var p :| 0 <= p < |rest| && rest[p] == j;
          BehindNow(max, h, op, order, p);
          assert longer[p] == j;
          if |longer| > max && p > 0 {
            assert longer[1..][p - 1] == j;
          }
        }
      }
    }
  }

  lemma RegisterStep(max: nat, h: seq<Op>, s: Store, op: Op)
    requires max > 0 && StoreIs(max, h, s) && op.Register?
    ensures StoreIs(max, h + [op], Apply(max, s, op))
  {
    hide OrderIs, LastIn, ValuesAre, Without;
    var h', longer := h + [op], Without(s.order, op.id) + [op.id];
    RegisterOrder(max, h, op, s.order);
    FirstLeaves(max, h, op, s.order);
    RegisterValues(h, s.order, s.requests, op);
    if |longer| > max {
      ValuesWithoutFirst(h', longer, s.requests[op.id := op.context]);
    }
  }

  lemma RegisterValues(h: seq<Op>, order: seq<Id>, requests: map<Id, Context>, op: Op)
    requires ValuesAre(h, order, requests) && op.Register?
    ensures ValuesAre(h + [op], Without(order, op.id) + [op.id], requests[op.id := op.context])
  {
    hide LastIn, Without;
    var h', longer, requests' := h + [op], Without(order, op.id) + [op.id], requests[op.id := op.context];
    forall j | j in longer ensures LastIn(h', j) >= 0 && requests'[j] == h'[LastIn(h', j)].context {
      LastMore(h, op, j);
    }
  }

  lemma ValuesWithoutFirst(h: seq<Op>, order: seq<Id>, requests: map<Id, Context>)
    requires ValuesAre(h, order, requests) && order != [] && order[0] !in order[1..]
    ensures ValuesAre(h, order[1..], requests - {order[0]})
  {
    hide LastIn;
    assert order == [order[0]] + order[1..];
  }

  lemma FirstLeaves(max: nat, h: seq<Op>, op: Op, order: seq<Id>)
    requires OrderIs(max, h, order)
    ensures var longer := Without(order, op.id) + [op.id];
            longer[0] !in longer[1..] && forall j :: j in longer[1..] ==> j in longer
  {
    hide LastIn, Ascending, Survives;
    WithoutAscending(h, order, op.id);
    var rest := Without(order, op.id);
    AscendingNoDup(h, rest);
    var longer := rest + [op.id];
    assert forall i :: 0 <= i < |longer[1..]| ==> longer[1..][i] == longer[i + 1];
  }

  // ------------------------------------------------------------ every history

  /** After any history the store holds exactly the requests that survive it, no more than `max`, with their last contexts. */
  lemma {:induction false} StoreSurvivors(max: nat, h: seq<Op>)
    requires max > 0
    ensures StoreIs(max, h, RunOps(max, h))
  {
    hide StoreIs, Apply;
    if h == [] {
      NothingStored(max);
    } else {
      var front, op := h[..|h| - 1], h[|h| - 1];
      assert h == front + [op];
      StoreSurvivors(max, front);
      if op.Finish? {
        FinishStep(max, front, RunOps(max, front), op.id);
      } else {
        RegisterStep(max, front, RunOps(max, front), op);
      }
    }
  }

  lemma NothingStored(max: nat)
    ensures StoreIs(max, [], Store([], map[]))
  {
  }

  // ------------------------------------------------------------ HookTraceRuntime

  /** The links of a span: the stored ones among its first requests, in the order given. */
  function LinksOf(s: Store, ids: seq<Id>): (r: seq<(Context, Id)>)
    ensures forall c, j :: (c, j) in r <==> j in ids && j in s.requests && s.requests[j] == c
  {
    if ids == [] then [] else
      var front, last := ids[..|ids| - 1], ids[|ids| - 1];
      assert ids == front + [last];
      LinksOf(s, front) + if last in s.requests then [(s.requests[last], last)] else []
  }

  /** The links come in the order of the ids asked for, one for each that is stored. */
  lemma {:induction false} LinksInOrder(s: Store, ids: seq<Id>) returns (places: seq<nat>)
    ensures |places| == |LinksOf(s, ids)| && forall k, l :: 0 <= k < l < |places| ==> places[k] < places[l]
    ensures forall k :: 0 <= k < |places| ==>
              && places[k] < |ids| && ids[places[k]] in s.requests
              && LinksOf(s, ids)[k] == (s.requests[ids[places[k]]], ids[places[k]])
    ensures forall i :: 0 <= i < |ids| && ids[i] in s.requests ==> i in places
  {
    if ids == [] {
      places := [];
    } else {
      var front := ids[..|ids| - 1];
      places := LinksInOrder(s, front);
      if ids[|front|] in s.requests {
        places := places + [|front|];
      }
    }
  }

  lemma PopThenInsert(requests: map<Id, Context>, id: Id, context: Context)
    ensures (requests - {id})[id := context] == requests[id := context]
  {
  }

  lemma OneMoreOp(max: nat, h: seq<Op>, op: Op)
    ensures RunOps(max, h + [op]) == Apply(max, RunOps(max, h), op)
  {
    assert (h + [op])[..|h|] == h;
  }

  class HookTraceRuntime {
    var requests: map<Id, Context>
    var order: seq<Id>
    ghost var history: seq<Op>

    function AsStore(): Store
      reads this
    {
      Store(order, requests)
    }

    ghost predicate Valid()
      reads this
    {
      AsStore() == RunOps(MAX_INFLIGHT_REQUESTS, history)
    }

    constructor ()
      ensures Valid() && history == []
    {
      requests, order, history := map[], [], [];
    }

    /** _store_request */
    method StoreRequest(id: Id, context: Context)
      requires Valid()
      modifies this
      ensures Valid() && history == old(history) + [Register(id, context)]
    {
      hide RunOps, Without;
      OneMoreOp(MAX_INFLIGHT_REQUESTS, history, Register(id, context));
      history := history + [Register(id, context)];
      var popped, rest := requests - {id}, Without(order, id);
      var more, longer := popped[id := context], rest + [id];
      PopThenInsert(requests, id, context);
      if |longer| > MAX_INFLIGHT_REQUESTS {
        requests, order := more - {longer[0]}, longer[1..];
      } else {
        requests, order := more, longer;
      }
    }

    /** register_request_context, with the contexts of the headers and of the current span if they are valid. */
    method RegisterRequestContext(id: Id, fromHeaders: Option<Context>, current: Option<Context>) returns (registered: bool)
      requires Valid()
      modifies this
      ensures Valid() && (registered <==> fromHeaders.Some? || current.Some?)
      ensures history == old(history) + if fromHeaders.Some? then [Register(id, fromHeaders.value)]
                                        else if current.Some? then [Register(id, current.value)] else []
    {
      var context := if fromHeaders.Some? then fromHeaders else current;
      if context.None? {
        return false;
      }
      StoreRequest(id, context.value);
      return true;
    }

    /** finish_request: it reports whether the request was still in the store. */
    method FinishRequest(id: Id) returns (found: bool)
      requires Valid()
      modifies this
      ensures Valid() && history == old(history) + [Finish(id)]
      ensures found <==> Survives(MAX_INFLIGHT_REQUESTS, old(history), id)
    {
      hide Survives;
      StoreSurvivors(MAX_INFLIGHT_REQUESTS, history);
      history := history + [Finish(id)];
      assert history[..|history| - 1] == old(history);
      found := id in requests;
      requests, order := requests - {id}, Without(order, id);
    }

    /** request_context */
    method RequestContext(id: Id) returns (context: Option<Context>)
      requires Valid()
      ensures context.Some? <==> Survives(MAX_INFLIGHT_REQUESTS, history, id)
      ensures context.Some? ==> LastIn(history, id) >= 0 && context.value == history[LastIn(history, id)].context
      ensures |requests| <= MAX_INFLIGHT_REQUESTS
    {
      hide Survives, Elems;
      StoreSurvivors(MAX_INFLIGHT_REQUESTS, history);
      assert requests.Keys == Elems(order);
      return if id in requests then Some(requests[id]) else None;
    }

    /** request_links */
    method RequestLinks(ids: seq<Id>) returns (links: seq<(Context, Id)>)
      requires Valid()
      ensures links == LinksOf(AsStore(), if |ids| > MAX_LINKS_PER_SPAN then ids[..MAX_LINKS_PER_SPAN] else ids)
    {
      var first := if |ids| > MAX_LINKS_PER_SPAN then ids[..MAX_LINKS_PER_SPAN] else ids;
      links := [];
      for k := 0 to |first|
        invariant links == LinksOf(AsStore(), first[..k])
      {
        assert first[..k + 1][..k] == first[..k];
        if first[k] in requests {
          links := links + [(requests[first[k]], first[k])];
        }
      }
      assert first[..|first|] == first;
    }

    /** clear */
    method Clear()
      modifies this
      ensures Valid() && history == []
    {
      requests, order, history := map[], [], [];
    }
  }
}
