/** The have/want transfer of amberiroh/wantsync.go: what one round asks for, how
    it is dealt over the channels, and the receiving and sending loops.
 */
module WantSync {
  import opened Wrappers
  import opened Objects
  import opened Pack

  /** Keys one TWants frame may carry. */
  const MAX_WANTS: nat := 0x8000

  // ---- what to ask for ----

  /** Keys to request now, and the remainder carried to the next round. */
  function SplitWants(wants: seq<Key>, max: nat): (r: (seq<Key>, seq<Key>))
    ensures r.0 + r.1 == wants && |r.0| <= max
    ensures |r.0| == max || r.1 == []
  {
    if |wants| <= max then (wants, []) else (wants[..max], wants[max..])
  }

  predicate Distinct(ks: seq<Key>) { forall i, j :: 0 <= i < j < |ks| ==> ks[i] != ks[j] }

  /** The incomplete keys of a frontier, first occurrences only. */
  function Needed(frontier: seq<Key>, seen: set<Key>, present: set<Key>): seq<Key>
    decreases |frontier|
  {
    if frontier == [] then []
    else if frontier[0] in seen then Needed(frontier[1..], seen, present)
    else
      var rest := Needed(frontier[1..], seen + {frontier[0]}, present);
      if Complete(frontier[0], present) then rest else [frontier[0]] + rest
  }

  lemma {:induction false} NeededMeaning(frontier: seq<Key>, seen: set<Key>, present: set<Key>)
    ensures var n := Needed(frontier, seen, present);
            && Distinct(n)
            && (forall k :: k in n <==> k in frontier && k !in seen && !Complete(k, present))
            && Sizes(n) <= Sizes(frontier)
    decreases |frontier|
  {
    if frontier != [] {
      var k := frontier[0];
      NeededMeaning(frontier[1..], if k in seen then seen else seen + {k}, present);
      assert forall x :: x in frontier <==> x == k || x in frontier[1..];
      if k !in seen && !Complete(k, present) {
        var rest := Needed(frontier[1..], seen + {k}, present);
        assert ([k] + rest)[1..] == rest;
        assert forall x :: x in [k] + rest <==> x == k || x in rest;
      }
    }
  }

  /** `wants` asks for keys of the frontier that were incomplete before, each once, and leaves out
      only keys that are complete by now. */
  ghost predicate Wanted(frontier: seq<Key>, wants: seq<Key>, before: set<Key>, now: set<Key>) {
    && Distinct(wants) && Sizes(wants) <= Sizes(frontier)
    && (forall k :: k in wants ==> k in frontier && !Complete(k, before))
    && (forall k :: k in frontier ==> k in wants || Complete(k, now))
  }

  /** One more key of the frontier: passed over as seen or as complete, or asked for. */
  lemma WantedStep(frontier: seq<Key>, i: nat, wants: seq<Key>, seen: set<Key>, before: set<Key>, now: set<Key>,
                   later: set<Key>)
    requires i < |frontier| && Wanted(frontier[..i], wants, before, now) && now <= later
    requires forall k :: k in seen <==> k in frontier[..i]
    ensures frontier[i] in seen || Complete(frontier[i], later) ==> Wanted(frontier[..i + 1], wants, before, later)
    ensures frontier[i] !in seen && !Complete(frontier[i], before) ==>
              Wanted(frontier[..i + 1], wants + [frontier[i]], before, later)
  {
    var k, front, more := frontier[i], frontier[..i], wants + [frontier[i]];
    assert frontier[..i + 1] == front + [k];
    SizesAppend(front, [k]);
    SizesAppend(wants, [k]);
    forall f | f in front ensures f in wants || Complete(f, later) {
      if f !in wants { CompleteGrows(f, now, later); }
    }
    assert forall f :: f in more <==> f in wants || f == k;
  }

  /** The loop of Wants after i keys: `seen` are those keys, and if nobody else has stored anything
      the result is going to be exactly what is needed. */
  ghost predicate Asking(frontier: seq<Key>, i: nat, wants: seq<Key>, seen: set<Key>, before: set<Key>, now: set<Key>)
    requires i <= |frontier|
  {
    && before <= now && Wanted(frontier[..i], wants, before, now)
    && (forall k :: k in seen <==> k in frontier[..i])
    && (now == before ==> wants + Needed(frontier[i..], seen, before) == Needed(frontier, {}, before))
  }

  lemma AskAgain(frontier: seq<Key>, i: nat, wants: seq<Key>, seen: set<Key>, before: set<Key>, now: set<Key>)
    requires i < |frontier| && Asking(frontier, i, wants, seen, before, now) && frontier[i] in seen
    ensures Asking(frontier, i + 1, wants, seen, before, now)
  {
    WantedStep(frontier, i, wants, seen, before, now, now);
    assert frontier[i..][1..] == frontier[i + 1..] && frontier[..i + 1] == frontier[..i] + [frontier[i]];
  }

  lemma AskStep(frontier: seq<Key>, i: nat, wants: seq<Key>, seen: set<Key>, before: set<Key>, now: set<Key>,
                later: set<Key>, want: bool)
    requires i < |frontier| && Asking(frontier, i, wants, seen, before, now) && frontier[i] !in seen && now <= later
    requires if want then !Complete(frontier[i], now) else Complete(frontier[i], later)
    ensures Asking(frontier, i + 1, if want then wants + [frontier[i]] else wants, seen + {frontier[i]}, before, later)
  {
    var k := frontier[i];
    if Complete(k, before) { CompleteGrows(k, before, now); }
    WantedStep(frontier, i, wants, seen, before, now, later);
    assert frontier[i..][1..] == frontier[i + 1..] && frontier[..i + 1] == frontier[..i] + [k];
    assert wants + ([k] + Needed(frontier[i + 1..], seen + {k}, before)) ==
           wants + [k] + Needed(frontier[i + 1..], seen + {k}, before);
  }

  /** Wants, over a store that others may be filling. */
  method WantsOf(st: PackStore, frontier: seq<Key>) returns (r: Option<seq<Key>>)
    modifies st
    ensures old(st.objects) <= st.objects
    ensures r.Some? ==> Wanted(frontier, r.value, old(st.objects), st.objects)
    ensures r.Some? && st.objects == old(st.objects) ==> r.value == Needed(frontier, {}, st.objects)
    ensures r.None? ==> st.faulty
  {
    var wants, seen := [], {};
    for i := 0 to |frontier|
      invariant old(st.objects) <= st.objects && Asking(frontier, i, wants, seen, old(st.objects), st.objects)
    {
      var k := frontier[i];
      if k in seen {
        AskAgain(frontier, i, wants, seen, old(st.objects), st.objects);
        continue;
      }
      ghost var now := st.objects;
      var presence := st.Probe(k);
      if presence.Fault? { return None; }
      AskStep(frontier, i, wants, seen, old(st.objects), now, st.objects, !presence.Whole?);
      seen := seen + {k};
      if !presence.Whole? { wants := wants + [k]; }
    }
    assert frontier[..|frontier|] == frontier;
    r := Some(wants);
  }

  // ---- dealing a round over the channels ----

  function Bytes(k: Key): (b: real)
    ensures b >= 1.0
  {
    if k.length < 1 then 1.0 else k.length as real
  }

  function Load(shard: seq<Key>): real {
    if shard == [] then 0.0 else Load(shard[..|shard| - 1]) + Bytes(shard[|shard| - 1])
  }

  /** The weight of a channel: its observed throughput, at least 1. */
  function Weight(w: int): (r: real)
    ensures r >= 1.0
  {
    if w < 1 then 1.0 else w as real
  }

  function Concat<T>(ss: seq<seq<T>>): seq<T> {
    if ss == [] then [] else ss[0] + Concat(ss[1..])
  }

  /** The subsequence of s that was sent to shard i. */
  function Sent(s: seq<Key>, to: seq<nat>, i: nat): seq<Key>
    requires |s| == |to|
  {
    if s == [] then []
    else Sent(s[..|s| - 1], to[..|s| - 1], i) + if to[|s| - 1] == i then [s[|s| - 1]] else []
  }

  /** Shard i is not ahead of shard j by more than its own last key. */
  ghost predicate Fair(shards: seq<seq<Key>>, weights: seq<int>, i: nat, j: nat)
    requires i < |shards| == |weights| && j < |shards|
  {
    shards[i] != [] ==>
      Load(shards[i]) / Weight(weights[i]) <=
        Load(shards[j]) / Weight(weights[j]) + Bytes(shards[i][|shards[i]| - 1]) / Weight(weights[i])
  }

  ghost predicate Balanced(shards: seq<seq<Key>>, weights: seq<int>)
    requires |shards| == |weights|
  {
    forall i, j :: 0 <= i < |shards| && 0 <= j < |shards| ==> Fair(shards, weights, i, j)
  }

  /** Channel i is loaded no more than channel j, for its weight. */
  predicate Lighter(loads: seq<real>, weights: seq<int>, i: nat, j: nat)
    requires i < |loads| == |weights| && j < |loads|
  {
    loads[i] / Weight(weights[i]) <= loads[j] / Weight(weights[j])
  }

  lemma DivAdd(a: real, b: real, w: real)
    requires w > 0.0
    ensures (a + b) / w == a / w + b / w
  {
  }

  lemma DivGrows(a: real, b: real, w: real)
    requires w > 0.0 && b >= 0.0
    ensures (a + b) / w >= a / w
  {
    DivAdd(a, b, w);
  }

  /** Giving one more key to the least loaded shard keeps the deal balanced. */
  lemma DealOne(shards: seq<seq<Key>>, loads: seq<real>, weights: seq<int>, best: nat, k: Key)
    requires |shards| == |weights| == |loads| && best < |shards| && Balanced(shards, weights)
    requires forall i :: 0 <= i < |loads| ==> loads[i] == Load(shards[i])
    requires forall j :: 0 <= j < |shards| ==> Lighter(loads, weights, best, j)
    ensures Balanced(shards[best := shards[best] + [k]], weights)
  {
    var dealt := shards[best := shards[best] + [k]];
    var wb := Weight(weights[best]);
    assert dealt[best][..|dealt[best]| - 1] == shards[best];
    assert Load(dealt[best]) == Load(shards[best]) + Bytes(k);
    DivAdd(Load(shards[best]), Bytes(k), wb);
    DivGrows(Load(shards[best]), Bytes(k), wb);
    DivGrows(0.0, Bytes(k), wb);
    forall i, j | 0 <= i < |dealt| && 0 <= j < |dealt| ensures Fair(dealt, weights, i, j) {
      assert Fair(shards, weights, i, j) && Lighter(loads, weights, best, j);
    }
  }

  lemma {:induction false} ConcatUpdate(ss: seq<seq<Key>>, i: nat, k: Key)
    requires i < |ss|
    ensures multiset(Concat(ss[i := ss[i] + [k]])) == multiset(Concat(ss)) + multiset{k}
    decreases |ss|
  {
    var u, rest := ss[i := ss[i] + [k]], ss[1..];
    if i == 0 {
      assert u[1..] == rest && Concat(u) == ss[0] + [k] + Concat(rest);
    } else {
      assert u[1..] == rest[i - 1 := rest[i - 1] + [k]];
      ConcatUpdate(rest, i - 1, k);
    }
    assert Concat(ss) == ss[0] + Concat(rest);
  }

  lemma {:induction false} ConcatEmpty(ss: seq<seq<Key>>)
    requires forall i :: 0 <= i < |ss| ==> ss[i] == []
    ensures Concat(ss) == []
    decreases |ss|
  {
    if ss != [] { ConcatEmpty(ss[1..]); }
  }

  /** The keys of `wants` have been dealt: all of them, each shard in their order. */
  ghost predicate Dealt(shards: seq<seq<Key>>, wants: seq<Key>, to: seq<nat>) {
    && |to| == |wants|
    && (forall i :: 0 <= i < |to| ==> to[i] < |shards|)
    && (forall i :: 0 <= i < |shards| ==> shards[i] == Sent(wants, to, i))
    && multiset(Concat(shards)) == multiset(wants)
  }

  lemma SentSnoc(wants: seq<Key>, to: seq<nat>, best: nat, k: Key, i: nat)
    requires |to| == |wants|
    ensures Sent(wants + [k], to + [best], i) == Sent(wants, to, i) + if best == i then [k] else []
  {
    assert (wants + [k])[..|wants|] == wants && (to + [best])[..|to|] == to;
  }

  lemma LoadSnoc(shard: seq<Key>, k: Key)
    ensures Load(shard + [k]) == Load(shard) + Bytes(k)
  {
    assert (shard + [k])[..|shard|] == shard;
  }

  lemma DealStep(shards: seq<seq<Key>>, wants: seq<Key>, to: seq<nat>, best: nat, k: Key)
    requires Dealt(shards, wants, to) && best < |shards|
    ensures Dealt(shards[best := shards[best] + [k]], wants + [k], to + [best])
  {
    var dealt := shards[best := shards[best] + [k]];
    ConcatUpdate(shards, best, k);
    forall i | 0 <= i < |dealt| ensures dealt[i] == Sent(wants + [k], to + [best], i) {
      SentSnoc(wants, to, best, k, i);
      assert shards[i] == Sent(wants, to, i);
    }
  }

  /** The deal so far: m keys dealt, balanced, and the loads of the shards. */
  ghost predicate Dealing(shards: seq<seq<Key>>, loads: seq<real>, wants: seq<Key>, to: seq<nat>, weights: seq<int>) {
    && |loads| == |shards| == |weights| && Dealt(shards, wants, to) && Balanced(shards, weights)
    && (forall i :: 0 <= i < |loads| ==> loads[i] == Load(shards[i]))
  }

  lemma DealingStart(shards: seq<seq<Key>>, loads: seq<real>, weights: seq<int>)
    requires |loads| == |shards| == |weights|
    requires forall i :: 0 <= i < |shards| ==> shards[i] == [] && loads[i] == 0.0
    ensures Dealing(shards, loads, [], [], weights)
  {
    ConcatEmpty(shards);
    forall i, j | 0 <= i < |shards| && 0 <= j < |shards| ensures Fair(shards, weights, i, j) {}
  }

  lemma DealingStep(shards: seq<seq<Key>>, loads: seq<real>, wants: seq<Key>, to: seq<nat>, weights: seq<int>,
                    best: nat, k: Key)
    requires Dealing(shards, loads, wants, to, weights) && best < |shards|
    requires forall j :: 0 <= j < |loads| ==> Lighter(loads, weights, best, j)
    ensures Dealing(shards[best := shards[best] + [k]], loads[best := loads[best] + Bytes(k)], wants + [k], to + [best],
                    weights)
  {
    DealOne(shards, loads, weights, best, k);
    DealStep(shards, wants, to, best, k);
    LoadSnoc(shards[best], k);
  }

  lemma DealtToOne(wants: seq<Key>, weight: int)
    ensures Dealt([wants], wants, seq(|wants|, i => 0)) && Balanced([wants], [weight])
  {
    AllToOne(wants, seq(|wants|, i => 0));
    DivGrows(0.0, if wants == [] then 0.0 else Bytes(wants[|wants| - 1]), Weight(weight));
    assert Concat([wants]) == wants + Concat([]);
    assert Fair([wants], [weight], 0, 0);
  }

  method LeastLoaded(loads: seq<real>, weights: seq<int>) returns (best: nat)
    requires |loads| == |weights| && |loads| >= 1
    ensures best < |loads|
    ensures forall j :: 0 <= j < |loads| ==> Lighter(loads, weights, best, j)
    ensures forall j :: 0 <= j < best ==> !Lighter(loads, weights, j, best)
  {
    best := 0;
    for i := 1 to |loads|
      invariant best < |loads|
      invariant forall j :: 0 <= j < i ==> Lighter(loads, weights, best, j)
      invariant forall j :: 0 <= j < best ==> !Lighter(loads, weights, j, best)
    {
      if !Lighter(loads, weights, best, i) {
        forall j | 0 <= j < i ensures Lighter(loads, weights, i, j) && !Lighter(loads, weights, j, i) {
          assert Lighter(loads, weights, best, j);
        }
        best := i;
      }
    }
  }

  /** The bytes of a shard, an empty object counting as one. */
  function Total(shard: seq<Key>): nat {
    if shard == [] then 0
    else
      var last := shard[|shard| - 1];
      Total(shard[..|shard| - 1]) + if last.length == 0 then 1 else last.length
  }

  lemma {:induction false} LoadIsTotal(shard: seq<Key>)
    ensures Load(shard) == Total(shard) as real
    decreases |shard|
  {
    if shard != [] { LoadIsTotal(shard[..|shard| - 1]); }
  }

  /** Weighed by the throughput of the channels, of which one below 1 counts as 1, shard i is ahead
      of shard j by no more than its own last key. */
  ghost predicate Even(shards: seq<seq<Key>>, weights: seq<int>, i: nat, j: nat)
    requires i < |shards| == |weights| && j < |shards|
  {
    var w, v := if weights[i] < 1 then 1 else weights[i], if weights[j] < 1 then 1 else weights[j];
    shards[i] != [] ==>
      NotFarAhead(Total(shards[i]) as real, Total(shards[j]) as real, Total([shards[i][|shards[i]| - 1]]) as real,
                  w as real, v as real)
  }

  /** The load a of a channel of weight x is ahead of the load b of one of weight y by at most c. */
  ghost predicate NotFarAhead(a: real, b: real, c: real, x: real, y: real) { a * y <= b * x + c * y }

  lemma CrossMultiply(a: real, b: real, c: real, x: real, y: real)
    requires x > 0.0 && y > 0.0 && a / x <= b / y + c / x
    ensures NotFarAhead(a, b, c, x, y)
  {
    var p, q, r := a / x, b / y, c / x;
    assert a == p * x && b == q * y && c == r * x;
    assert p * (x * y) <= (q + r) * (x * y);
    assert p * (x * y) == a * y && q * (x * y) == b * x && r * (x * y) == c * y;
  }

  lemma FairIsEven(shards: seq<seq<Key>>, weights: seq<int>, i: nat, j: nat)
    requires i < |shards| == |weights| && j < |shards| && Fair(shards, weights, i, j)
    ensures Even(shards, weights, i, j)
  {
    if shards[i] != [] {
      var last := shards[i][|shards[i]| - 1];
      LoadIsTotal(shards[i]);
      LoadIsTotal(shards[j]);
      LoadIsTotal([last]);
      assert [last][..0] == [];
      CrossMultiply(Load(shards[i]), Load(shards[j]), Bytes(last), Weight(weights[i]), Weight(weights[j]));
    }
  }

  /** dealWants: each key goes to the channel with the lowest load for its weight. */
  method DealWants(wants: seq<Key>, weights: seq<int>) returns (shards: seq<seq<Key>>, ghost to: seq<nat>)
    requires |weights| >= 1
    ensures |shards| == |weights| && Dealt(shards, wants, to) && Balanced(shards, weights)
    ensures forall i, j :: 0 <= i < |shards| && 0 <= j < |shards| ==> Even(shards, weights, i, j)
  {
    shards, to := DealBalanced(wants, weights);
    forall i, j | 0 <= i < |shards| && 0 <= j < |shards| ensures Even(shards, weights, i, j) {
      FairIsEven(shards, weights, i, j);
    }
  }

  method DealBalanced(wants: seq<Key>, weights: seq<int>) returns (shards: seq<seq<Key>>, ghost to: seq<nat>)
    requires |weights| >= 1
    ensures |shards| == |weights| && Dealt(shards, wants, to) && Balanced(shards, weights)
  {
    var n := |weights|;
    if n == 1 {
      DealtToOne(wants, weights[0]);
      assert weights == [weights[0]];
      return [wants], seq(|wants|, i => 0);
    }
    shards, to := seq(n, i => []), [];
    var loads: seq<real> := seq(n, i => 0.0);
    DealingStart(shards, loads, weights);
    assert wants[..0] == [];
    for m := 0 to |wants|
      invariant Dealing(shards, loads, wants[..m], to, weights)
    {
      var k := wants[m];
      var best := LeastLoaded(loads, weights);
      DealingStep(shards, loads, wants[..m], to, weights, best, k);
      assert wants[..m + 1] == wants[..m] + [k];
      loads := loads[best := loads[best] + Bytes(k)];
      shards := shards[best := shards[best] + [k]];
      to := to + [best];
    }
    assert wants[..|wants|] == wants;
  }

  lemma {:induction false} AllToOne(s: seq<Key>, to: seq<nat>)
    requires |s| == |to| && forall i :: 0 <= i < |to| ==> to[i] == 0
    ensures Sent(s, to, 0) == s
    decreases |s|
  {
    if s != [] {
      AllToOne(s[..|s| - 1], to[..|s| - 1]);
      assert s == s[..|s| - 1] + [s[|s| - 1]];
    }
  }

  // ---- was everything delivered? ----

  method CheckDelivered(received: set<Key>, wants: seq<Key>) returns (ok: bool)
    ensures ok <==> forall k :: k in wants ==> k in received
  {
    var missing := 0;
    for i := 0 to |wants|
      invariant missing >= 0
      invariant missing == 0 <==> forall j :: 0 <= j < i ==> wants[j] in received
    {
      if wants[i] !in received { missing := missing + 1; }
    }
    ok := missing == 0;
  }
}
