/** The shard-connection pool of amberclient/pool.go. Each method below is one
    critical section of the source's mutex, or one of the close calls it makes
    outside it; any order of calls is an interleaving.
 */
module ShardPool {
  import opened Wrappers

  /** Transfers a connection may serve before it is rotated. */
  const POOL_ENTRY_MAX_USES: nat := 90

  /** Seconds a connection may sit on a relay before it is given up. */
  const PUNCH_ABANDON: nat := 300

  /** A dialed connection, numbered in the order the dials came back. */
  type Conn = nat

  /** The release closure that one acquire hands out. */
  type Ticket = nat

  /** A pool entry; the identity is None when it is the zero identity. */
  datatype Info = Info(id: Option<nat>, streams: nat, uses: nat, dialed: int, lastUsed: int)

  /** What the pool observes of the world at one instant: connections that are dead or ride a
      relay, the time, and the endpoints the server advertises, each with its identity unless that
      is unreadable. */
  datatype Env = Env(dead: set<Conn>, relayed: set<Conn>, now: int, endpoints: seq<Option<nat>>)

  /** Dead, or of an identity the server no longer advertises. */
  predicate Gone(env: Env, c: Conn, i: Info) {
    c in env.dead || (env.endpoints != [] && i.id.Some? && i.id !in env.endpoints)
  }

  /** Due for rotation, or a punch that never landed; only ever for an idle entry. */
  predicate Replaceable(env: Env, c: Conn, i: Info) {
    i.streams == 0 && (i.uses >= POOL_ENTRY_MAX_USES || (env.now - i.dialed > PUNCH_ABANDON && c in env.relayed))
  }

  predicate Stale(env: Env, c: Conn, i: Info) { Gone(env, c, i) || Replaceable(env, c, i) }

  /** The connection cannot serve on: it is dead, or the server advertises endpoints and the
      identity of the connection, which is known, is none of them. */
  predicate Lost(env: Env, c: Conn, i: Info) {
    || c in env.dead
    || (|env.endpoints| > 0 && i.id.Some? && forall e :: e in env.endpoints ==> e != i.id)
  }

  /** An idle connection that has served 90 transfers, or rides a relay five minutes after its dial. */
  predicate Worn(env: Env, c: Conn, i: Info) {
    i.streams == 0 && (i.uses >= 90 || (c in env.relayed && env.now > i.dialed + 300))
  }

  lemma StaleMeans(env: Env, c: Conn, i: Info)
    ensures Gone(env, c, i) <==> Lost(env, c, i)
    ensures Stale(env, c, i) <==> Lost(env, c, i) || Worn(env, c, i)
  {
  }

  predicate Distinct(s: seq<Conn>) { forall i, j :: 0 <= i < j < |s| ==> s[i] != s[j] }

  function Filter(s: seq<Conn>, drop: set<Conn>): seq<Conn> {
    if s == [] then []
    else
      var rest := Filter(s[..|s| - 1], drop);
      if s[|s| - 1] in drop then rest else rest + [s[|s| - 1]]
  }

  lemma {:induction false} FilterMembers(s: seq<Conn>, drop: set<Conn>)
    ensures forall c :: c in Filter(s, drop) <==> c in s && c !in drop
    decreases |s|
  {
    if s != [] {
      FilterMembers(s[..|s| - 1], drop);
      assert s == s[..|s| - 1] + [s[|s| - 1]];
    }
  }

  lemma {:induction false} FilterDistinct(s: seq<Conn>, drop: set<Conn>)
    requires Distinct(s)
    ensures Distinct(Filter(s, drop))
    decreases |s|
  {
    if s != [] {
      var init, last := s[..|s| - 1], s[|s| - 1];
      FilterDistinct(init, drop);
      FilterMembers(init, drop);
      assert last !in init;
    }
  }

  lemma {:induction false} FilterShortens(s: seq<Conn>, drop: set<Conn>)
    ensures |Filter(s, drop)| <= |s|
    decreases |s|
  {
    if s != [] { FilterShortens(s[..|s| - 1], drop); }
  }

  lemma FilterMeaning(s: seq<Conn>, drop: set<Conn>)
    ensures forall c :: c in Filter(s, drop) <==> c in s && c !in drop
    ensures Distinct(s) ==> Distinct(Filter(s, drop))
    ensures |Filter(s, drop)| <= |s|
  {
    FilterMembers(s, drop);
    if Distinct(s) { FilterDistinct(s, drop); }
    FilterShortens(s, drop);
  }

  lemma {:induction false} FilterAll(s: seq<Conn>, drop: set<Conn>)
    requires forall c :: c in s ==> c in drop
    ensures Filter(s, drop) == []
    decreases |s|
  {
    if s != [] { FilterAll(s[..|s| - 1], drop); }
  }

  // ---- sorting ----

  /** Stable insertion of c behind everything that may stand before it. */
  function Insert(c: Conn, s: seq<Conn>, before: (Conn, Conn) -> bool): seq<Conn> {
    if s == [] then [c]
    else if before(s[|s| - 1], c) then s + [c]
    else Insert(c, s[..|s| - 1], before) + [s[|s| - 1]]
  }

  function Sort(s: seq<Conn>, before: (Conn, Conn) -> bool): seq<Conn> {
    if s == [] then [] else Insert(s[|s| - 1], Sort(s[..|s| - 1], before), before)
  }

  ghost predicate Ordering(before: (Conn, Conn) -> bool) {
    && (forall a, b :: before(a, b) || before(b, a))
    && (forall a, b, c :: before(a, b) && before(b, c) ==> before(a, c))
  }

  ghost predicate Sorted(s: seq<Conn>, before: (Conn, Conn) -> bool) {
    forall i, j :: 0 <= i < j < |s| ==> before(s[i], s[j])
  }

  lemma {:induction false} InsertPermutes(c: Conn, s: seq<Conn>, before: (Conn, Conn) -> bool)
    ensures multiset(Insert(c, s, before)) == multiset(s) + multiset{c}
    decreases |s|
  {
    if s != [] {
      assert s == s[..|s| - 1] + [s[|s| - 1]];
      InsertPermutes(c, s[..|s| - 1], before);
    }
  }

  lemma InsertMembers(c: Conn, s: seq<Conn>, before: (Conn, Conn) -> bool)
    ensures forall x :: x in Insert(c, s, before) <==> x == c || x in s
  {
    InsertPermutes(c, s, before);
    forall x ensures x in Insert(c, s, before) <==> x == c || x in s {
      assert x in Insert(c, s, before) <==> x in multiset(Insert(c, s, before));
      assert x in s <==> x in multiset(s);
    }
  }

  lemma {:induction false} InsertSorts(c: Conn, s: seq<Conn>, before: (Conn, Conn) -> bool)
    requires Ordering(before) && Sorted(s, before)
    ensures Sorted(Insert(c, s, before), before)
    decreases |s|
  {
    if s != [] {
      var init, last := s[..|s| - 1], s[|s| - 1];
      assert s == init + [last];
      if before(last, c) {
        forall i | 0 <= i < |s| ensures before(s[i], c) {
          assert i < |s| - 1 ==> before(s[i], last);
        }
      } else {
        InsertSorts(c, init, before);
        InsertMembers(c, init, before);
        var r := Insert(c, init, before);
        forall i | 0 <= i < |r| ensures before(r[i], last) { assert r[i] == c || r[i] in init; }
      }
    }
  }

  lemma {:induction false} SortSorts(s: seq<Conn>, before: (Conn, Conn) -> bool)
    requires Ordering(before)
    ensures Sorted(Sort(s, before), before) && multiset(Sort(s, before)) == multiset(s)
    decreases |s|
  {
    if s != [] {
      assert s == s[..|s| - 1] + [s[|s| - 1]];
      SortSorts(s[..|s| - 1], before);
      InsertSorts(s[|s| - 1], Sort(s[..|s| - 1], before), before);
      InsertPermutes(s[|s| - 1], Sort(s[..|s| - 1], before), before);
    }
  }

  /** The connections of s that rank with x. */
  function Ties(s: seq<Conn>, x: Conn, before: (Conn, Conn) -> bool): seq<Conn> {
    if s == [] then []
    else
      var last := s[|s| - 1];
      Ties(s[..|s| - 1], x, before) + if before(x, last) && before(last, x) then [last] else []
  }

  lemma {:induction false} InsertStable(c: Conn, s: seq<Conn>, x: Conn, before: (Conn, Conn) -> bool)
    requires Ordering(before)
    ensures Ties(Insert(c, s, before), x, before) == Ties(s + [c], x, before)
    decreases |s|
  {
    assert (s + [c])[..|s|] == s;
    if s != [] && !before(s[|s| - 1], c) {
      var init, last := s[..|s| - 1], s[|s| - 1];
      InsertStable(c, init, x, before);
      var r := Insert(c, init, before);
      assert (r + [last])[..|r|] == r && (init + [c])[..|init|] == init;
      assert !(before(x, last) && before(last, x) && before(x, c) && before(c, x));
    } else if s == [] {
      assert s + [c] == [c];
    }
  }

  /** Sorting is stable: connections of equal rank keep their order. */
  lemma {:induction false} SortStable(s: seq<Conn>, x: Conn, before: (Conn, Conn) -> bool)
    requires Ordering(before)
    ensures Ties(Sort(s, before), x, before) == Ties(s, x, before)
    decreases |s|
  {
    if s != [] {
      var init, last := s[..|s| - 1], s[|s| - 1];
      SortStable(init, x, before);
      var t := Sort(init, before);
      InsertStable(last, t, x, before);
      assert (t + [last])[..|t|] == t;
    }
  }

  lemma {:induction false} CountIfDistinct(s: seq<Conn>, c: Conn)
    ensures Distinct(s) ==> multiset(s)[c] <= 1
    decreases |s|
  {
    if s != [] {
      var init, last := s[..|s| - 1], s[|s| - 1];
      assert s == init + [last];
      CountIfDistinct(init, c);
      assert Distinct(s) ==> last !in init;
    }
  }

  lemma {:induction false} DistinctIfCount(s: seq<Conn>)
    requires forall c :: multiset(s)[c] <= 1
    ensures Distinct(s)
    decreases |s|
  {
    if s != [] {
      var init, last := s[..|s| - 1], s[|s| - 1];
      assert s == init + [last];
      assert multiset(s)[last] == multiset(init)[last] + 1;
      assert last !in init;
      forall c ensures multiset(init)[c] <= 1 { assert multiset(s)[c] >= multiset(init)[c]; }
      DistinctIfCount(init);
    }
  }

  /** A permutation of distinct connections is distinct and holds the same ones. */
  lemma PermutationKeeps(s: seq<Conn>, t: seq<Conn>)
    requires Distinct(s) && multiset(s) == multiset(t)
    ensures Distinct(t) && |t| == |s| && forall c :: c in t <==> c in s
  {
    forall c ensures multiset(t)[c] <= 1 { CountIfDistinct(s, c); }
    DistinctIfCount(t);
    assert |s| == |multiset(s)| && |t| == |multiset(t)|;
    forall c ensures c in t <==> c in s { assert c in t <==> c in multiset(t); }
  }

  // ---- reservations ----

  /** The unreleased reservations that hold c. */
  function Holders(held: map<Ticket, seq<Conn>>, c: Conn): set<Ticket> { set t | t in held && c in held[t] }

  lemma HoldersAdd(held: map<Ticket, seq<Conn>>, t: Ticket, picked: seq<Conn>, c: Conn)
    requires t !in held
    ensures |Holders(held[t := picked], c)| == |Holders(held, c)| + if c in picked then 1 else 0
  {
    assert Holders(held[t := picked], c) == Holders(held, c) + if c in picked then {t} else {};
  }

  lemma HoldersRemove(held: map<Ticket, seq<Conn>>, t: Ticket, c: Conn)
    requires t in held
    ensures |Holders(held - {t}, c)| == |Holders(held, c)| - if c in held[t] then 1 else 0
  {
    assert Holders(held, c) == Holders(held - {t}, c) + if c in held[t] then {t} else {};
  }

  function SetOf(s: seq<Conn>): set<Conn> { set c | c in s }

  /** Every entry of cs serves one more transfer. */
  function Taken(info: map<Conn, Info>, cs: set<Conn>, now: int): map<Conn, Info> {
    map c | c in info ::
      if c in cs then info[c].(streams := info[c].streams + 1, uses := info[c].uses + 1, lastUsed := now)
      else info[c]
  }

  /** Every entry of cs serves one transfer less. */
  function Returned(info: map<Conn, Info>, cs: set<Conn>, now: int): map<Conn, Info> {
    map c | c in info ::
      if c in cs && info[c].streams > 0 then info[c].(streams := info[c].streams - 1, lastUsed := now) else info[c]
  }

  ghost predicate CountsMatch(info: map<Conn, Info>, held: map<Ticket, seq<Conn>>) {
    forall c {:trigger CountMatches(info, held, c)} :: c in info ==> CountMatches(info, held, c)
  }

  ghost predicate CountMatches(info: map<Conn, Info>, held: map<Ticket, seq<Conn>>, c: Conn)
    requires c in info
  {
    info[c].streams == |Holders(held, c)|
  }

  /** Stream counts follow the reservations when one is returned. */
  lemma ReturnCounts(info: map<Conn, Info>, held: map<Ticket, seq<Conn>>, t: Ticket, now: int)
    requires t in held && TicketsValid(info, held)
    ensures TicketsValid(Returned(info, SetOf(held[t]), now), held - {t})
    ensures Returned(info, SetOf(held[t]), now).Keys == info.Keys && |held - {t}| == |held| - 1
  {
    var info', held' := Returned(info, SetOf(held[t]), now), held - {t};
    forall c | c in info' ensures CountMatches(info', held', c) {
      assert CountMatches(info, held, c);
      HoldersRemove(held, t, c);
      if c in held[t] { assert t in Holders(held, c); }
    }
    forall u | u in held' ensures Booked(info', held', u) {
      assert Booked(info, held, u);
    }
  }

  lemma HeldInUse(info: map<Conn, Info>, held: map<Ticket, seq<Conn>>, t: Ticket)
    requires t in held && TicketsValid(info, held)
    ensures forall c :: c in info && c in held[t] ==> info[c].streams > 0
  {
    forall c | c in info && c in held[t] ensures info[c].streams > 0 {
      assert CountMatches(info, held, c) && t in Holders(held, c);
    }
  }

  /** A connection that has just been dialed is held by nobody. */
  lemma NewConnUnheld(info: map<Conn, Info>, held: map<Ticket, seq<Conn>>, c: Conn, i: Info)
    requires TicketsValid(info, held) && c !in info && i.streams == 0
    ensures TicketsValid(info[c := i], held)
  {
    var info' := info[c := i];
    forall t | t in held ensures Booked(info', held, t) && c !in held[t] {
      assert Booked(info, held, t);
    }
    assert Holders(held, c) == {};
    forall d | d in info' ensures CountMatches(info', held, d) {
      assert d in info ==> CountMatches(info, held, d);
    }
  }

  /** And when one is handed out. */
  lemma TakeCounts(info: map<Conn, Info>, held: map<Ticket, seq<Conn>>, t: Ticket, picked: seq<Conn>, now: int)
    requires t !in held && TicketsValid(info, held)
    requires Distinct(picked) && forall c :: c in picked ==> c in info
    ensures TicketsValid(Taken(info, SetOf(picked), now), held[t := picked])
  {
    var info', held' := Taken(info, SetOf(picked), now), held[t := picked];
    forall c | c in info' ensures CountMatches(info', held', c) {
      assert CountMatches(info, held, c);
      HoldersAdd(held, t, picked, c);
    }
    forall u | u in held' ensures Booked(info', held', u) {
      assert u != t ==> Booked(info, held, u);
    }
  }

  /** An acquire between its two critical sections. */
  datatype Want = Want(k: nat, directOnly: bool)

  /** A dialed connection is pooled, or taken out and about to be closed, or closed. */
  ghost predicate Accounted(entries: seq<Conn>, closing: seq<Conn>, closes: set<Conn>, c: Conn) {
    || (c in entries && c !in closing && c !in closes)
    || (c !in entries && c in closing && c !in closes)
    || (c !in entries && c !in closing && c in closes)
  }

  /** Every connection dialed so far stands in exactly one of the three places, once. */
  ghost predicate ConnsValid(entries: seq<Conn>, closing: seq<Conn>, closes: set<Conn>, dialed: set<Conn>) {
    && Distinct(entries) && Distinct(closing)
    && (forall c :: c in entries || c in closing || c in closes ==> c in dialed)
    && (forall c {:trigger Accounted(entries, closing, closes, c)} :: c in dialed ==>
          Accounted(entries, closing, closes, c))
  }

  /** Reservations hold dialed connections, each once, and the stream counts count them. */
  ghost predicate TicketsValid(info: map<Conn, Info>, held: map<Ticket, seq<Conn>>) {
    && (forall t {:trigger Booked(info, held, t)} :: t in held ==> Booked(info, held, t))
    && CountsMatch(info, held)
  }

  ghost predicate Booked(info: map<Conn, Info>, held: map<Ticket, seq<Conn>>, t: Ticket)
    requires t in held
  {
    Distinct(held[t]) && forall c :: c in held[t] ==> c in info
  }

  /** Closing the entries of `drop` leaves every connection accounted for. */
  lemma CloseLemma(entries: seq<Conn>, closing: seq<Conn>, closes: set<Conn>, dialed: set<Conn>, drop: set<Conn>)
    requires ConnsValid(entries, closing, closes, dialed)
    ensures ConnsValid(Filter(entries, drop), closing, closes + SetOf(entries) * drop, dialed)
  {
    FilterMeaning(entries, drop);
    forall c | c in dialed
      ensures Accounted(Filter(entries, drop), closing, closes + SetOf(entries) * drop, c)
    {
      assert Accounted(entries, closing, closes, c);
    }
  }

  /** A pooled connection has not been closed. */
  lemma EntryIsOpen(entries: seq<Conn>, closing: seq<Conn>, closes: set<Conn>, dialed: set<Conn>, i: nat)
    requires ConnsValid(entries, closing, closes, dialed) && i < |entries|
    ensures entries[i] !in closes && entries[i] !in SetOf(entries[..i])
  {
    assert entries[i] in entries;
    assert Accounted(entries, closing, closes, entries[i]);
  }

  lemma Snoc(s: seq<Conn>, i: nat, drop: set<Conn>)
    requires i < |s|
    ensures SetOf(s[..i + 1]) == SetOf(s[..i]) + {s[i]}
    ensures Filter(s[..i + 1], drop) == if s[i] in drop then Filter(s[..i], drop) else Filter(s[..i], drop) + [s[i]]
  {
    assert s[..i + 1] == s[..i] + [s[i]];
    assert s[..i + 1][..i] == s[..i];
  }

  // ---- choosing connections ----

  function Take(s: seq<Conn>, k: nat): seq<Conn> { if |s| <= k then s else s[..k] }

  function StreamsOf(info: map<Conn, Info>, c: Conn): nat { if c in info then info[c].streams else 0 }

  function UsedOf(info: map<Conn, Info>, c: Conn): int { if c in info then info[c].lastUsed else 0 }

  /** Least loaded first, and among equals the one used last. */
  function LighterFirst(info: map<Conn, Info>): (Conn, Conn) -> bool {
    (a: Conn, b: Conn) =>
      || StreamsOf(info, a) < StreamsOf(info, b)
      || (StreamsOf(info, a) == StreamsOf(info, b) && UsedOf(info, a) >= UsedOf(info, b))
  }

  ghost predicate NoHeavier(info: map<Conn, Info>, c: Conn, d: Conn) {
    c in info && d in info &&
    if info[c].streams == info[d].streams then info[c].lastUsed >= info[d].lastUsed
    else info[c].streams < info[d].streams
  }

  lemma LighterMeans(info: map<Conn, Info>, c: Conn, d: Conn)
    requires c in info && d in info
    ensures LighterFirst(info)(c, d) <==> NoHeavier(info, c, d)
  {
    assert StreamsOf(info, c) == info[c].streams && StreamsOf(info, d) == info[d].streams;
  }

  /** A direct-only transfer leaves relayed entries parked. */
  function Skipped(w: Want, env: Env): set<Conn> { if w.directOnly then env.relayed else {} }

  /** `picked` are usable entries, each once; k of them, or all there are; and each ranks before
      every usable entry that was passed over: fewer streams, or as many and used no earlier. */
  ghost predicate LeastLoaded(entries: seq<Conn>, info: map<Conn, Info>, skip: set<Conn>, k: nat, picked: seq<Conn>) {
    && Distinct(picked) && |picked| <= k
    && (forall c :: c in picked ==> c in entries && c !in skip && c in info)
    && (|picked| < k ==> forall c :: c in entries && c !in skip ==> c in picked)
    && (forall c, d :: c in picked && d in entries && d !in skip && d !in picked ==> NoHeavier(info, c, d))
  }

  lemma {:induction false} FilterSorted(s: seq<Conn>, drop: set<Conn>, before: (Conn, Conn) -> bool)
    requires Sorted(s, before)
    ensures Sorted(Filter(s, drop), before)
    decreases |s|
  {
    if s != [] {
      var init, last := s[..|s| - 1], s[|s| - 1];
      FilterSorted(init, drop, before);
      FilterMeaning(init, drop);
      var f := Filter(init, drop);
      forall i | 0 <= i < |f| ensures before(f[i], last) {
        assert f[i] in f;
        var j :| 0 <= j < |init| && init[j] == f[i];
        assert s[j] == f[i];
      }
    }
  }

  lemma SortedEntries(entries: seq<Conn>, before: (Conn, Conn) -> bool)
    requires Ordering(before) && Distinct(entries)
    ensures var s := Sort(entries, before);
            Sorted(s, before) && multiset(s) == multiset(entries) && Distinct(s) && |s| == |entries| &&
              forall c :: c in s <==> c in entries
  {
    SortSorts(entries, before);
    PermutationKeeps(entries, Sort(entries, before));
  }

  lemma ReorderConns(entries: seq<Conn>, entries': seq<Conn>, closing: seq<Conn>, closes: set<Conn>, dialed: set<Conn>)
    requires ConnsValid(entries, closing, closes, dialed)
    requires Distinct(entries') && forall c :: c in entries' <==> c in entries
    ensures ConnsValid(entries', closing, closes, dialed)
  {
    forall c | c in dialed ensures Accounted(entries', closing, closes, c) {
      assert Accounted(entries, closing, closes, c);
    }
  }

  lemma PickedAreLightest(entries: seq<Conn>, sorted: seq<Conn>, info: map<Conn, Info>, skip: set<Conn>, k: nat)
    requires Sorted(sorted, LighterFirst(info)) && Distinct(sorted) && (forall c :: c in sorted <==> c in entries)
    requires forall c :: c in entries ==> c in info
    ensures LeastLoaded(entries, info, skip, k, Take(Filter(sorted, skip), k))
  {
    var f := Filter(sorted, skip);
    var picked := Take(f, k);
    FilterMeaning(sorted, skip);
    FilterSorted(sorted, skip, LighterFirst(info));
    forall c | c in picked ensures c in f {}
    forall c, d | c in picked && d in f && d !in picked ensures NoHeavier(info, c, d) {
      var i :| 0 <= i < |picked| && picked[i] == c;
      var j :| 0 <= j < |f| && f[j] == d;
      assert i < j && f[i] == c;
      assert LighterFirst(info)(f[i], f[j]);
      LighterMeans(info, c, d);
    }
  }

  lemma PickLemma(entries: seq<Conn>, closing: seq<Conn>, closes: set<Conn>, info: map<Conn, Info>,
                  held: map<Ticket, seq<Conn>>,
                  t: Ticket, skip: set<Conn>, k: nat, now: int)
    requires ConnsValid(entries, closing, closes, info.Keys) && TicketsValid(info, held) && t !in held
    ensures var sorted := Sort(entries, LighterFirst(info));
            var picked := Take(Filter(sorted, skip), k);
            && ConnsValid(sorted, closing, closes, info.Keys)
            && |sorted| == |entries| && multiset(sorted) == multiset(entries)
            && LeastLoaded(entries, info, skip, k, picked)
            && TicketsValid(Taken(info, SetOf(picked), now), held[t := picked])
  {
    var sorted := Sort(entries, LighterFirst(info));
    var picked := Take(Filter(sorted, skip), k);
    SortedEntries(entries, LighterFirst(info));
    ReorderConns(entries, sorted, closing, closes, info.Keys);
    PickedAreLightest(entries, sorted, info, skip, k);
    TakeCounts(info, held, t, picked, now);
  }

  /** Walks the sorted entries, taking the first k usable ones and counting the parked ones. */
  method TakeUsable(entries: seq<Conn>, skip: set<Conn>, k: nat) returns (picked: seq<Conn>, parked: nat)
    ensures picked == Take(Filter(entries, skip), k)
    ensures parked == |entries| - |Filter(entries, skip)|
  {
    picked, parked := [], 0;
    for i := 0 to |entries|
      invariant picked == Take(Filter(entries[..i], skip), k)
      invariant parked == i - |Filter(entries[..i], skip)|
    {
      Snoc(entries, i, skip);
      if entries[i] in skip {
        parked := parked + 1;
      } else if |picked| < k {
        picked := picked + [entries[i]];
      }
    }
    assert entries[..|entries|] == entries;
  }

  /** The outcome of a pick: the entries reordered, the entries' state, the connections handed
      out, which of them are used for the first time, and how many were withheld as parked. */
  datatype Picking = Picking(entries: seq<Conn>, info: map<Conn, Info>, picked: seq<Conn>, firstUse: map<Conn, bool>,
                             parked: nat)

  ghost predicate PickedFrom(entries: seq<Conn>, info: map<Conn, Info>, skip: set<Conn>, k: nat, now: int, p: Picking) {
    && multiset(p.entries) == multiset(entries)
    && LeastLoaded(entries, info, skip, k, p.picked)
    && p.info.Keys == info.Keys && (forall c :: c in info ==> p.info[c] == OneMoreUse(info[c], c in p.picked, now))
    && p.firstUse == (map c | c in p.picked :: c in info && info[c].uses == 0)
    && p.parked == |Withheld(entries, skip)|
  }

  /** A picked entry serves one transfer more, and was used now. */
  function OneMoreUse(i: Info, picked: bool, now: int): Info {
    if picked then Info(i.id, i.streams + 1, i.uses + 1, i.dialed, now) else i
  }

  /** A released entry serves one transfer less, and was used until now. */
  function OneUseLess(i: Info, released: bool, now: int): Info {
    if released then Info(i.id, if i.streams > 0 then i.streams - 1 else 0, i.uses, i.dialed, now) else i
  }

  /** The entries of s that are withheld. */
  function Withheld(s: seq<Conn>, drop: set<Conn>): set<Conn> { set c | c in s && c in drop }

  lemma {:induction false} FilterCount(s: seq<Conn>, drop: set<Conn>)
    requires Distinct(s)
    ensures |s| - |Filter(s, drop)| == |Withheld(s, drop)|
    decreases |s|
  {
    if s != [] {
      FilterCount(s[..|s| - 1], drop);
      WithheldSnoc(s, drop);
    }
  }

  lemma WithheldSnoc(s: seq<Conn>, drop: set<Conn>)
    requires Distinct(s) && s != []
    ensures var init, last := s[..|s| - 1], s[|s| - 1];
            last !in Withheld(init, drop) &&
              Withheld(s, drop) == Withheld(init, drop) + if last in drop then {last} else {}
  {
    assert s == s[..|s| - 1] + [s[|s| - 1]];
  }

  lemma ParkedCount(entries: seq<Conn>, sorted: seq<Conn>, skip: set<Conn>)
    requires Distinct(entries) && multiset(sorted) == multiset(entries)
    ensures |sorted| - |Filter(sorted, skip)| == |Withheld(entries, skip)|
  {
    PermutationKeeps(entries, sorted);
    FilterCount(sorted, skip);
    assert Withheld(entries, skip) == Withheld(sorted, skip);
  }

  /** Sorts by load and reserves the first k entries that the transfer may use. */
  method Choose(entries: seq<Conn>, closing: seq<Conn>, ghost closes: set<Conn>, info: map<Conn, Info>,
                held: map<Ticket, seq<Conn>>,
                t: Ticket, skip: set<Conn>, k: nat, now: int)
    returns (p: Picking)
    requires ConnsValid(entries, closing, closes, info.Keys) && TicketsValid(info, held) && t !in held
    ensures PickedFrom(entries, info, skip, k, now, p)
    ensures ConnsValid(p.entries, closing, closes, p.info.Keys) && |p.entries| == |entries|
    ensures TicketsValid(p.info, held[t := p.picked])
  {
    PickLemma(entries, closing, closes, info, held, t, skip, k, now);
    var sorted := Sort(entries, LighterFirst(info));
    var picked, parked := TakeUsable(sorted, skip, k);
    var firstUse := map c | c in picked :: c in info && info[c].uses == 0;
    p := Picking(sorted, Taken(info, SetOf(picked), now), picked, firstUse, parked);
    assert p.info.Keys == info.Keys;
    ParkedCount(entries, sorted, skip);
  }

  lemma NewConnAccounted(entries: seq<Conn>, closing: seq<Conn>, closes: set<Conn>, dialed: set<Conn>, c: Conn)
    requires ConnsValid(entries, closing, closes, dialed) && c !in dialed
    ensures ConnsValid(entries + [c], closing, closes, dialed + {c})
    ensures ConnsValid(entries, closing + [c], closes, dialed + {c})
  {
    forall d | d in dialed + {c}
      ensures Accounted(entries + [c], closing, closes, d) && Accounted(entries, closing + [c], closes, d)
    {
      assert d != c ==> Accounted(entries, closing, closes, d);
    }
    assert c !in entries && c !in closing;
  }

  lemma DiscardLemma(entries: seq<Conn>, closing: seq<Conn>, closes: set<Conn>, dialed: set<Conn>, drop: set<Conn>)
    requires ConnsValid(entries, closing, closes, dialed)
    ensures ConnsValid(Filter(entries, drop), closing + Filter(entries, SetOf(entries) - drop), closes, dialed)
  {
    FilterMeaning(entries, drop);
    FilterMeaning(entries, SetOf(entries) - drop);
    var out := Filter(entries, SetOf(entries) - drop);
    forall c | c in dialed ensures Accounted(Filter(entries, drop), closing + out, closes, c) {
      assert Accounted(entries, closing, closes, c);
    }
    forall i, j | 0 <= i < j < |closing + out| ensures (closing + out)[i] != (closing + out)[j] {
      if i < |closing| <= j {
        assert closing[i] in closing && out[j - |closing|] in out;
        assert Accounted(entries, closing, closes, closing[i]);
      }
    }
  }

  lemma CloseNextLemma(entries: seq<Conn>, closing: seq<Conn>, closes: set<Conn>, dialed: set<Conn>)
    requires ConnsValid(entries, closing, closes, dialed) && closing != []
    ensures closing[0] !in closes && ConnsValid(entries, closing[1..], closes + {closing[0]}, dialed)
  {
    assert closing == [closing[0]] + closing[1..];
    assert closing[0] in closing && closing[0] !in closing[1..];
    forall c | c in dialed ensures Accounted(entries, closing[1..], closes + {closing[0]}, c) {
      assert Accounted(entries, closing, closes, c);
    }
    assert Accounted(entries, closing, closes, closing[0]);
  }

  // ---- where to dial ----

  /** How many of the entries have this identity. */
  function Pooled(entries: seq<Conn>, info: map<Conn, Info>, id: Option<nat>): nat {
    if entries == [] then 0
    else Pooled(entries[..|entries| - 1], info, id) + if IdOf(info, entries[|entries| - 1]) == id then 1 else 0
  }

  /** The entries pooled for endpoint a; -1 when its identity is unreadable. */
  function Score(entries: seq<Conn>, info: map<Conn, Info>, endpoints: seq<Option<nat>>, a: nat): int {
    if a >= |endpoints| || endpoints[a].None? then -1 else Pooled(entries, info, endpoints[a])
  }

  function FewestFirst(entries: seq<Conn>, info: map<Conn, Info>, endpoints: seq<Option<nat>>): (nat, nat) -> bool {
    (a: nat, b: nat) => Score(entries, info, endpoints, a) <= Score(entries, info, endpoints, b)
  }

  /** n slots dealt in turn from idx. */
  function InTurn(idx: seq<nat>, n: nat): seq<nat>
    requires idx != []
  {
    if n == 0 then [] else InTurn(idx, n - 1) + [idx[(n - 1) % |idx|]]
  }

  /** How many of the dials go to endpoint a. */
  function Dials(slots: seq<nat>, a: nat): nat { multiset(slots)[a] }

  lemma {:induction false} MulGrows(a: nat, b: nat, m: nat)
    requires a < b
    ensures a * m + m <= b * m
    decreases b
  {
    assert b * m == (b - 1) * m + m;
    if a < b - 1 { MulGrows(a, b - 1, m); }
  }

  /** Quotient and remainder are determined. */
  lemma DivIs(m: nat, q: nat, t: nat, q': nat, t': nat)
    requires t < m && t' < m && q * m + t == q' * m + t'
    ensures q == q' && t == t'
  {
    if q < q' { MulGrows(q, q', m); }
    if q' < q { MulGrows(q', q, m); }
  }

  lemma DivMod(n: nat, m: nat)
    requires m > 0
    ensures n == (n / m) * m + n % m && n % m < m
  {
  }

  /** The turn after (n - 1) % m. */
  lemma NextTurn(n: nat, m: nat)
    requires n > 0 && m > 0
    ensures n % m == if (n - 1) % m + 1 == m then 0 else (n - 1) % m + 1
  {
    var q, t := (n - 1) / m, (n - 1) % m;
    DivMod(n - 1, m);
    DivMod(n, m);
    if t + 1 == m {
      assert (q + 1) * m == q * m + m;
      DivIs(m, q + 1, 0, n / m, n % m);
    } else {
      DivIs(m, q, t + 1, n / m, n % m);
    }
  }

  /** The places of idx before `turn` have one slot more than the rest. */
  ghost predicate Dealt(slots: seq<nat>, idx: seq<nat>, rounds: nat, turn: nat) {
    forall p :: 0 <= p < |idx| ==> Dials(slots, idx[p]) == rounds + if p < turn then 1 else 0
  }

  lemma DealtStep(slots: seq<nat>, idx: seq<nat>, rounds: nat, turn: nat)
    requires Distinct(idx) && turn < |idx| && Dealt(slots, idx, rounds, turn)
    ensures if turn + 1 == |idx| then Dealt(slots + [idx[turn]], idx, rounds + 1, 0)
            else Dealt(slots + [idx[turn]], idx, rounds, turn + 1)
  {
    forall p | 0 <= p < |idx|
      ensures Dials(slots + [idx[turn]], idx[p]) == rounds + if p <= turn then 1 else 0
    {
      OneMore(slots, idx[turn], idx[p]);
      assert idx[turn] == idx[p] <==> turn == p;
    }
  }

  lemma {:induction false} InTurnCounts(idx: seq<nat>, n: nat) returns (rounds: nat)
    requires Distinct(idx) && idx != []
    ensures Dealt(InTurn(idx, n), idx, rounds, n % |idx|)
    decreases n
  {
    if n == 0 { return 0; }
    var before := InTurnCounts(idx, n - 1);
    rounds := InTurnStep(idx, n, before);
  }

  lemma InTurnStep(idx: seq<nat>, n: nat, before: nat) returns (rounds: nat)
    requires Distinct(idx) && idx != [] && n > 0 && Dealt(InTurn(idx, n - 1), idx, before, (n - 1) % |idx|)
    ensures Dealt(InTurn(idx, n), idx, rounds, n % |idx|)
  {
    var turn, slots := (n - 1) % |idx|, InTurn(idx, n - 1);
    NextTurn(n, |idx|);
    DealtStep(slots, idx, before, turn);
    assert InTurn(idx, n) == slots + [idx[turn]];
    rounds := if turn + 1 == |idx| then before + 1 else before;
  }

  lemma OneMore(slots: seq<nat>, x: nat, a: nat)
    ensures Dials(slots + [x], a) == Dials(slots, a) + if x == a then 1 else 0
  {
  }

  /** The dials are spread: no endpoint gets two more than another, and one that gets more than
      another has no more connections pooled. */
  ghost predicate Spread(entries: seq<Conn>, info: map<Conn, Info>, endpoints: seq<Option<nat>>, slots: seq<nat>) {
    if endpoints == [] then forall j :: 0 <= j < |slots| ==> slots[j] == j
    else
      && (forall a :: a in slots ==> a < |endpoints|)
      && forall a: nat, b: nat :: a < |endpoints| && b < |endpoints| ==>
            SpreadOver(entries, info, endpoints, slots, a, b)
  }

  ghost predicate SpreadOver(entries: seq<Conn>, info: map<Conn, Info>, endpoints: seq<Option<nat>>, slots: seq<nat>,
                             a: nat, b: nat) {
    && Dials(slots, a) <= Dials(slots, b) + 1
    && (Dials(slots, a) > Dials(slots, b) ==> FewerPooled(entries, info, endpoints, a, b))
  }

  /** The identity of endpoint a is unreadable, or no more entries have it than that of b. */
  ghost predicate FewerPooled(entries: seq<Conn>, info: map<Conn, Info>, endpoints: seq<Option<nat>>, a: nat, b: nat) {
    && a < |endpoints| && b < |endpoints|
    && (endpoints[a].Some? ==>
          endpoints[b].Some? && |Having(entries, info, endpoints[a])| <= |Having(entries, info, endpoints[b])|)
  }

  /** The places of the entries with this identity. */
  function Having(entries: seq<Conn>, info: map<Conn, Info>, id: Option<nat>): set<nat> {
    set i: nat | i < |entries| && entries[i] in info && info[entries[i]].id == id
  }

  lemma {:induction false} PooledIsHaving(entries: seq<Conn>, info: map<Conn, Info>, id: Option<nat>)
    requires id.Some?
    ensures Pooled(entries, info, id) == |Having(entries, info, id)|
    decreases |entries|
  {
    if entries != [] {
      var n := |entries| - 1;
      PooledIsHaving(entries[..n], info, id);
      HavingSnoc(entries, info, id);
    }
  }

  lemma HavingSnoc(entries: seq<Conn>, info: map<Conn, Info>, id: Option<nat>)
    requires entries != [] && id.Some?
    ensures var n := |entries| - 1;
            && n !in Having(entries[..n], info, id)
            && Having(entries, info, id) ==
               Having(entries[..n], info, id) + if IdOf(info, entries[n]) == id then {n} else {}
  {
    var n := |entries| - 1;
    forall i: nat | i < n ensures entries[..n][i] == entries[i] {}
  }

  lemma FewestMeans(entries: seq<Conn>, info: map<Conn, Info>, endpoints: seq<Option<nat>>, a: nat, b: nat)
    requires a < |endpoints| && b < |endpoints|
    ensures FewestFirst(entries, info, endpoints)(a, b) <==> FewerPooled(entries, info, endpoints, a, b)
  {
    if endpoints[a].Some? { PooledIsHaving(entries, info, endpoints[a]); }
    if endpoints[b].Some? { PooledIsHaving(entries, info, endpoints[b]); }
  }

  lemma InTurnSpreads(entries: seq<Conn>, info: map<Conn, Info>, endpoints: seq<Option<nat>>, idx: seq<nat>, n: nat)
    requires Sorted(idx, FewestFirst(entries, info, endpoints)) && Distinct(idx) && idx != []
    requires forall a :: a in idx <==> 0 <= a < |endpoints|
    ensures Spread(entries, info, endpoints, InTurn(idx, n)) && |InTurn(idx, n)| == n
  {
    InTurnFrom(idx, n);
    var rounds := InTurnCounts(idx, n);
    var slots := InTurn(idx, n);
    assert endpoints != [] by { assert idx[0] in idx; }
    forall a: nat, b: nat | a < |endpoints| && b < |endpoints|
      ensures SpreadOver(entries, info, endpoints, slots, a, b)
    {
      assert a in idx && b in idx;
      var p :| 0 <= p < |idx| && idx[p] == a;
      var q :| 0 <= q < |idx| && idx[q] == b;
      FewestMeans(entries, info, endpoints, a, b);
      if Dials(slots, a) > Dials(slots, b) { assert p < q; }
    }
  }

  lemma {:induction false} InTurnFrom(idx: seq<nat>, n: nat)
    requires idx != []
    ensures |InTurn(idx, n)| == n && forall a :: a in InTurn(idx, n) ==> a in idx
    decreases n
  {
    if n > 0 { InTurnFrom(idx, n - 1); }
  }

  /** The endpoints to dial: those with the fewest pooled connections first, then in turn. */
  method ChooseSlots(entries: seq<Conn>, info: map<Conn, Info>, endpoints: seq<Option<nat>>, need: int)
    returns (slots: seq<nat>)
    ensures |slots| == if need > 0 then need else 0
    ensures Spread(entries, info, endpoints, slots)
  {
    slots := [];
    if need > 0 && endpoints != [] {
      var all := seq(|endpoints|, i => i);
      var idx := Sort(all, FewestFirst(entries, info, endpoints));
      SortedEntries(all, FewestFirst(entries, info, endpoints));
      forall a ensures a in idx <==> 0 <= a < |endpoints| {
        if 0 <= a < |endpoints| { assert all[a] == a; }
      }
      while |slots| < need
        invariant |slots| <= need && slots == InTurn(idx, |slots|)
      {
        slots := slots + [idx[|slots| % |idx|]];
      }
      InTurnSpreads(entries, info, endpoints, idx, need);
    } else {
      while |slots| < need
        invariant |slots| <= need || slots == []
        invariant forall j :: 0 <= j < |slots| ==> slots[j] == j
        invariant endpoints != [] ==> slots == []
      {
        slots := slots + [|slots|];
      }
    }
  }

  // ---- shrinking ----

  function IdOf(info: map<Conn, Info>, c: Conn): Option<nat> { if c in info then info[c].id else None }

  /** Direct before relayed, and then the one used last. */
  function DirectFirst(info: map<Conn, Info>, relayed: set<Conn>): (Conn, Conn) -> bool {
    (a: Conn, b: Conn) =>
      || (a !in relayed && b in relayed)
      || ((a in relayed <==> b in relayed) && UsedOf(info, a) >= UsedOf(info, b))
  }

  /** Not on a relay where d is on none; and used no earlier where both are, or neither is. */
  ghost predicate NoWorse(info: map<Conn, Info>, relayed: set<Conn>, c: Conn, d: Conn)
    requires c in info && d in info
  {
    && (c in relayed ==> d in relayed)
    && ((c in relayed <==> d in relayed) ==> info[c].lastUsed >= info[d].lastUsed)
  }

  /** Among the connections of one identity, none was given up for a worse one. */
  ghost predicate KeptTheBest(entries: seq<Conn>, info: map<Conn, Info>, relayed: set<Conn>, keep: seq<Conn>) {
    forall c, d :: c in keep && d in entries && d !in keep ==>
      c in info && d in info && (info[c].id == info[d].id ==> NoWorse(info, relayed, c, d))
  }

  lemma RetainedNoWorse(entries: seq<Conn>, closing: seq<Conn>, closes: set<Conn>, info: map<Conn, Info>,
                        relayed: set<Conn>, n: nat, keep: seq<Conn>)
    requires ConnsValid(entries, closing, closes, info.Keys)
    requires Retained(entries, info, DirectFirst(info, relayed), n, keep)
    ensures KeptTheBest(entries, info, relayed, keep)
  {
    forall c, d | c in keep && d in entries && d !in keep
      ensures c in info && d in info && (info[c].id == info[d].id ==> NoWorse(info, relayed, c, d))
    {
      assert Preferred(info, DirectFirst(info, relayed), keep, c, d);
      DirectMeans(info, relayed, c, d);
    }
  }

  lemma DirectMeans(info: map<Conn, Info>, relayed: set<Conn>, c: Conn, d: Conn)
    requires c in info && d in info
    ensures DirectFirst(info, relayed)(c, d) <==> NoWorse(info, relayed, c, d)
  {
  }

  /** The identity of d is among those of `keep`. */
  predicate Represented(info: map<Conn, Info>, keep: seq<Conn>, d: Conn) {
    exists c :: c in keep && IdOf(info, c) == IdOf(info, d)
  }

  /** No kept connection of the identity of c ranks before it. */
  ghost predicate Best(info: map<Conn, Info>, before: (Conn, Conn) -> bool, keep: seq<Conn>, c: Conn) {
    forall b :: b in keep && IdOf(info, b) == IdOf(info, c) ==> before(c, b)
  }

  /** Keeping c and giving up d is justified: c ranks before d, or c is what keeps its identity
      in the pool while that of d is there without d. */
  ghost predicate Preferred(info: map<Conn, Info>, before: (Conn, Conn) -> bool, keep: seq<Conn>, c: Conn, d: Conn) {
    || before(c, d)
    || (IdOf(info, c) != IdOf(info, d) && Represented(info, keep, d) && Best(info, before, keep, c))
  }

  /** `keep` are n distinct entries; every identity among the entries is kept, or no identity is kept
      twice; and nothing was given up for something less preferred. */
  ghost predicate Retained(entries: seq<Conn>, info: map<Conn, Info>, before: (Conn, Conn) -> bool, n: nat,
                           keep: seq<Conn>) {
    && |keep| == n && Distinct(keep) && (forall c :: c in keep ==> c in entries)
    && ((forall d :: d in entries ==> Represented(info, keep, d)) || Apart(info, keep))
    && forall c, d :: c in keep && d in entries && d !in keep ==> Preferred(info, before, keep, c, d)
  }

  /** No two connections of one identity. */
  ghost predicate Apart(info: map<Conn, Info>, s: seq<Conn>) {
    forall i, j :: 0 <= i < j < |s| ==> IdOf(info, s[i]) != IdOf(info, s[j])
  }

  /** How the first pass splits the entries seen so far into the first of each identity, n at
      most, and the others. */
  ghost predicate Split(seen: seq<Conn>, info: map<Conn, Info>, before: (Conn, Conn) -> bool, n: nat,
                        heads: seq<Conn>, rest: seq<Conn>) {
    && (forall c :: c in seen <==> c in heads || c in rest)
    && (forall c :: c in heads ==> c !in rest)
    && Distinct(heads) && Distinct(rest) && Sorted(rest, before)
    && |heads| <= n && Apart(info, heads)
    && (forall c, d :: c in heads && d in rest ==> before(c, d) || IdOf(info, c) != IdOf(info, d))
    && (forall d :: d in rest && !Represented(info, heads, d) ==>
          |heads| == n && forall c :: c in heads ==> before(c, d))
  }

  lemma SplitStep(seen: seq<Conn>, e: Conn, info: map<Conn, Info>, before: (Conn, Conn) -> bool, n: nat,
                  heads: seq<Conn>, rest: seq<Conn>)
    requires Split(seen, info, before, n, heads, rest) && e !in seen
    requires forall c :: c in seen ==> before(c, e)
    ensures if |heads| < n && !Represented(info, heads, e) then Split(seen + [e], info, before, n, heads + [e], rest)
            else Split(seen + [e], info, before, n, heads, rest + [e])
  {
    if |heads| < n && !Represented(info, heads, e) {
      forall d | d in rest ensures Represented(info, heads + [e], d) && before(d, e) {
        var c :| c in heads && IdOf(info, c) == IdOf(info, d);
        assert c in heads + [e];
      }
      forall c, d | c in heads + [e] && d in rest ensures before(c, d) || IdOf(info, c) != IdOf(info, d) {
        assert Represented(info, heads, d) || |heads| == n;
      }
    }
  }

  lemma SplitRetains(entries: seq<Conn>, info: map<Conn, Info>, before: (Conn, Conn) -> bool, n: nat,
                     heads: seq<Conn>, rest: seq<Conn>)
    requires Ordering(before) && Split(entries, info, before, n, heads, rest) && |heads| + |rest| >= n
    ensures Retained(entries, info, before, n, heads + rest[..n - |heads|])
  {
    var extra := rest[..n - |heads|];
    var keep := heads + extra;
    forall c | c in extra ensures c in rest {}
    forall i, j | 0 <= i < j < |keep| ensures keep[i] != keep[j] {
      if i < |heads| <= j { assert keep[i] in heads && keep[j] in rest; }
    }
    forall d | d in entries && Represented(info, heads, d) ensures Represented(info, keep, d) {
      var c :| c in heads && IdOf(info, c) == IdOf(info, d);
      assert c in keep;
    }
    if |heads| == n { assert keep == heads; }
    forall c, d | c in keep && d in entries && d !in keep ensures Preferred(info, before, keep, c, d) {
      assert d in rest;
      if c in extra {
        var i :| 0 <= i < |extra| && extra[i] == c;
        var j :| 0 <= j < |rest| && rest[j] == d;
        assert i < j && rest[i] == c;
      } else {
        HeadIsBest(entries, info, before, n, heads, rest, c);
      }
    }
  }

  lemma HeadIsBest(entries: seq<Conn>, info: map<Conn, Info>, before: (Conn, Conn) -> bool, n: nat, heads: seq<Conn>,
                   rest: seq<Conn>, c: Conn)
    requires Ordering(before) && Split(entries, info, before, n, heads, rest) && |heads| + |rest| >= n && c in heads
    ensures Best(info, before, heads + rest[..n - |heads|], c)
  {
    var keep := heads + rest[..n - |heads|];
    forall b | b in keep && IdOf(info, b) == IdOf(info, c) ensures before(c, b) {
      if b in heads {
        var i :| 0 <= i < |heads| && heads[i] == b;
        var j :| 0 <= j < |heads| && heads[j] == c;
        assert i == j;
        assert before(c, c);
      } else {
        assert b in rest;
      }
    }
  }

  /** The two passes of scaleDown over the sorted entries. */
  method Retain(entries: seq<Conn>, info: map<Conn, Info>, ghost before: (Conn, Conn) -> bool, n: nat)
    returns (keep: seq<Conn>)
    requires Ordering(before) && Sorted(entries, before) && Distinct(entries) && |entries| >= n
    ensures Retained(entries, info, before, n, keep)
  {
    var rest: seq<Conn>, seen: set<Option<nat>> := [], {};
    keep := [];
    for i := 0 to |entries|
      invariant Split(entries[..i], info, before, n, keep, rest) && |keep| + |rest| == i
      invariant seen == (set c | c in keep :: IdOf(info, c))
    {
      var e := entries[i];
      assert entries[..i + 1] == entries[..i] + [e];
      SplitStep(entries[..i], e, info, before, n, keep, rest);
      if |keep| < n && IdOf(info, e) !in seen {
        seen := seen + {IdOf(info, e)};
        keep := keep + [e];
      } else {
        rest := rest + [e];
      }
    }
    assert entries[..|entries|] == entries;
    SplitRetains(entries, info, before, n, keep, rest);
    ghost var heads := keep;
    for i := 0 to |rest|
      invariant keep == heads + rest[..if i < n - |heads| then i else n - |heads|]
    {
      if |keep| == n { break; }
      keep := keep + [rest[i]];
    }
  }

  /** Sorts the entries and picks those to keep. */
  method KeepBest(entries: seq<Conn>, info: map<Conn, Info>, relayed: set<Conn>, n: nat) returns (keep: seq<Conn>)
    requires Distinct(entries) && |entries| >= n
    ensures Retained(entries, info, DirectFirst(info, relayed), n, keep)
  {
    var before := DirectFirst(info, relayed);
    SortedEntries(entries, before);
    keep := Retain(Sort(entries, before), info, before, n);
  }

  /** With no reservation outstanding every stream count is zero. */
  lemma IdleIsUnused(info: map<Conn, Info>, held: map<Ticket, seq<Conn>>, c: Conn)
    requires TicketsValid(info, held) && held == map[] && c in info
    ensures info[c].streams == 0
  {
    assert CountMatches(info, held, c);
    assert Holders(held, c) == {};
  }

  /** Giving up all but `keep` of an idle pool closes unused connections only. */
  lemma KeepLemma(entries: seq<Conn>, closing: seq<Conn>, closes: set<Conn>, info: map<Conn, Info>,
                  held: map<Ticket, seq<Conn>>, keep: seq<Conn>)
    requires ConnsValid(entries, closing, closes, info.Keys) && TicketsValid(info, held) && held == map[]
    requires Distinct(keep) && forall c :: c in keep ==> c in entries
    ensures ConnsValid(keep, closing, closes + (SetOf(entries) - SetOf(keep)), info.Keys)
    ensures SetOf(entries) * (SetOf(entries) - SetOf(keep)) == SetOf(entries) - SetOf(keep)
    ensures forall c :: c in SetOf(entries) - SetOf(keep) ==> c in info && info[c].streams == 0
  {
    var drop := SetOf(entries) - SetOf(keep);
    assert SetOf(entries) * drop == drop;
    FilterMeaning(entries, drop);
    CloseLemma(entries, closing, closes, info.Keys, drop);
    ReorderConns(Filter(entries, drop), keep, closing, closes + drop, info.Keys);
    forall c | c in drop ensures c in info && info[c].streams == 0 { IdleIsUnused(info, held, c); }
  }

  class Pool {
    const baseline: nat
    const max: nat
    var entries: seq<Conn>
    var info: map<Conn, Info>           // every connection dialed so far
    var dialing: nat                    // background dials in flight
    var active: nat                     // acquire/release balance
    var closed: bool
    var waiting: map<Ticket, Want>
    var held: map<Ticket, seq<Conn>>    // unreleased reservations
    var closing: seq<Conn>              // taken out, to be closed outside the lock
    ghost var closes: set<Conn>         // connections whose close was called

    ghost predicate Valid()
      reads this
    {
      && 1 <= baseline <= max && |entries| + dialing <= max
      && (closed ==> entries == [])
      && ConnsValid(entries, closing, closes, info.Keys)
      && waiting.Keys !! held.Keys && active == |waiting| + |held|
      && TicketsValid(info, held)
    }

    /** newShardPool: the baseline is at least 1 and the cap at least the baseline. */
    constructor (baseline: nat, max: nat)
      ensures Valid() && fresh(this) && entries == [] && info == map[] && dialing == 0 && !closed
      ensures waiting == map[] && held == map[] && closing == [] && closes == {}
      ensures this.baseline == (if baseline == 0 then 1 else baseline) && this.max >= max
      ensures this.max == max || (this.max == this.baseline && max < this.baseline)
    {
      var b := if baseline < 1 then 1 else baseline;
      this.baseline, this.max := b, if max < b then b else max;
      entries, info, dialing, active, closed := [], map[], 0, 0, false;
      waiting, held, closing, closes := map[], map[], [], {};
    }

    /** The close function of a connection. It must not have been called before. */
    method CloseConn(c: Conn)
      requires c !in closes
      modifies this`closes
      ensures closes == old(closes) + {c}
    {
      closes := closes + {c};
    }

    /** Closes the entries of `drop` and keeps the others, in order. */
    method CloseAndKeep(drop: set<Conn>)
      requires ConnsValid(entries, closing, closes, info.Keys)
      modifies this`entries, this`closes
      ensures ConnsValid(entries, closing, closes, info.Keys)
      ensures entries == Filter(old(entries), drop)
      ensures closes == old(closes) + SetOf(old(entries)) * drop
    {
      var live: seq<Conn> := [];
      var i := 0;
      while i < |entries|
        invariant i <= |entries| && entries == old(entries)
        invariant live == Filter(entries[..i], drop)
        invariant closes == old(closes) + SetOf(entries[..i]) * drop
      {
        var e := entries[i];
        Snoc(entries, i, drop);
        EntryIsOpen(entries, closing, old(closes), info.Keys, i);
        if e in drop { CloseConn(e); } else { live := live + [e]; }
        i := i + 1;
      }
      assert entries[..|entries|] == entries;
      CloseLemma(entries, closing, old(closes), info.Keys, drop);
      entries := live;
    }

    /** The entries that acquire evicts. */
    function StaleEntries(env: Env): set<Conn>
      reads this
    {
      set c | c in entries && c in info && Stale(env, c, info[c])
    }

    /** How many connections the running transfers justify. */
    function Target(): nat
      reads this
    {
      if baseline * active < max then baseline * active else max
    }

    /** The first critical section of acquire: evict, then decide how many dials to start. */
    method AcquireBegin(t: Ticket, k: nat, directOnly: bool, env: Env) returns (started: bool, slots: seq<nat>)
      requires Valid() && t !in waiting && t !in held
      modifies this`active, this`waiting, this`entries, this`closes, this`dialing
      ensures Valid() && started == !closed && |slots| <= k && dialing == old(dialing) + |slots|
      ensures slots != [] ==> started && |entries| + dialing <= max && |entries| + dialing <= baseline * active
      ensures started ==> |slots| == k || |entries| + dialing >= max || |entries| + dialing >= baseline * active
      ensures Spread(entries, info, env.endpoints, slots)
      ensures entries == if started then Filter(old(entries), old(StaleEntries(env))) else old(entries)
      ensures forall c :: c in old(entries) ==>
                c in info && (c in closes <==> started && (Lost(env, c, info[c]) || Worn(env, c, info[c])))
      ensures forall c :: c in old(entries) ==> (c in entries <==> c !in closes)
      ensures forall c :: c in entries ==> c in old(entries)
      ensures forall c :: c !in old(entries) ==> (c in closes <==> c in old(closes))
      ensures waiting == if started then old(waiting)[t := Want(k, directOnly)] else old(waiting)
    {
      forall c | c in entries ensures c in info && c !in closes { assert Accounted(entries, closing, closes, c); }
      forall c | c in entries ensures Stale(env, c, info[c]) <==> Lost(env, c, info[c]) || Worn(env, c, info[c]) {
        StaleMeans(env, c, info[c]);
      }
      if closed { return false, []; }
      started := true;
      active := active + 1;
      waiting := waiting[t := Want(k, directOnly)];
      var stale := StaleEntries(env);
      assert SetOf(entries) * stale == stale;
      FilterMeaning(entries, stale);
      CloseAndKeep(stale);
      var room := Target() - |entries| - dialing;
      slots := ChooseSlots(entries, info, env.endpoints, if room < k then room else k);
      dialing := dialing + |slots|;
    }

    /** The release closure; a second call does nothing. */
    method Release(t: Ticket, now: int)
      requires Valid()
      modifies this`info, this`held, this`active
      ensures Valid() && held == old(held) - {t}
      ensures info.Keys == old(info).Keys
      ensures forall c :: c in info ==>
                info[c] == OneUseLess(old(info)[c], t in old(held) && c in old(held)[t], now)
      ensures forall c :: c in info && t in old(held) && c in old(held)[t] ==> old(info)[c].streams > 0
    {
      if t !in held { return; }
      ReturnCounts(info, held, t, now);
      HeldInUse(info, held, t);
      info := Returned(info, SetOf(held[t]), now);
      held := held - {t};
      active := active - 1;
    }

    /** One background dial settles with an error. */
    method DialFailed()
      requires Valid() && dialing > 0
      modifies this`dialing
      ensures Valid() && dialing == old(dialing) - 1
    {
      dialing := dialing - 1;
    }

    /** One background dial settles with a connection, which joins the pool; after drain it is
        closed instead, outside the lock. */
    method DialOk(c: Conn, id: Option<nat>, now: int)
      requires Valid() && dialing > 0 && c !in info
      modifies this`dialing, this`info, this`entries, this`closing
      ensures Valid() && dialing == old(dialing) - 1
      ensures info == old(info)[c := Info(id, 0, 0, now, now)]
      ensures entries == if closed then old(entries) else old(entries) + [c]
      ensures closing == if closed then old(closing) + [c] else old(closing)
    {
      var i := Info(id, 0, 0, now, now);
      NewConnUnheld(info, held, c, i);
      NewConnAccounted(entries, closing, closes, info.Keys, c);
      assert info[c := i].Keys == info.Keys + {c};
      dialing, info := dialing - 1, info[c := i];
      if closed {
        closing := closing + [c];
      } else {
        entries := entries + [c];
      }
    }

    /** Takes entries that proved unusable out of the pool; they are closed outside the lock. */
    method Discard(drop: set<Conn>)
      requires Valid()
      modifies this`entries, this`closing
      ensures Valid() && entries == Filter(old(entries), drop)
      ensures closing == old(closing) + Filter(old(entries), SetOf(old(entries)) - drop)
    {
      DiscardLemma(entries, closing, closes, info.Keys, drop);
      var keep: seq<Conn>, out: seq<Conn> := [], [];
      ghost var others := SetOf(entries) - drop;
      for i := 0 to |entries|
        invariant entries == old(entries) && closing == old(closing)
        invariant keep == Filter(entries[..i], drop) && out == Filter(entries[..i], others)
      {
        Snoc(entries, i, drop);
        Snoc(entries, i, others);
        assert entries[i] in entries;
        if entries[i] in drop { out := out + [entries[i]]; } else { keep := keep + [entries[i]]; }
      }
      assert entries[..|entries|] == entries;
      FilterMeaning(entries, drop);
      entries, closing := keep, closing + out;
    }

    /** One close call outside the lock. */
    method CloseNext()
      requires Valid() && closing != []
      modifies this`closing, this`closes
      ensures Valid() && closing == old(closing)[1..] && closes == old(closes) + {old(closing)[0]}
    {
      CloseNextLemma(entries, closing, closes, info.Keys);
      CloseConn(closing[0]);
      closing := closing[1..];
    }

    /** drain: closes every entry; the pool refuses further work. */
    method Drain()
      requires Valid()
      modifies this`closed, this`entries, this`closes
      ensures Valid() && closed && entries == [] && closes == old(closes) + SetOf(old(entries))
    {
      closed := true;
      var all := SetOf(entries);
      FilterAll(entries, all);
      CloseAndKeep(all);
      assert all * all == all;
    }

    /** The second critical section of acquire. */
    method Pick(t: Ticket, env: Env) returns (p: Picking)
      requires Valid() && t in waiting
      modifies this`entries, this`info, this`waiting, this`held
      ensures Valid() && held == old(held)[t := p.picked] && waiting == old(waiting) - {t}
      ensures entries == p.entries && info == p.info
      ensures PickedFrom(old(entries), old(info), if old(waiting)[t].directOnly then env.relayed else {},
                         old(waiting)[t].k, env.now, p)
    {
      var want := waiting[t];
      p := Choose(entries, closing, closes, info, held, t, Skipped(want, env), want.k, env.now);
      entries, info := p.entries, p.info;
      waiting, held := waiting - {t}, held[t := p.picked];
    }

    /** scaleDown: when no transfer runs, closes entries back to the baseline. */
    method ScaleDown(env: Env) returns (done: bool)
      requires Valid()
      modifies this`entries, this`closes
      ensures Valid() && done == (active == 0 && !closed && |old(entries)| > baseline)
      ensures !done ==> entries == old(entries) && closes == old(closes)
      ensures done ==> Retained(old(entries), info, DirectFirst(info, env.relayed), baseline, entries)
      ensures done ==> KeptTheBest(old(entries), info, env.relayed, entries)
      ensures done ==> closes == old(closes) + (SetOf(old(entries)) - SetOf(entries))
      ensures forall c :: c in closes && c !in old(closes) ==> c in info && info[c].streams == 0
    {
      if active > 0 || closed || |entries| <= baseline { return false; }
      done := true;
      assert held == map[];
      var keep := KeepBest(entries, info, env.relayed, baseline);
      KeepLemma(entries, closing, closes, info, held, keep);
      RetainedNoWorse(entries, closing, closes, info, env.relayed, baseline, keep);
      CloseAndKeep(SetOf(entries) - SetOf(keep));
      entries := keep;
    }

    /** An acquire under a ticket that is not in use. */
    method DoAcquire(t: Ticket, k: nat, directOnly: bool, env: Env)
      requires Valid()
      modifies this
      ensures Valid() && closed == old(closed)
      ensures ClosedFairly(AcquireStep(t, k, directOnly, env), info, old(closes), closes)
    {
      if t !in waiting && t !in held { var _, _ := AcquireBegin(t, k, directOnly, env); }
    }

    method DoScaleDown(env: Env)
      requires Valid()
      modifies this
      ensures Valid() && closed == old(closed)
      ensures ClosedFairly(ScaleDownStep(env), info, old(closes), closes)
    {
      var _ := ScaleDown(env);
    }

    method DoRelease(t: Ticket, now: int)
      requires Valid()
      modifies this
      ensures Valid() && closed == old(closed) && closes == old(closes)
    {
      Release(t, now);
    }

    method DoClose()
      requires Valid()
      modifies this
      ensures Valid() && closed == old(closed)
      ensures ClosedFairly(CloseStep, info, old(closes), closes)
    {
      if closing != [] {
        AllClosed(entries, closing, closes, info.Keys);
        CloseNext();
        AllClosed(entries, closing, closes, info.Keys);
      }
    }

    method DoDrain()
      requires Valid()
      modifies this
      ensures Valid() && closed
      ensures ClosedFairly(DrainStep, info, old(closes), closes)
    {
      Drain();
      AllClosed(entries, closing, closes, info.Keys);
    }

    /** The steps that close nothing by themselves: a dial settles, entries are discarded. */
    method DoOpen(step: Step)
      requires Valid()
      modifies this
      ensures Valid() && closed == old(closed) && closes == old(closes)
    {
      match step
      case DialFailedStep => if dialing > 0 { DialFailed(); }
      case DialOkStep(c, id, now) => if dialing > 0 && c !in info { DialOk(c, id, now); }
      case DiscardStep(drop) => Discard(drop);
      case _ =>
    }

    /** A pick, if the transfer waits for one. */
    method DoPick(t: Ticket, env: Env)
      requires Valid()
      modifies this
      ensures Valid() && closed == old(closed) && closes == old(closes)
    {
      if t in waiting { var _ := Pick(t, env); }
    }

    /** A step of a schedule; one that is not due is passed over. */
    method Do(step: Step)
      requires Valid()
      modifies this
      ensures Valid() && closed == (old(closed) || step.DrainStep?)
      ensures ClosedFairly(step, info, old(closes), closes)
    {
      match step
      case AcquireStep(t, k, directOnly, env) => DoAcquire(t, k, directOnly, env);
      case PickStep(t, env) => DoPick(t, env);
      case ReleaseStep(t, now) => DoRelease(t, now);
      case ScaleDownStep(env) => DoScaleDown(env);
      case CloseStep => DoClose();
      case DrainStep => DoDrain();
      case _ => DoOpen(step);
    }
  }

  // ---- every interleaving ----

  /** A connection that serves a transfer is closed only when it is lost, discarded or drained. */
  predicate MayClose(step: Step, info: map<Conn, Info>, c: Conn) {
    && c in info
    && (info[c].streams == 0 || step.CloseStep? || step.DrainStep? || (step.AcquireStep? && Lost(step.env, c, info[c])))
  }

  /** Every connection closed by the step is one that it may close. */
  ghost predicate ClosedFairly(step: Step, info: map<Conn, Info>, before: set<Conn>, after: set<Conn>) {
    forall c {:trigger MayClose(step, info, c)} :: c in after && c !in before ==> MayClose(step, info, c)
  }

  datatype Step =
    | AcquireStep(t: Ticket, k: nat, directOnly: bool, env: Env)
    | PickStep(t: Ticket, env: Env)
    | ReleaseStep(t: Ticket, now: int)
    | DialFailedStep
    | DialOkStep(c: Conn, id: Option<nat>, now: int)
    | DiscardStep(drop: set<Conn>)
    | CloseStep
    | ScaleDownStep(env: Env)
    | DrainStep

  /** Any schedule of the pool's steps. Once the pool is
      drained, no dial is in flight and no close call is due, the connections closed are exactly those
      ever dialed; each was closed once, since CloseConn admits no second close. */
  method Run(baseline: nat, max: nat, steps: seq<Step>) returns (pool: Pool)
    ensures pool.Valid() && pool.closes <= pool.info.Keys
    ensures DrainStep in steps <==> pool.closed
    ensures pool.closed && pool.dialing == 0 && pool.closing == [] ==> pool.closes == pool.info.Keys
  {
    pool := new Pool(baseline, max);
    for i := 0 to |steps|
      invariant fresh(pool) && pool.Valid()
      invariant DrainStep in steps[..i] <==> pool.closed
    {
      assert steps[..i + 1] == steps[..i] + [steps[i]];
      pool.Do(steps[i]);
    }
    assert steps[..|steps|] == steps;
    AllClosed(pool.entries, pool.closing, pool.closes, pool.info.Keys);
  }

  lemma AllClosed(entries: seq<Conn>, closing: seq<Conn>, closes: set<Conn>, dialed: set<Conn>)
    requires ConnsValid(entries, closing, closes, dialed)
    ensures closes <= dialed
    ensures entries == [] && closing == [] ==> closes == dialed
  {
    if entries == [] && closing == [] {
      forall c | c in dialed ensures c in closes { assert Accounted(entries, closing, closes, c); }
    }
  }
}
