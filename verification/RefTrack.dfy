/** When each reference was last used, and which references have expired
    (reftrack/reftrack.go).
 */
module RefTrack {
  import opened Wrappers

  const OUTPUT_PREFIX := "build-output:"
  const DEPS_PREFIX := "build-output-deps:"

  /** The bootstrap classes that never expire. */
  const PROTECTED: seq<string> := ["shell:", "fetcher:", "seed-src:"]

  predicate Protected(name: string) { exists i :: 0 <= i < |PROTECTED| && PROTECTED[i] <= name }

  /** A shell, a fetcher or the source of a seed. */
  predicate Bootstrap(name: string) { "shell:" <= name || "fetcher:" <= name || "seed-src:" <= name }

  lemma ProtectedMeans(name: string)
    ensures Protected(name) <==> Bootstrap(name)
  {
    assert PROTECTED[0] == "shell:" && PROTECTED[1] == "fetcher:" && PROTECTED[2] == "seed-src:";
  }

  function OutputName(x: string): string { OUTPUT_PREFIX + x }

  function DepsName(x: string): string { DEPS_PREFIX + x }

  predicate IsDeps(name: string) { DEPS_PREFIX <= name }

  predicate IsOutput(name: string) { OUTPUT_PREFIX <= name }

  /** build-output:X <-> build-output-deps:X. */
  function FamilySibling(name: string): Option<string> {
    if IsDeps(name) then Some(OutputName(name[|DEPS_PREFIX|..]))
    else if IsOutput(name) then Some(DepsName(name[|OUTPUT_PREFIX|..]))
    else None
  }

  /** No name is in both families, and neither family is protected. */
  lemma FamiliesApart(name: string)
    ensures !(IsDeps(name) && IsOutput(name))
    ensures IsDeps(name) || IsOutput(name) ==> !Protected(name)
  {
    assert OUTPUT_PREFIX[12] == ':' && DEPS_PREFIX[12] == '-';
    assert PROTECTED[0][0] == 's' && PROTECTED[1][0] == 'f' && PROTECTED[2][0] == 's';
    assert OUTPUT_PREFIX[0] == 'b' && DEPS_PREFIX[0] == 'b';
  }

  lemma SiblingIsInverse(x: string)
    ensures FamilySibling(OutputName(x)) == Some(DepsName(x))
    ensures FamilySibling(DepsName(x)) == Some(OutputName(x))
    ensures OutputName(x) != DepsName(x)
    ensures OutputName(x) == "build-output:" + x && DepsName(x) == "build-output-deps:" + x
  {
    FamiliesApart(OutputName(x));
    FamiliesApart(DepsName(x));
    assert OutputName(x)[|OUTPUT_PREFIX|..] == x && DepsName(x)[|DEPS_PREFIX|..] == x;
  }

  /** Only the two names of one family are each other's siblings. */
  lemma SiblingMeans(a: string, b: string) returns (x: string)
    requires FamilySibling(a) == Some(b)
    ensures (a == OutputName(x) && b == DepsName(x)) || (a == DepsName(x) && b == OutputName(x))
  {
    x := if IsDeps(a) then a[|DEPS_PREFIX|..] else a[|OUTPUT_PREFIX|..];
  }

  lemma NamesInjective(x: string, y: string)
    ensures OutputName(x) == OutputName(y) <==> x == y
    ensures DepsName(x) == DepsName(y) <==> x == y
    ensures OutputName(x) != DepsName(y)
  {
    SiblingIsInverse(x);
    SiblingIsInverse(y);
    assert OutputName(x)[|OUTPUT_PREFIX|..] == x && DepsName(x)[|DEPS_PREFIX|..] == x;
    assert OutputName(y)[|OUTPUT_PREFIX|..] == y && DepsName(y)[|DEPS_PREFIX|..] == y;
    FamiliesApart(OutputName(x));
  }

  // ---- tracked state ----

  datatype Entry = Entry(firstSeen: int, lastAccess: int, pinned: bool)

  type Entries = map<string, Entry>

  function TouchOne(es: Entries, name: string, now: int): Entries {
    es[name := Entry(if name in es then es[name].firstSeen else now, now, name in es && es[name].pinned)]
  }

  function PinOne(es: Entries, name: string, now: int): Entries {
    es[name := Entry(if name in es then es[name].firstSeen else now, now, true)]
  }

  function UnpinOne(es: Entries, name: string): Entries {
    if name in es then es[name := es[name].(pinned := false)] else es
  }

  /** The sibling of name, if it is tracked. */
  function TrackedSibling(es: Entries, name: string): Option<string> {
    var s := FamilySibling(name);
    if s.Some? && s.value in es then s else None
  }

  function Touched(es: Entries, name: string, now: int): Entries {
    var t := TouchOne(es, name, now);
    match TrackedSibling(t, name) { case None => t case Some(s) => TouchOne(t, s, now) }
  }

  function Pinned(es: Entries, name: string, now: int): Entries {
    var t := PinOne(es, name, now);
    match TrackedSibling(t, name) { case None => t case Some(s) => PinOne(t, s, now) }
  }

  function Unpinned(es: Entries, name: string): Entries {
    var t := UnpinOne(es, name);
    match TrackedSibling(t, name) { case None => t case Some(s) => UnpinOne(t, s) }
  }

  /** A touch or a pin of `name` is about m. */
  predicate About(es: Entries, name: string, m: string) {
    m == name || (m in es && FamilySibling(name) == Some(m))
  }

  /** A touch sets the clocks of the name and of its tracked sibling. It leaves pins, first sightings and
      all other entries alone, and tracks a name that was not. */
  lemma TouchMeans(es: Entries, name: string, now: int, m: string)
    ensures var t := Touched(es, name, now);
            && (m in t <==> m in es || m == name)
            && (About(es, name, m) ==> t[m].lastAccess == now)
            && (m in es ==> t[m].firstSeen == es[m].firstSeen && t[m].pinned == es[m].pinned)
            && (m == name && m !in es ==> t[m].firstSeen == now && !t[m].pinned)
            && (m in es && !About(es, name, m) ==> t[m].lastAccess == es[m].lastAccess)
  {
    SiblingDiffers(name);
  }

  /** A pin also sets the pinned flag of both. */
  lemma PinMeans(es: Entries, name: string, now: int, m: string)
    ensures var t := Pinned(es, name, now);
            && (m in t <==> m in es || m == name)
            && (About(es, name, m) ==> t[m].lastAccess == now && t[m].pinned)
            && (m in es ==> t[m].firstSeen == es[m].firstSeen)
            && (m == name && m !in es ==> t[m].firstSeen == now)
            && (m in es && !About(es, name, m) ==> t[m].lastAccess == es[m].lastAccess && t[m].pinned == es[m].pinned)
  {
    SiblingDiffers(name);
  }

  /** An unpin clears the flag of both, and nothing else. */
  lemma UnpinMeans(es: Entries, name: string, m: string)
    ensures var t := Unpinned(es, name);
            && (m in t <==> m in es)
            && (m in es ==> t[m].firstSeen == es[m].firstSeen && t[m].lastAccess == es[m].lastAccess)
            && (m in es ==> t[m].pinned == (es[m].pinned && !About(es, name, m)))
  {
    SiblingDiffers(name);
  }

  lemma SiblingDiffers(name: string)
    ensures FamilySibling(name) != Some(name)
  {
    if FamilySibling(name).Some? {
      var x := SiblingMeans(name, FamilySibling(name).value);
      SiblingIsInverse(x);
    }
  }

  function Seeded(now: int): Entry { Entry(now, now, false) }

  function Reconciled(es: Entries, existing: set<string>, now: int): Entries {
    map n | n in existing :: if n in es then es[n] else Seeded(now)
  }

  /** One family is tracked in step: deps are no older than their output, and kept with it. */
  ghost predicate PairInStep(es: Entries, x: string) {
    OutputName(x) in es && DepsName(x) in es ==>
      && es[DepsName(x)].lastAccess >= es[OutputName(x)].lastAccess
      && (es[OutputName(x)].pinned ==> es[DepsName(x)].pinned)
  }

  ghost predicate InStep(es: Entries) { forall x :: PairInStep(es, x) }

  /** Pin and Unpin keep every pair in step, whatever the clock says. */
  lemma PinKeepsStep(es: Entries, name: string, now: int)
    requires InStep(es)
    ensures InStep(Pinned(es, name, now)) && InStep(Unpinned(es, name))
  {
    forall x ensures PairInStep(Pinned(es, name, now), x) && PairInStep(Unpinned(es, name), x) {
      assert PairInStep(es, x);
      ApartFrom(name, x);
    }
  }

  /** Touch seeds deps that were not tracked, and a seeded entry is not pinned. */
  predicate SeedsDepsOfPinned(es: Entries, name: string) {
    name !in es && IsDeps(name) && TrackedSibling(es, name).Some? && es[TrackedSibling(es, name).value].pinned
  }

  /** Touch keeps every pair in step exactly when it does not seed the deps of a pinned output:
      those would then expire on their own clock while their output is kept forever. */
  lemma TouchKeepsStepIff(es: Entries, name: string, now: int)
    requires InStep(es)
    ensures InStep(Touched(es, name, now)) <==> !SeedsDepsOfPinned(es, name)
  {
    var t := Touched(es, name, now);
    forall x ensures PairInStep(t, x) <==> !(SeedsDepsOfPinned(es, name) && name == DepsName(x)) {
      assert PairInStep(es, x);
      ApartFrom(name, x);
    }
    if SeedsDepsOfPinned(es, name) {
      assert name == DepsName(name[|DEPS_PREFIX|..]);
      assert !PairInStep(t, name[|DEPS_PREFIX|..]);
    }
  }

  /** How a name relates to the family of x. */
  lemma ApartFrom(name: string, x: string)
    ensures FamilySibling(OutputName(x)) == Some(DepsName(x)) && FamilySibling(DepsName(x)) == Some(OutputName(x))
    ensures OutputName(x) != DepsName(x) && !IsDeps(OutputName(x))
    ensures FamilySibling(name) == Some(DepsName(x)) ==> name == OutputName(x)
    ensures FamilySibling(name) == Some(OutputName(x)) ==> name == DepsName(x)
  {
    SiblingIsInverse(x);
    FamiliesApart(OutputName(x));
    if FamilySibling(name).Some? {
      var y := SiblingMeans(name, FamilySibling(name).value);
      NamesInjective(x, y);
      NamesInjective(y, x);
    }
  }

  /** Reconcile keeps the pairs in step exactly when it seeds no half of a pair behind or ahead
      of the half already tracked. */
  lemma ReconcileKeepsStepIff(es: Entries, existing: set<string>, now: int)
    requires InStep(es)
    ensures InStep(Reconciled(es, existing, now)) <==>
            forall x :: OutputName(x) in existing && DepsName(x) in existing ==> HalvesFit(es, x, now)
  {
    var r := Reconciled(es, existing, now);
    forall x
      ensures PairInStep(r, x) <==> (OutputName(x) in existing && DepsName(x) in existing ==> HalvesFit(es, x, now))
    {
      assert PairInStep(es, x);
    }
  }

  /** A pair of which only one half is tracked can be completed at `now`. */
  ghost predicate HalvesFit(es: Entries, x: string, now: int) {
    var o, d := OutputName(x), DepsName(x);
    && (o in es && d !in es ==> es[o].lastAccess <= now && !es[o].pinned)
    && (o !in es && d in es ==> es[d].lastAccess >= now)
  }

  /** Old enough to go, and neither pinned nor protected. */
  predicate IsExpired(es: Entries, name: string, cutoff: int) {
    name in es && !es[name].pinned && !Protected(name) && es[name].lastAccess < cutoff
  }

  // ---- the order of the expired list ----

  /** String order. */
  predicate LexLe(a: string, b: string) {
    a == [] || (b != [] && (a[0] < b[0] || (a[0] == b[0] && LexLe(a[1..], b[1..]))))
  }

  /** a is the beginning of b, or has the smaller character where they first differ. */
  lemma {:induction false} LexMeans(a: string, b: string)
    ensures LexLe(a, b) <==>
            a <= b || exists i :: 0 <= i < |a| && i < |b| && a[..i] == b[..i] && a[i] < b[i]
    decreases |a|
  {
    if a != [] && b != [] && a[0] == b[0] {
      var a', b' := a[1..], b[1..];
      LexMeans(a', b');
      assert a <= b <==> a' <= b' by { assert a == [a[0]] + a' && b == [b[0]] + b'; }
      if i :| 0 <= i < |a'| && i < |b'| && a'[..i] == b'[..i] && a'[i] < b'[i] {
        assert a[..i + 1] == [a[0]] + a'[..i] && b[..i + 1] == [b[0]] + b'[..i];
        assert a[i + 1] < b[i + 1];
      }
      if i :| 0 <= i < |a| && i < |b| && a[..i] == b[..i] && a[i] < b[i] {
        assert i > 0 && a'[..i - 1] == a[..i][1..] && b'[..i - 1] == b[..i][1..] && a'[i - 1] < b'[i - 1];
      }
    } else if a != [] && b != [] {
      assert a[..0] == b[..0];
      forall i | 0 < i < |a| && i < |b| ensures a[..i] != b[..i] { assert a[..i][0] != b[..i][0]; }
    }
  }

  lemma {:induction false} LexTotal(a: string, b: string)
    ensures LexLe(a, b) || LexLe(b, a)
    decreases |a|
  {
    if a != [] && b != [] && a[0] == b[0] { LexTotal(a[1..], b[1..]); }
  }

  lemma {:induction false} LexTransitive(a: string, b: string, c: string)
    requires LexLe(a, b) && LexLe(b, c)
    ensures LexLe(a, c)
    decreases |a|
  {
    if a != [] && a[0] == b[0] == c[0] { LexTransitive(a[1..], b[1..], c[1..]); }
  }

  lemma {:induction false} Least(s: set<string>) returns (m: string)
    requires s != {}
    ensures m in s && forall n :: n in s ==> LexLe(m, n)
    decreases |s|
  {
    var x :| x in s;
    LexTotal(x, x);
    if s == {x} { return x; }
    var y := Least(s - {x});
    LexTotal(x, y);
    m := if LexLe(x, y) then x else y;
    forall n | n in s ensures LexLe(m, n) {
      if n != x {
        assert n in s - {x};
        if m == x { LexTransitive(x, y, n); }
      }
    }
  }

  predicate Ascending(s: seq<string>) { forall i, j :: 0 <= i < j < |s| ==> s[i] != s[j] && LexLe(s[i], s[j]) }

  /** a comes before b in the expired list: outputs and the rest before deps, then by name. */
  predicate ListedBefore(a: string, b: string) {
    a != b && (if IsDeps(a) == IsDeps(b) then LexLe(a, b) else IsDeps(b))
  }

  /** The expired list: exactly the expired names, each once, deps last. */
  ghost predicate Ordered(es0: Entries, expired: seq<string>, cutoff: int) {
    && (forall n :: n in expired <==> IsExpired(es0, n, cutoff))
    && (forall a, b {:trigger ListedBefore(expired[a], expired[b])} ::
          0 <= a < b < |expired| ==> ListedBefore(expired[a], expired[b]))
  }

  class Tracker {
    var entries: Entries

    constructor ()
      ensures entries == map[]
    {
      entries := map[];
    }

    method TouchLocked(name: string, now: int)
      modifies this
      ensures entries == TouchOne(old(entries), name, now)
    {
      var e := if name in entries then entries[name] else Entry(now, now, false);
      entries := entries[name := e.(lastAccess := now)];
    }

    method Touch(name: string, now: int)
      modifies this
      ensures entries == Touched(old(entries), name, now)
    {
      TouchLocked(name, now);
      var sib := FamilySibling(name);
      if sib.Some? && sib.value in entries { TouchLocked(sib.value, now); }
    }

    method Pin(name: string, now: int)
      modifies this
      ensures entries == Pinned(old(entries), name, now)
    {
      TouchLocked(name, now);
      entries := entries[name := entries[name].(pinned := true)];
      var sib := FamilySibling(name);
      if sib.Some? && sib.value in entries {
        TouchLocked(sib.value, now);
        entries := entries[sib.value := entries[sib.value].(pinned := true)];
      }
    }

    method Unpin(name: string)
      modifies this
      ensures entries == Unpinned(old(entries), name)
    {
      if name in entries { entries := entries[name := entries[name].(pinned := false)]; }
      var sib := FamilySibling(name);
      if sib.Some? && sib.value in entries {
        entries := entries[sib.value := entries[sib.value].(pinned := false)];
      }
    }

    method Forget(name: string)
      modifies this
      ensures entries == old(entries) - {name}
    {
      entries := entries - {name};
    }

    method Reconcile(existing: set<string>, now: int)
      modifies this
      ensures entries == Reconciled(old(entries), existing, now)
    {
      var todo := existing;
      while todo != {}
        invariant todo <= existing
        invariant entries.Keys == old(entries).Keys + (existing - todo)
        invariant forall n :: n in entries ==> entries[n] == if n in old(entries) then old(entries)[n] else Seeded(now)
        decreases todo
      {
        var n :| n in todo;
        todo := todo - {n};
        if n !in entries { entries := entries[n := Seeded(now)]; }
      }
      entries := map n | n in entries && n in existing :: entries[n];
    }

    /** The expired names, each once: deps names after all others, in string order within each. */
    method Expired(cutoff: int) returns (out: seq<string>)
      ensures Ordered(entries, out, cutoff)
      ensures forall n :: n in out <==>
                n in entries && !entries[n].pinned && !Bootstrap(n) && entries[n].lastAccess < cutoff
    {
      var todo := entries.Keys;
      var first, deps := [], [];
      while todo != {}
        invariant todo <= entries.Keys
        invariant forall n :: n in first <==> n in entries && n !in todo && IsExpired(entries, n, cutoff) && !IsDeps(n)
        invariant forall n :: n in deps <==> n in entries && n !in todo && IsExpired(entries, n, cutoff) && IsDeps(n)
        invariant forall m, n :: m in entries && m !in todo && n in todo ==> LexLe(m, n)
        invariant Ascending(first) && Ascending(deps)
        decreases todo
      {
        ghost var least := Least(todo);
        var n :| n in todo && forall m :: m in todo ==> LexLe(n, m);
        todo := todo - {n};
        if IsExpired(entries, n, cutoff) {
          if IsDeps(n) { deps := deps + [n]; } else { first := first + [n]; }
        }
      }
      out := first + deps;
      forall i, j | 0 <= i < j < |out| ensures ListedBefore(out[i], out[j]) {
        if j < |first| {
          assert out[i] in first && out[j] in first && first[i] == out[i] && first[j] == out[j];
        } else if i < |first| {
          assert out[i] in first && out[j] in deps;
        } else {
          assert deps[i - |first|] == out[i] && deps[j - |first|] == out[j];
          assert out[i] in deps && out[j] in deps;
        }
      }
      forall n ensures Protected(n) <==> Bootstrap(n) { ProtectedMeans(n); }
    }
  }
}
