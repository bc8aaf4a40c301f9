/** The reconcile, expire and delete part of one garbage-collector sweep
    (gcsweep/gcsweep.go), with deletes that may fail and accesses that land at
    any point of the pass.
 */
module GcSweep {
  import opened Wrappers
  import opened RefTrack

  /** An access by another goroutine. Touches and pins look the reference up first, and do nothing
      to one that does not exist. */
  datatype Access = TouchRef(name: string, at: int) | PinRef(name: string, at: int) | UnpinRef(name: string)
                  | WriteRef(name: string)

  function DepsOutputName(name: string): Option<string> {
    if IsDeps(name) then Some(OutputName(name[|DEPS_PREFIX|..])) else None
  }

  /** The names a pin or an unpin of `name` is about: its own and its sibling's. */
  function PinTargets(name: string): set<string> {
    {name} + (if FamilySibling(name).Some? then {FamilySibling(name).value} else {})
  }

  // ---- the pass on names alone ----

  /** What decides a pass: the references there, those of them that an access pinned since the pass
      began, and the outputs whose delete failed. */
  datatype State = State(refs: set<string>, kept: set<string>, failed: set<string>)

  function Landed(s: State, a: Access): State {
    match a
    case TouchRef(_, _) => s
    case PinRef(n, _) => if n in s.refs then s.(kept := s.kept + PinTargets(n) * s.refs) else s
    case UnpinRef(n) => s.(kept := s.kept - PinTargets(n))
    case WriteRef(n) => s.(refs := s.refs + {n})
  }

  function LandedAll(s: State, accesses: seq<Access>): State {
    if accesses == [] then s else Landed(LandedAll(s, accesses[..|accesses| - 1]), accesses[|accesses| - 1])
  }

  /** A name is passed over if it is pinned, or if its output could not be deleted. */
  predicate PassedOver(s: State, name: string) {
    name in s.kept || (DepsOutputName(name).Some? && DepsOutputName(name).value in s.failed)
  }

  /** The turn of `name`, checked in state s. `window` lands after the check, and before the delete. */
  function Turned(s: State, name: string, stuck: set<string>, window: seq<Access>): State {
    var s' := LandedAll(s, window);
    if PassedOver(s, name) then s'
    else if name in stuck then s'.(failed := s'.failed + if IsOutput(name) then {name} else {})
    else State(s'.refs - {name}, s'.kept - {name}, s'.failed)
  }

  /** A whole pass over the references: the names looked at in turn, the names whose delete fails,
      what lands before the check of each turn, and what lands between its check and its delete. */
  datatype Course = Course(refs: set<string>, turns: seq<string>, stuck: set<string>,
                           during: seq<seq<Access>>, window: seq<seq<Access>>)

  function At(accesses: seq<seq<Access>>, i: nat): seq<Access> { if i < |accesses| then accesses[i] else [] }

  /** How things stand before turn i. */
  function Replay(c: Course, i: nat): State
    requires i <= |c.turns|
    decreases i, 0
  {
    if i == 0 then State(c.refs, {}, {})
    else Turned(Checked(c, i - 1), c.turns[i - 1], c.stuck, At(c.window, i - 1))
  }

  /** How things stand at the check of turn i. */
  function Checked(c: Course, i: nat): State
    requires i < |c.turns|
    decreases i, 1
  {
    LandedAll(Replay(c, i), At(c.during, i))
  }

  function After(c: Course): set<string> { Replay(c, |c.turns|).refs }

  /** The turns are names of the pass, each once, deps last. */
  ghost predicate Listed(c: Course) {
    && (forall n :: n in c.turns ==> n in c.refs)
    && (forall a, b {:trigger ListedBefore(c.turns[a], c.turns[b])} ::
          0 <= a < b < |c.turns| ==> ListedBefore(c.turns[a], c.turns[b]))
  }

  // ---- what an access changes ----

  ghost predicate Pins(accesses: seq<Access>, n: string) {
    exists a :: a in accesses && a.PinRef? && n in PinTargets(a.name)
  }

  /** A pin that finds its reference, and n there. */
  ghost predicate PinsIn(accesses: seq<Access>, refs: set<string>, n: string) {
    n in refs && exists a :: a in accesses && a.PinRef? && a.name in refs && n in PinTargets(a.name)
  }

  ghost predicate Unpins(accesses: seq<Access>, n: string) {
    exists a :: a in accesses && a.UnpinRef? && n in PinTargets(a.name)
  }

  predicate Writes(accesses: seq<Access>, n: string) { WriteRef(n) in accesses }

  /** Accesses fail no delete and take no reference away; only writes add one, and what is kept is there. */
  lemma {:induction false} LandedRefs(s: State, accesses: seq<Access>)
    ensures LandedAll(s, accesses).failed == s.failed && s.refs <= LandedAll(s, accesses).refs
    ensures forall n :: n in LandedAll(s, accesses).refs <==> n in s.refs || Writes(accesses, n)
    ensures s.kept <= s.refs ==> LandedAll(s, accesses).kept <= LandedAll(s, accesses).refs
    decreases |accesses|
  {
    if accesses != [] {
      var init, last := accesses[..|accesses| - 1], accesses[|accesses| - 1];
      assert accesses == init + [last];
      LandedRefs(s, init);
    }
  }

  /** A name is kept when an access pins it, if none unpins it. */
  lemma {:induction false} LandedPins(s: State, accesses: seq<Access>, n: string)
    requires n in s.kept || PinsIn(accesses, s.refs, n)
    requires !Unpins(accesses, n)
    ensures n in LandedAll(s, accesses).kept
    decreases |accesses|
  {
    if accesses != [] {
      var init, last := accesses[..|accesses| - 1], accesses[|accesses| - 1];
      assert accesses == init + [last];
      assert last in accesses;
      LandedRefs(s, init);
      if n in s.kept || PinsIn(init, s.refs, n) { LandedPins(s, init, n); }
    }
  }

  /** Only pins keep a name. */
  lemma {:induction false} LandedOnlyPins(s: State, accesses: seq<Access>, n: string)
    requires n !in s.kept && !Pins(accesses, n)
    ensures n !in LandedAll(s, accesses).kept
    decreases |accesses|
  {
    if accesses != [] {
      var init, last := accesses[..|accesses| - 1], accesses[|accesses| - 1];
      assert last in accesses;
      assert forall a :: a in init ==> a in accesses;
      LandedOnlyPins(s, init, n);
    }
  }

  /** Deps that are there are kept if their output is: pins and unpins are about both. */
  lemma {:induction false} LandedPairs(s: State, accesses: seq<Access>, x: string)
    requires DepsName(x) in s.refs && (OutputName(x) in s.kept ==> DepsName(x) in s.kept)
    ensures OutputName(x) in LandedAll(s, accesses).kept ==> DepsName(x) in LandedAll(s, accesses).kept
    decreases |accesses|
  {
    if accesses != [] {
      var init, last := accesses[..|accesses| - 1], accesses[|accesses| - 1];
      LandedPairs(s, init, x);
      LandedRefs(s, init);
      ApartFrom(last.name, x);
    }
  }

  // ---- who goes ----

  /** What lands in turn k. */
  function Batch(c: Course, k: nat): seq<Access> { At(c.during, k) + At(c.window, k) }

  ghost predicate WrittenFrom(c: Course, i: nat, n: string) {
    exists k :: i <= k < |c.turns| && Writes(Batch(c, k), n)
  }

  /** Turn j deletes its name: its delete does not fail and, at its check, it is not kept and its
      output has not failed. */
  predicate Deletes(c: Course, j: nat)
    requires j < |c.turns|
  {
    c.turns[j] !in c.stuck && !PassedOver(Checked(c, j), c.turns[j])
  }

  /** One turn: its name goes if it is deleted, what is written comes, all else stays. */
  lemma TurnRefs(c: Course, k: nat, n: string)
    requires k < |c.turns|
    ensures n in Replay(c, k + 1).refs <==>
            (n in Replay(c, k).refs || Writes(Batch(c, k), n)) && !(Deletes(c, k) && n == c.turns[k])
    ensures Replay(c, k).kept <= Replay(c, k).refs ==> Replay(c, k + 1).kept <= Replay(c, k + 1).refs
  {
    LandedRefs(Replay(c, k), At(c.during, k));
    LandedRefs(Checked(c, k), At(c.window, k));
  }

  lemma {:induction false} KeptThere(c: Course, i: nat)
    requires i <= |c.turns|
    ensures Replay(c, i).kept <= Replay(c, i).refs
  {
    if i > 0 {
      KeptThere(c, i - 1);
      TurnRefs(c, i - 1, "");
    }
  }

  /** A name goes only at its own turn. */
  lemma {:induction false} GoesOnlyInTurn(c: Course, i: nat, j: nat, n: string)
    requires i <= j <= |c.turns| && n in Replay(c, i).refs && n !in c.turns[i..j]
    ensures n in Replay(c, j).refs
    decreases j
  {
    if i < j {
      assert c.turns[i..j] == c.turns[i..j - 1] + [c.turns[j - 1]];
      GoesOnlyInTurn(c, i, j - 1, n);
      TurnRefs(c, j - 1, n);
    }
  }

  /** A name comes only when it is written. */
  lemma {:induction false} ComesOnlyWritten(c: Course, i: nat, j: nat, n: string)
    requires i <= j <= |c.turns| && n !in Replay(c, i).refs && !WrittenFrom(c, i, n)
    ensures n !in Replay(c, j).refs
    decreases j
  {
    if i < j {
      ComesOnlyWritten(c, i, j - 1, n);
      TurnRefs(c, j - 1, n);
    }
  }

  /** A name that is written and not looked at any more is there. */
  lemma WrittenStays(c: Course, i: nat, n: string)
    requires WrittenFrom(c, i, n) && i <= |c.turns| && n !in c.turns[i..]
    ensures n in After(c)
  {
    var k :| i <= k < |c.turns| && Writes(Batch(c, k), n);
    assert c.turns[k] in c.turns[i..];
    TurnRefs(c, k, n);
    assert n !in c.turns[k + 1..|c.turns|];
    GoesOnlyInTurn(c, k + 1, |c.turns|, n);
  }

  lemma StillListed(c: Course, j: nat)
    requires Listed(c) && j < |c.turns|
    ensures c.turns[j] !in c.turns[j + 1..] && forall i :: 0 <= i <= j ==> c.turns[j] in Replay(c, i).refs
  {
    forall k | 0 <= k < |c.turns| && k != j ensures c.turns[k] != c.turns[j] {
      assert k < j ==> ListedBefore(c.turns[k], c.turns[j]);
      assert j < k ==> ListedBefore(c.turns[j], c.turns[k]);
    }
    assert c.turns[j] in c.turns;
    forall i | 0 <= i <= j ensures c.turns[j] in Replay(c, i).refs { GoesOnlyInTurn(c, 0, i, c.turns[j]); }
  }

  /** A listed name is gone exactly when its turn deletes it and no later access writes it. */
  lemma GoneIff(c: Course, j: nat)
    requires Listed(c) && j < |c.turns|
    ensures c.turns[j] !in After(c) <==> Deletes(c, j) && !WrittenFrom(c, j + 1, c.turns[j])
  {
    var n := c.turns[j];
    StillListed(c, j);
    TurnRefs(c, j, n);
    if WrittenFrom(c, j + 1, n) {
      WrittenStays(c, j + 1, n);
    } else if Deletes(c, j) {
      ComesOnlyWritten(c, j + 1, |c.turns|, n);
    } else {
      GoesOnlyInTurn(c, j + 1, |c.turns|, n);
    }
  }

  // ---- pins hold ----

  lemma Parts(c: Course, k: nat, n: string)
    ensures Unpins(At(c.during, k), n) || Unpins(At(c.window, k), n) ==> Unpins(Batch(c, k), n)
    ensures Pins(At(c.during, k), n) || Pins(At(c.window, k), n) ==> Pins(Batch(c, k), n)
  {
    assert forall a :: a in At(c.during, k) || a in At(c.window, k) ==> a in Batch(c, k);
  }

  lemma KeptStep(c: Course, k: nat, n: string)
    requires k < |c.turns| && n in Checked(c, k).kept && !Unpins(Batch(c, k), n)
    ensures n in Replay(c, k + 1).kept
  {
    Parts(c, k, n);
    LandedPins(Checked(c, k), At(c.window, k), n);
  }

  /** A name that is kept stays kept, as long as no access unpins it. */
  lemma {:induction false} KeptStays(c: Course, i: nat, j: nat, n: string)
    requires i <= j <= |c.turns| && n in Replay(c, i).kept
    requires forall k :: i <= k < |c.turns| ==> !Unpins(Batch(c, k), n)
    ensures n in Replay(c, j).kept && (j < |c.turns| ==> n in Checked(c, j).kept)
    decreases j
  {
    if i < j {
      KeptStays(c, i, j - 1, n);
      assert !Unpins(Batch(c, j - 1), n);
      KeptStep(c, j - 1, n);
    }
    if j < |c.turns| {
      assert !Unpins(Batch(c, j), n);
      Parts(c, j, n);
      LandedPins(Replay(c, j), At(c.during, j), n);
    }
  }

  /** A pin that is about n lands on existing references in turn j: before the check, or between the
      check and the delete of a turn that does not delete n. */
  ghost predicate PinLands(c: Course, j: nat, n: string)
    requires j < |c.turns|
  {
    || PinsIn(At(c.during, j), Replay(c, j).refs, n)
    || (PinsIn(At(c.window, j), Checked(c, j).refs, n) && !(Deletes(c, j) && n == c.turns[j]))
  }

  ghost predicate UnpinnedFrom(c: Course, j: nat, n: string) {
    exists k :: j <= k < |c.turns| && Unpins(Batch(c, k), n)
  }

  /** A pin that lands before the check of turn j keeps every name it is about. One that lands between
      the check and the delete keeps all of them but the name that this turn deletes. Only an unpin
      takes it back. */
  lemma PinHolds(c: Course, j: nat, n: string)
    requires j < |c.turns| && PinLands(c, j, n) && !UnpinnedFrom(c, j, n)
    ensures n in After(c)
  {
    assert !Unpins(Batch(c, j), n);
    Parts(c, j, n);
    if PinsIn(At(c.during, j), Replay(c, j).refs, n) {
      LandedPins(Replay(c, j), At(c.during, j), n);
      KeptStep(c, j, n);
    } else {
      LandedPins(Checked(c, j), At(c.window, j), n);
    }
    KeptStays(c, j + 1, |c.turns|, n);
    KeptThere(c, |c.turns|);
  }

  lemma {:induction false} NeverKept(c: Course, i: nat, n: string)
    requires i <= |c.turns| && forall k :: 0 <= k < |c.turns| ==> !Pins(Batch(c, k), n)
    ensures n !in Replay(c, i).kept && (i < |c.turns| ==> n !in Checked(c, i).kept)
  {
    if i > 0 {
      NeverKept(c, i - 1, n);
      assert !Pins(Batch(c, i - 1), n);
      Parts(c, i - 1, n);
      LandedOnlyPins(Checked(c, i - 1), At(c.window, i - 1), n);
    }
    if i < |c.turns| {
      assert !Pins(Batch(c, i), n);
      Parts(c, i, n);
      LandedOnlyPins(Replay(c, i), At(c.during, i), n);
    }
  }

  // ---- deletes that fail ----

  /** The delete of output n is tried at turn k, and fails. */
  ghost predicate Fails(c: Course, k: nat, n: string)
    requires k < |c.turns|
  {
    c.turns[k] == n && IsOutput(n) && n in c.stuck && n !in Checked(c, k).kept
  }

  /** The failed outputs are those whose delete was tried and fails. */
  lemma {:induction false} FailedIff(c: Course, i: nat, n: string)
    requires i <= |c.turns|
    ensures n in Replay(c, i).failed <==> exists k :: 0 <= k < i && Fails(c, k, n)
    ensures i < |c.turns| ==> Checked(c, i).failed == Replay(c, i).failed
  {
    if i > 0 {
      FailedIff(c, i - 1, n);
      FamiliesApart(c.turns[i - 1]);
      LandedRefs(Checked(c, i - 1), At(c.window, i - 1));
      assert n in Replay(c, i).failed <==> n in Replay(c, i - 1).failed || Fails(c, i - 1, n);
    }
    if i < |c.turns| { LandedRefs(Replay(c, i), At(c.during, i)); }
  }

  /** No access pins or writes n, and neither its delete nor that of its output fails. */
  ghost predicate LeftAlone(c: Course, n: string) {
    && n !in c.stuck && (IsDeps(n) ==> DepsOutputName(n).value !in c.stuck)
    && !WrittenFrom(c, 0, n) && (forall k :: 0 <= k < |c.turns| ==> !Pins(Batch(c, k), n))
  }

  lemma LeftAloneGoes(c: Course, n: string)
    requires Listed(c) && n in c.turns && LeftAlone(c, n)
    ensures n !in After(c)
  {
    var j :| 0 <= j < |c.turns| && c.turns[j] == n;
    GoneIff(c, j);
    NeverKept(c, j, n);
    if IsDeps(n) { FailedIff(c, j, DepsOutputName(n).value); }
  }

  // ---- deps that are lost ----

  /** No deps are gone while their output survives. */
  ghost predicate NoneLost(refs0: set<string>, refs: set<string>) {
    forall x :: DepsName(x) in refs0 && DepsName(x) !in refs ==> OutputName(x) !in refs
  }

  lemma DepsOutput(x: string)
    ensures IsDeps(DepsName(x)) && DepsOutputName(DepsName(x)) == Some(OutputName(x))
    ensures IsOutput(OutputName(x)) && DepsOutputName(OutputName(x)).None?
  {
    ApartFrom(DepsName(x), x);
    assert DepsName(x)[|DEPS_PREFIX|..] == x;
  }

  /** Output n is looked at in turn k, and it is pinned then or written later. */
  ghost predicate StaysAt(c: Course, k: nat, n: string)
    requires k < |c.turns|
  {
    c.turns[k] == n && (n in Checked(c, k).kept || WrittenFrom(c, k + 1, n))
  }

  /** The output of x outlives the pass, and not because its delete fails. */
  ghost predicate OutputStays(c: Course, x: string) {
    if OutputName(x) in c.turns then exists k :: 0 <= k < |c.turns| && StaysAt(c, k, OutputName(x))
    else OutputName(x) in c.refs || WrittenFrom(c, 0, OutputName(x))
  }

  lemma OutputStaysIff(c: Course, j: nat, x: string)
    requires Listed(c) && j < |c.turns| && c.turns[j] == DepsName(x) && Deletes(c, j)
    ensures OutputName(x) in After(c) <==> OutputStays(c, x)
  {
    var o := OutputName(x);
    if o in c.turns {
      forall k | 0 <= k < |c.turns| && c.turns[k] == o ensures o in After(c) <==> StaysAt(c, k, o) {
        DeletedOrKept(c, j, k, x);
        GoneIff(c, k);
      }
    } else if o in c.refs {
      GoesOnlyInTurn(c, 0, |c.turns|, o);
    } else if WrittenFrom(c, 0, o) {
      WrittenStays(c, 0, o);
    } else {
      ComesOnlyWritten(c, 0, |c.turns|, o);
    }
  }

  /** When deps are deleted, their output was deleted or pinned at its own turn, which came first. */
  lemma DeletedOrKept(c: Course, j: nat, k: nat, x: string)
    requires Listed(c) && j < |c.turns| && c.turns[j] == DepsName(x) && Deletes(c, j)
    requires k < |c.turns| && c.turns[k] == OutputName(x)
    ensures k < j && (Deletes(c, k) <==> OutputName(x) !in Checked(c, k).kept)
  {
    DepsOutput(x);
    assert j < k ==> ListedBefore(c.turns[j], c.turns[k]);
    FailedIff(c, j, OutputName(x));
    assert !Fails(c, k, OutputName(x));
  }

  /** Turn j deletes the deps of an output that outlives the pass, and they are not written again. */
  ghost predicate Loses(c: Course, j: nat, x: string)
    requires j < |c.turns|
  {
    c.turns[j] == DepsName(x) && Deletes(c, j) && !WrittenFrom(c, j + 1, DepsName(x)) && OutputStays(c, x)
  }

  /** Deps are gone and their output is not exactly where a turn loses them. */
  lemma LostIff(c: Course, x: string)
    requires Listed(c) && DepsName(x) in c.refs
    ensures DepsName(x) !in After(c) && OutputName(x) in After(c) <==>
            exists j :: 0 <= j < |c.turns| && Loses(c, j, x)
  {
    forall j | 0 <= j < |c.turns| && c.turns[j] == DepsName(x)
      ensures Loses(c, j, x) <==> DepsName(x) !in After(c) && OutputName(x) in After(c)
    {
      GoneIff(c, j);
      if Deletes(c, j) { OutputStaysIff(c, j, x); }
    }
    if DepsName(x) !in c.turns { GoesOnlyInTurn(c, 0, |c.turns|, DepsName(x)); }
  }

  /** Until the turn of listed deps, they are kept if their output is. */
  lemma {:induction false} PairsKept(c: Course, i: nat, j: nat, x: string)
    requires Listed(c) && i <= j < |c.turns| && c.turns[j] == DepsName(x)
    ensures OutputName(x) in Replay(c, i).kept ==> DepsName(x) in Replay(c, i).kept
    ensures OutputName(x) in Checked(c, i).kept ==> DepsName(x) in Checked(c, i).kept
    decreases i
  {
    StillListed(c, j);
    if i > 0 {
      PairsKept(c, i - 1, j, x);
      LandedRefs(Replay(c, i - 1), At(c.during, i - 1));
      LandedPairs(Checked(c, i - 1), At(c.window, i - 1), x);
      assert c.turns[i - 1] != DepsName(x) by { assert ListedBefore(c.turns[i - 1], c.turns[j]); }
    }
    LandedPairs(Replay(c, i), At(c.during, i), x);
  }

  /** Deps are looked at only if their output is, or is not there. */
  ghost predicate Paired(c: Course) {
    forall x :: DepsName(x) in c.turns && OutputName(x) in c.refs ==> OutputName(x) in c.turns
  }

  ghost predicate NoUnpins(c: Course) {
    forall k, n :: 0 <= k < |c.turns| ==> !Unpins(Batch(c, k), n)
  }

  /** An output is written mid-pass only if its listed deps are, after their turn. */
  ghost predicate WritesFit(c: Course) {
    forall j, x :: 0 <= j < |c.turns| && c.turns[j] == DepsName(x) && WrittenFrom(c, 0, OutputName(x)) ==>
      WrittenFrom(c, j + 1, DepsName(x))
  }

  lemma NeverLoses(c: Course, j: nat, x: string)
    requires Listed(c) && Paired(c) && NoUnpins(c) && WritesFit(c) && j < |c.turns|
    ensures !Loses(c, j, x)
  {
    if Loses(c, j, x) {
      var d, o := DepsName(x), OutputName(x);
      assert d in c.turns;
      var k :| 0 <= k < |c.turns| && StaysAt(c, k, o);
      DeletedOrKept(c, j, k, x);
      KeptStep(c, k, o);
      KeptStays(c, k + 1, j, o);
      PairsKept(c, j, j, x);
    }
  }

  /** If deps are looked at only with their output, no unpin lands and the writes fit, none are lost. */
  lemma PairedLosesNone(c: Course)
    requires Listed(c) && Paired(c) && NoUnpins(c) && WritesFit(c)
    ensures NoneLost(c.refs, After(c))
  {
    forall x | DepsName(x) in c.refs ensures DepsName(x) !in After(c) ==> OutputName(x) !in After(c) {
      LostIff(c, x);
      forall j | 0 <= j < |c.turns| ensures !Loses(c, j, x) { NeverLoses(c, j, x); }
    }
  }

  // ---- when the pairs fit ----

  /** Deps have expired only if their output has. */
  ghost predicate PairFits(es: Entries, x: string, cutoff: int) {
    OutputName(x) in es && IsExpired(es, DepsName(x), cutoff) ==> IsExpired(es, OutputName(x), cutoff)
  }

  ghost predicate Fits(es: Entries, cutoff: int) { forall x :: PairFits(es, x, cutoff) }

  /** Pairs that are in step fit, at any cutoff. */
  lemma StepFits(es: Entries, cutoff: int)
    requires InStep(es)
    ensures Fits(es, cutoff)
  {
    forall x ensures PairFits(es, x, cutoff) {
      assert PairInStep(es, x);
      FamiliesApart(OutputName(x));
    }
  }

  lemma FitsPaired(es0: Entries, c: Course, cutoff: int)
    requires Ordered(es0, c.turns, cutoff) && c.refs == es0.Keys && Fits(es0, cutoff)
    ensures Paired(c)
  {
    forall x | DepsName(x) in c.turns && OutputName(x) in c.refs ensures OutputName(x) in c.turns {
      assert PairFits(es0, x, cutoff);
    }
  }

  /** What a sweep does: it looks at exactly the expired names, outputs before deps, and only they go;
      only what is written comes; when the pairs fit, no unpin lands and the writes fit, no output is
      left without its deps; the expired names that are left alone go, and pins hold. */
  ghost predicate Swept(es0: Entries, c: Course, refs: set<string>, cutoff: int) {
    && Ordered(es0, c.turns, cutoff) && Listed(c) && refs == After(c)
    && (forall n :: n in c.refs && n !in refs ==> IsExpired(es0, n, cutoff))
    && (forall n :: n in refs && n !in c.refs ==> WrittenFrom(c, 0, n))
    && (Fits(es0, cutoff) && NoUnpins(c) && WritesFit(c) ==> NoneLost(c.refs, refs))
    && (forall n :: IsExpired(es0, n, cutoff) && LeftAlone(c, n) ==> n !in refs)
    && (forall j, n :: 0 <= j < |c.turns| && PinLands(c, j, n) && !UnpinnedFrom(c, j, n) ==> n in refs)
  }

  lemma SweptAfter(es0: Entries, c: Course, cutoff: int)
    requires Ordered(es0, c.turns, cutoff) && c.refs == es0.Keys
    ensures Swept(es0, c, After(c), cutoff)
  {
    forall n | n in c.refs && n !in After(c) ensures n in c.turns {
      if n !in c.turns { GoesOnlyInTurn(c, 0, |c.turns|, n); }
    }
    forall n | n in After(c) && n !in c.refs ensures WrittenFrom(c, 0, n) {
      if !WrittenFrom(c, 0, n) { ComesOnlyWritten(c, 0, |c.turns|, n); }
    }
    if Fits(es0, cutoff) && NoUnpins(c) && WritesFit(c) {
      FitsPaired(es0, c, cutoff);
      PairedLosesNone(c);
    }
    forall n | IsExpired(es0, n, cutoff) && LeftAlone(c, n) ensures n !in After(c) { LeftAloneGoes(c, n); }
    forall j, n | 0 <= j < |c.turns| && PinLands(c, j, n) && !UnpinnedFrom(c, j, n) ensures n in After(c) {
      PinHolds(c, j, n);
    }
  }

  // ---- the sweep itself ----

  /** The tracker agrees with the state of the pass: of the names still to be looked at, those that it
      has pinned are those that an access kept. If nothing is written (`calm`) it knows every reference,
      and pairs that were in step when the pass began (`step`) still are. */
  ghost predicate Tracks(es: Entries, s: State, todo: seq<string>, calm: bool, step: bool) {
    && (forall n :: n in todo ==> n in s.refs && n in es && (es[n].pinned <==> n in s.kept))
    && (calm ==> s.refs <= es.Keys && (step ==> InStep(es)))
  }

  /** An access lands mid-pass. */
  method Land(t: Tracker, a: Access, refs: set<string>, ghost s: State, ghost todo: seq<string>, ghost calm: bool,
              ghost step: bool)
    returns (refs': set<string>)
    requires s.refs == refs && Tracks(t.entries, s, todo, calm, step) && (calm ==> !a.WriteRef?)
    modifies t
    ensures refs' == Landed(s, a).refs && Tracks(t.entries, Landed(s, a), todo, calm, step)
  {
    refs' := refs;
    match a
    case TouchRef(n, at) =>
      if n in refs {
        if calm && step { TouchKeepsStepIff(t.entries, n, at); }
        t.Touch(n, at);
      }
    case PinRef(n, at) =>
      if n in refs {
        if calm && step { PinKeepsStep(t.entries, n, at); }
        t.Pin(n, at);
      }
    case UnpinRef(n) =>
      if calm && step { PinKeepsStep(t.entries, n, 0); }
      t.Unpin(n);
    case WriteRef(n) =>
      refs' := refs + {n};
  }

  ghost predicate NoWrites(accesses: seq<Access>) { forall a :: a in accesses ==> !a.WriteRef? }

  method LandAll(t: Tracker, accesses: seq<Access>, refs: set<string>, ghost s: State, ghost todo: seq<string>,
                 ghost calm: bool, ghost step: bool)
    returns (refs': set<string>)
    requires s.refs == refs && Tracks(t.entries, s, todo, calm, step) && (calm ==> NoWrites(accesses))
    modifies t
    ensures refs' == LandedAll(s, accesses).refs && Tracks(t.entries, LandedAll(s, accesses), todo, calm, step)
  {
    refs' := refs;
    for k := 0 to |accesses|
      invariant refs' == LandedAll(s, accesses[..k]).refs
      invariant Tracks(t.entries, LandedAll(s, accesses[..k]), todo, calm, step)
    {
      refs' := Land(t, accesses[k], refs', LandedAll(s, accesses[..k]), todo, calm, step);
      assert accesses[..k + 1][..k] == accesses[..k];
    }
    assert accesses[..|accesses|] == accesses;
  }

  /** The turn of one name, from its check on. */
  method Turn(t: Tracker, name: string, refs: set<string>, failed: set<string>, stuck: set<string>,
              window: seq<Access>, ghost s: State, ghost todo: seq<string>, ghost calm: bool, ghost step: bool)
    returns (refs': set<string>, failed': set<string>, gone: bool)
    requires s.refs == refs && s.failed == failed && (calm ==> NoWrites(window))
    requires name !in todo && Tracks(t.entries, s, [name] + todo, calm, step)
    modifies t
    ensures refs' == Turned(s, name, stuck, window).refs && failed' == Turned(s, name, stuck, window).failed
    ensures Tracks(t.entries, Turned(s, name, stuck, window), todo, calm, step)
    ensures gone <==> name !in stuck && !PassedOver(s, name)
  {
    failed', gone := failed, false;
    LandedRefs(s, window);
    var out := DepsOutputName(name);
    assert name in [name] + todo;
    if (out.Some? && out.value in failed) || name !in t.entries || t.entries[name].pinned {
      refs' := LandAll(t, window, refs, s, [name] + todo, calm, step);
      return;
    }
    refs' := LandAll(t, window, refs, s, [name] + todo, calm, step);
    if name in stuck {
      if IsOutput(name) { failed' := failed + {name}; }
      return;
    }
    ForgetKeepsStep(t.entries, name);
    t.Forget(name);
    refs', gone := refs' - {name}, true;
  }

  /** What lands before the check of a turn, then the turn. */
  method TakeTurn(t: Tracker, before: seq<Access>, name: string, refs: set<string>, failed: set<string>,
                  stuck: set<string>, window: seq<Access>, ghost s: State, ghost todo: seq<string>, ghost calm: bool,
                  ghost step: bool)
    returns (refs': set<string>, failed': set<string>, gone: bool)
    requires s.refs == refs && s.failed == failed && (calm ==> NoWrites(before) && NoWrites(window))
    requires name !in todo && Tracks(t.entries, s, [name] + todo, calm, step)
    modifies t
    ensures var s' := Turned(LandedAll(s, before), name, stuck, window);
            refs' == s'.refs && failed' == s'.failed && Tracks(t.entries, s', todo, calm, step)
    ensures gone <==> name !in stuck && !PassedOver(LandedAll(s, before), name)
  {
    LandedRefs(s, before);
    assert name in [name] + todo;
    refs' := LandAll(t, before, refs, s, [name] + todo, calm, step);
    refs', failed', gone := Turn(t, name, refs', failed, stuck, window, LandedAll(s, before), todo, calm, step);
  }

  lemma ForgetKeepsStep(es: Entries, name: string)
    ensures InStep(es) ==> InStep(es - {name})
  {
    if InStep(es) {
      forall x ensures PairInStep(es - {name}, x) { assert PairInStep(es, x); }
    }
  }

  /** Nothing is written mid-pass. */
  ghost predicate Calm(c: Course) { forall k :: 0 <= k < |c.turns| ==> NoWrites(Batch(c, k)) }

  /** How many of the first i turns delete their name. */
  function Deletions(c: Course, i: nat): nat
    requires i <= |c.turns|
  {
    if i == 0 then 0 else Deletions(c, i - 1) + if Deletes(c, i - 1) then 1 else 0
  }

  /** The loop over the expired names. */
  method DeleteExpired(t: Tracker, expired: seq<string>, refs0: set<string>, stuck: set<string>,
                       during: seq<seq<Access>>, window: seq<seq<Access>>, ghost c: Course, ghost step: bool)
    returns (refs: set<string>, deleted: nat)
    requires c == Course(refs0, expired, stuck, during, window) && Listed(c)
    requires Tracks(t.entries, Replay(c, 0), expired, Calm(c), step)
    modifies t
    ensures refs == After(c) && deleted == Deletions(c, |expired|)
    ensures Tracks(t.entries, Replay(c, |expired|), [], Calm(c), step)
  {
    refs, deleted := refs0, 0;
    var failed: set<string> := {};
    for i := 0 to |expired|
      invariant refs == Replay(c, i).refs && failed == Replay(c, i).failed && deleted == Deletions(c, i)
      invariant Tracks(t.entries, Replay(c, i), expired[i..], Calm(c), step)
    {
      var gone;
      StillListed(c, i);
      CalmParts(c, i);
      assert expired[i..] == [expired[i]] + expired[i + 1..];
      refs, failed, gone := TakeTurn(t, At(during, i), expired[i], refs, failed, stuck, At(window, i), Replay(c, i),
                                     expired[i + 1..], Calm(c), step);
      if gone { deleted := deleted + 1; }
    }
  }

  lemma CalmParts(c: Course, k: nat)
    requires k < |c.turns|
    ensures Calm(c) ==> NoWrites(At(c.during, k)) && NoWrites(At(c.window, k))
  {
    if Calm(c) {
      assert NoWrites(Batch(c, k));
      assert forall a :: a in At(c.during, k) || a in At(c.window, k) ==> a in Batch(c, k);
    }
  }

  /** When nothing is written, as many references are gone as turns have deleted. */
  lemma {:induction false} CalmCount(c: Course, i: nat)
    requires Listed(c) && Calm(c) && i <= |c.turns|
    ensures Deletions(c, i) == |c.refs| - |Replay(c, i).refs|
  {
    if i > 0 {
      var s, s' := Replay(c, i - 1), Replay(c, i);
      CalmCount(c, i - 1);
      StillListed(c, i - 1);
      CalmParts(c, i - 1);
      LandedRefs(s, At(c.during, i - 1));
      LandedRefs(Checked(c, i - 1), At(c.window, i - 1));
      assert s'.refs == if Deletes(c, i - 1) then s.refs - {c.turns[i - 1]} else s.refs;
    }
  }

  lemma StartTracks(es0: Entries, c: Course, cutoff: int)
    requires Ordered(es0, c.turns, cutoff) && c.refs == es0.Keys
    ensures Listed(c) && Tracks(es0, Replay(c, 0), c.turns, Calm(c), InStep(es0))
  {
  }

  /** The sweep of the references that the tracker knows. */
  method SweepTracked(refs0: set<string>, t: Tracker, cutoff: int, stuck: set<string>, during: seq<seq<Access>>,
                      window: seq<seq<Access>>)
    returns (refs: set<string>, deleted: nat, ghost c: Course)
    requires refs0 == t.entries.Keys
    modifies t
    ensures c == Course(refs0, c.turns, stuck, during, window)
    ensures Swept(old(t.entries), c, refs, cutoff) && deleted == Deletions(c, |c.turns|)
    ensures Calm(c) ==> && deleted == |refs0| - |refs| && refs <= t.entries.Keys
                        && (InStep(old(t.entries)) ==> InStep(t.entries))
  {
    var expired := t.Expired(cutoff);
    c := Course(refs0, expired, stuck, during, window);
    StartTracks(t.entries, c, cutoff);
    SweptAfter(t.entries, c, cutoff);
    refs, deleted := DeleteExpired(t, expired, refs0, stuck, during, window, c, InStep(t.entries));
    if Calm(c) { CalmCount(c, |expired|); }
  }

  /** n is safe from a sweep: a bootstrap name, or one that was not tracked yet, or pinned, or used
      within the retention period. */
  predicate Spared(es: Entries, n: string, cutoff: int) {
    Bootstrap(n) || n !in es || es[n].pinned || es[n].lastAccess >= cutoff
  }

  lemma SparedMeans(es: Entries, refs0: set<string>, now: int, retention: nat, n: string)
    requires n in refs0
    ensures Spared(es, n, now - retention) <==> !IsExpired(Reconciled(es, refs0, now), n, now - retention)
  {
    ProtectedMeans(n);
  }

  lemma SparedStay(es: Entries, c: Course, refs: set<string>, now: int, retention: nat)
    requires Swept(Reconciled(es, c.refs, now), c, refs, now - retention)
    ensures forall n :: n in c.refs && Spared(es, n, now - retention) ==> n in refs
  {
    forall n | n in c.refs && Spared(es, n, now - retention) ensures n in refs {
      SparedMeans(es, c.refs, now, retention, n);
    }
  }

  /** One sweep. `stuck` are the names whose delete fails; `during[i]` lands before the check of the
      i-th expired name, and `window[i]` between that check and the delete. The course also tells in
      which order the names were looked at. */
  method Sweep(refs0: set<string>, t: Tracker, retention: nat, now: int, stuck: set<string>,
               during: seq<seq<Access>>, window: seq<seq<Access>>)
    returns (refs: set<string>, deleted: nat, ghost c: Course)
    modifies t
    ensures c == Course(refs0, c.turns, stuck, during, window)
    ensures Swept(Reconciled(old(t.entries), refs0, now), c, refs, now - retention)
    ensures forall n :: n in refs0 && Spared(old(t.entries), n, now - retention) ==> n in refs
    ensures deleted == Deletions(c, |c.turns|)
    ensures Calm(c) ==> && deleted == |refs0| - |refs| && refs <= t.entries.Keys
                        && (InStep(Reconciled(old(t.entries), refs0, now)) ==> InStep(t.entries))
  {
    t.Reconcile(refs0, now);
    refs, deleted, c := SweepTracked(refs0, t, now - retention, stuck, during, window);
    SparedStay(old(t.entries), c, refs, now, retention);
  }

  /** Deps never go before their output, in an undisturbed sweep, exactly when every pair fits: the
      deps have expired only if the output has. */
  method UndisturbedSweep(refs0: set<string>, t: Tracker, retention: nat, now: int) returns (refs: set<string>)
    modifies t
    ensures NoneLost(refs0, refs) <==> Fits(Reconciled(old(t.entries), refs0, now), now - retention)
    ensures refs == set n | n in refs0 && Spared(old(t.entries), n, now - retention)
  {
    forall n | n in refs0
      ensures Spared(t.entries, n, now - retention) <==>
              !IsExpired(Reconciled(t.entries, refs0, now), n, now - retention)
    {
      SparedMeans(t.entries, refs0, now, retention, n);
    }
    ghost var es0 := Reconciled(t.entries, refs0, now);
    var left, _, c := Sweep(refs0, t, retention, now, {}, [], []);
    refs := left;
    assert forall n :: LeftAlone(c, n);
    if !Fits(es0, now - retention) {
      var x :| !PairFits(es0, x, now - retention);
      assert DepsName(x) in refs0 && DepsName(x) !in refs && OutputName(x) in refs;
    }
  }

  /** A name that was touched within the retention period survives the sweep, with its tracked sibling. */
  method TouchedSurvives(t: Tracker, name: string, at: int, refs0: set<string>, retention: nat, now: int,
                         stuck: set<string>, during: seq<seq<Access>>, window: seq<seq<Access>>)
    returns (refs: set<string>)
    requires now - retention <= at
    modifies t
    ensures forall m :: m in refs0 && About(old(t.entries), name, m) ==> m in refs
  {
    forall m ensures About(t.entries, name, m) ==> m in Touched(t.entries, name, at) &&
                                                   Touched(t.entries, name, at)[m].lastAccess == at {
      TouchMeans(t.entries, name, at, m);
    }
    t.Touch(name, at);
    var left, _, _ := Sweep(refs0, t, retention, now, stuck, during, window);
    refs := left;
  }

  // ---- promises that a sweep breaks ----

  /** A sweep that ran between the two writes of a build has tracked the deps alone. The next
      one seeds the output at its own time: the pair is out of step, and the deps of a
      surviving output can go. Here the deps were last seen at 0, retention is 10, and the
      sweep at time 12 is the first to see the output. */
  method DepsLostBehindOutput(x: string) returns (refs: set<string>)
    ensures OutputName(x) in refs && DepsName(x) !in refs
  {
    var o, d := OutputName(x), DepsName(x);
    NamesInjective(x, x);
    FamiliesApart(o);
    FamiliesApart(d);
    ProtectedMeans(o);
    ProtectedMeans(d);
    var t := new Tracker();
    t.Reconcile({d}, 0);
    refs := UndisturbedSweep({o, d}, t, 10, 12);
  }

  /** A sweep at time 12, with retention 10, over a pair that was last seen at 0. */
  method SweepPair(x: string, during: seq<seq<Access>>, window: seq<seq<Access>>)
    returns (refs: set<string>, ghost c: Course)
    ensures c == Course({OutputName(x), DepsName(x)}, [OutputName(x), DepsName(x)], {}, during, window)
    ensures Listed(c) && refs == After(c)
  {
    var o, d := OutputName(x), DepsName(x);
    var t := new Tracker();
    t.Reconcile({o, d}, 0);
    ghost var es0 := Reconciled(t.entries, {o, d}, 12);
    var left, _, course := Sweep({o, d}, t, 10, 12, {}, during, window);
    refs, c := left, course;
    PairListed(es0, c.turns, x, 2);
  }

  lemma PairListed(es0: Entries, turns: seq<string>, x: string, cutoff: int)
    requires es0.Keys == {OutputName(x), DepsName(x)} && Ordered(es0, turns, cutoff)
    requires forall n :: n in es0 ==> !es0[n].pinned && es0[n].lastAccess < cutoff
    ensures turns == [OutputName(x), DepsName(x)]
  {
    var o, d := OutputName(x), DepsName(x);
    DepsOutput(x);
    FamiliesApart(o);
    FamiliesApart(d);
    assert o in turns && d in turns;
    forall i, j | 0 <= i < j < |turns| ensures turns[i] == o && turns[j] == d {
      assert turns[i] in turns && turns[j] in turns;
      assert ListedBefore(turns[i], turns[j]);
    }
    var i, j :| 0 <= i < |turns| && 0 <= j < |turns| && turns[i] == o && turns[j] == d;
    assert i < j && i == 0 && turns[1] == d && j == 1;
  }

  /** A pin of an expired output that lands after the check of its turn does not save it. */
  method PinnedDeleted(x: string) returns (refs: set<string>)
    ensures OutputName(x) !in refs
  {
    ghost var c;
    refs, c := SweepPair(x, [], [[PinRef(OutputName(x), 12)]]);
    DepsOutput(x);
    GoneIff(c, 0);
  }

  /** A pin that keeps the output at its turn, taken back before the turn of the deps: the output
      outlives its deps. */
  method DepsLostToUnpin(x: string) returns (refs: set<string>)
    ensures OutputName(x) in refs && DepsName(x) !in refs
  {
    var o := OutputName(x);
    ghost var c;
    refs, c := SweepPair(x, [[PinRef(o, 11)], [UnpinRef(o)]], []);
    DepsOutput(x);
    SiblingIsInverse(x);
    LandedPins(Replay(c, 0), At(c.during, 0), o);
    GoneIff(c, 0);
    FailedIff(c, 1, o);
    GoneIff(c, 1);
  }

  /** A build that writes the pair again, deps first, between the turn of the output and that of the
      deps: the deps just written go, and the output outlives them. */
  method DepsLostToWrite(x: string) returns (refs: set<string>)
    ensures OutputName(x) in refs && DepsName(x) !in refs
  {
    var o, d := OutputName(x), DepsName(x);
    ghost var c;
    refs, c := SweepPair(x, [[], [WriteRef(d), WriteRef(o)]], []);
    DepsOutput(x);
    GoneIff(c, 0);
    assert Writes(Batch(c, 1), o) && WrittenFrom(c, 1, o);
    NeverKept(c, 1, d);
    FailedIff(c, 1, o);
    GoneIff(c, 1);
  }
}
