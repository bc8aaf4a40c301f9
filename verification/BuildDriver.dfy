/** The local build driver: the memoised, cycle-detecting ensure recursion of
    runner/develop_linux.go and the F-stage pipeline of runner/localbuild.go.
 */
module BuildDriver {
  import opened Wrappers
  import opened BuildRefs
  import opened BuildGraph

  lemma {:induction false} AppliedGrows(refs: Refs, batch: seq<(Ref, Key)>)
    ensures refs.Keys <= Applied(refs, batch).Keys
    decreases |batch|
  {
    if batch != [] { AppliedGrows(refs, batch[..|batch| - 1]); }
  }

  /** RunBuild's batch, cut off after n writes. */
  lemma CutBatch(w: World, g: Plan, refs: Refs, caches: seq<(nat, Key)>, f: Key, deps: Key, out: Key, n: nat)
    requires Safe(refs) && Derived(w, refs) && OutputKP(Covered(w, f)) !in refs && n <= |caches| + 2
    ensures var batch := BuildBatch(caches, Covered(w, f), deps, out);
            var a := Applied(refs, batch[..n]);
            && refs.Keys <= a.Keys && Derived(w, a)
            && (Aliased(w, refs) ==> Aliased(w, a))
            && (Knot(w, g.nodes, g.knot, refs.Keys) <==> Knot(w, g.nodes, g.knot, a.Keys))
            && (Smooth(w, g, refs.Keys) ==> Smooth(w, g, a.Keys))
            && (n == |batch| ==> OutputKP(Covered(w, f)) in a)
  {
    var kp := Covered(w, f);
    BuildBatchSafe(w, refs, caches, kp, deps, out, n);
    BuildBatchPrefix(refs, caches, kp, deps, out, n);
    var a := Applied(refs, BuildBatch(caches, kp, deps, out)[..n]);
    AppliedGrows(refs, BuildBatch(caches, kp, deps, out)[..n]);
    if Knot(w, g.nodes, g.knot, refs.Keys) { KnotStays(w, g.nodes, g.knot, refs.Keys, a.Keys); }
    if Knot(w, g.nodes, g.knot, a.Keys) { KnotBefore(w, g.nodes, g.knot, refs.Keys, a.Keys); }
    if Smooth(w, g, refs.Keys) { SmoothMore(w, g, refs.Keys, a.Keys); }
  }

  // ---- which stages ran ----

  /** One run of a stage, with the references that existed when it started. */
  datatype StageRun = StageRun(stage: Stage, before: set<Ref>)

  function Stages(log: seq<StageRun>): set<Stage> { set e | e in log :: e.stage }

  /** The stage that produces r has run. */
  ghost predicate Backed(w: World, r: Ref, ran: set<Stage>) {
    match r
    case ImportOutput(k) => RunImport(k) in ran
    case BuildFrom(k) => RunBuildFrom(k) in ran
    case PluginResolved(f) => RunPluginResolve(f) in ran
    case PinnedF(f) => RunPin(f) in ran
    case OutputKP(kp) => exists f :: Covered(w, f) == kp && RunBuild(f) in ran
    case _ => true
  }

  /** Every reference that was not there at first comes from a stage that ran. */
  ghost predicate AllBacked(w: World, initial: set<Ref>, refs: set<Ref>, ran: set<Stage>) {
    forall r {:trigger Backed(w, r, ran)} :: r in refs && r !in initial ==> Backed(w, r, ran)
  }

  lemma StagesSnoc(log: seq<StageRun>, e: StageRun)
    ensures Stages(log + [e]) == Stages(log) + {e.stage}
  {
    assert e in log + [e];
    forall s | s in Stages(log) ensures s in Stages(log + [e]) {
      var d :| d in log && d.stage == s;
      assert d in log + [e];
    }
  }

  lemma BackedGrows(w: World, initial: set<Ref>, refs: set<Ref>, ran: set<Stage>, s: Stage)
    requires AllBacked(w, initial, refs, ran)
    ensures AllBacked(w, initial, refs, ran + {s})
  {
    forall r | r in refs && r !in initial ensures Backed(w, r, ran + {s}) {
      assert Backed(w, r, ran);
    }
  }

  lemma CutBacked(w: World, initial: set<Ref>, refs: Refs, ran: set<Stage>, caches: seq<(nat, Key)>, f: Key,
                  deps: Key, out: Key, n: nat)
    requires AllBacked(w, initial, refs.Keys, ran) && RunBuild(f) in ran && n <= |caches| + 2
    ensures AllBacked(w, initial, Applied(refs, BuildBatch(caches, Covered(w, f), deps, out)[..n]).Keys, ran)
  {
    BuildBatchPrefix(refs, caches, Covered(w, f), deps, out, n);
    var a := Applied(refs, BuildBatch(caches, Covered(w, f), deps, out)[..n]);
    forall r: Ref | r in a.Keys && r !in initial ensures Backed(w, r, ran) {
      if r in refs { assert Backed(w, r, ran); }
    }
  }

  lemma PutBacked(w: World, initial: set<Ref>, refs: Refs, ran: set<Stage>, r: Ref, k: Key)
    requires AllBacked(w, initial, refs.Keys, ran) && Backed(w, r, ran)
    ensures AllBacked(w, initial, refs[r := k].Keys, ran)
  {
    forall q | q in refs[r := k].Keys && q !in initial ensures Backed(w, q, ran) {
      assert q != r ==> Backed(w, q, ran);
    }
  }

  /** Every visited node is done. */
  ghost predicate AllDone(w: World, visited: set<Node>, refs: set<Ref>) {
    forall n {:trigger Done(w, n, refs)} :: n in visited ==> Done(w, n, refs)
  }

  lemma DoneMore(w: World, visited: set<Node>, refs: set<Ref>, more: set<Ref>)
    requires AllDone(w, visited, refs) && refs <= more
    ensures AllDone(w, visited, more)
  {
    forall n | n in visited ensures Done(w, n, more) { assert Done(w, n, refs); }
  }

  /** The result of a plugin resolution or of a build is not there yet. */
  predicate Unmade(w: World, s: Stage, refs: set<Ref>) {
    && (s.RunPluginResolve? ==> PluginResolved(s.f) !in refs)
    && (s.RunBuild? ==> OutputKP(Covered(w, s.f)) !in refs)
  }

  /** Every stage in the log ran with all it consumes in place, and no plugin resolution or build ran
      whose result was there. */
  ghost predicate AllReady(w: World, log: seq<StageRun>) {
    forall r {:trigger Ready(w, r.stage, r.before)} :: r in log ==>
      Ready(w, r.stage, r.before) && Unmade(w, r.stage, r.before)
  }

  /** What was there, name by name, when a stage of the log ran: the runtime closure of a fetcher and of
      the inputs of a build as well as their outputs; and what was not. */
  lemma RanWithAll(w: World, log: seq<StageRun>, r: StageRun, k: Key)
    requires AllReady(w, log) && r in log
    ensures r.stage.RunImport? && w.fetcherOf(r.stage.k) == Some(k) ==>
              {BuildFrom(k), OutputF(w.treeOf(k)), DepsF(w.treeOf(k))} <= r.before
    ensures r.stage.RunBuildFrom? && w.sourceOf(r.stage.k) == Import(k) ==> ImportOutput(k) in r.before
    ensures r.stage.RunBuildFrom? && w.sourceOf(r.stage.k) == Build(k) ==>
              {BuildFrom(k), OutputF(w.treeOf(k))} <= r.before
    ensures r.stage.RunPin? ==>
              var blob := w.resolvedOf(r.stage.f);
              && PluginResolved(r.stage.f) in r.before
              && (Import(k) in w.pluginsOf(blob) || Import(k) in w.depsOf(blob) ==> ImportOutput(k) in r.before)
              && (Build(k) in w.pluginsOf(blob) || Build(k) in w.depsOf(blob) ==>
                    {BuildFrom(k), OutputF(w.treeOf(k))} <= r.before)
    ensures r.stage.RunBuild? ==>
              var blob := w.pinnedOf(r.stage.f);
              && PinnedKP(w.kpOf(r.stage.f, blob)) in r.before && OutputKP(w.kpOf(r.stage.f, blob)) !in r.before
              && (Import(k) in w.inputsOf(blob) ==> ImportOutput(k) in r.before)
              && (Build(k) in w.inputsOf(blob) ==>
                    {BuildFrom(k), OutputF(w.treeOf(k)), DepsF(w.treeOf(k))} <= r.before)
    ensures r.stage.RunPluginResolve? ==> PluginResolved(r.stage.f) !in r.before
  {
    assert Ready(w, r.stage, r.before);
    if r.stage.RunPin? {
      assert Build(k) in PinDeps(w, r.stage.f) ==> InputReady(w, Build(k), r.before);
      assert Import(k) in PinDeps(w, r.stage.f) ==> InputReady(w, Import(k), r.before);
    }
    if r.stage.RunBuild? {
      assert Build(k) in Inputs(w, r.stage.f) ==>
          InputReady(w, Build(k), r.before) && ClosureReady(w, Build(k), r.before);
      assert Import(k) in Inputs(w, r.stage.f) ==> InputReady(w, Import(k), r.before);
    }
  }

  lemma ReadySnoc(w: World, log: seq<StageRun>, e: StageRun)
    requires AllReady(w, log) && Ready(w, e.stage, e.before) && Unmade(w, e.stage, e.before)
    ensures AllReady(w, log + [e])
  {
    forall r | r in log + [e] ensures Ready(w, r.stage, r.before) && Unmade(w, r.stage, r.before) {
      if r != e {
        assert r in log;
        assert Ready(w, r.stage, r.before);
      }
    }
  }

  class Driver {
    const w: World
    const st: RefStore
    ghost const g: Plan
    ghost const initial: set<Ref>    // the references there at first
    var visited: set<Node>
    var inProgress: set<Node>
    ghost var log: seq<StageRun>
    ghost var ran: set<Stage>

    constructor (w: World, st: RefStore, ghost g: Plan)
      requires st.Valid() && Derived(w, st.refs) && ClosedUnder(w, g.nodes)
      ensures Valid() && fresh(this) && this.w == w && this.st == st && this.g == g
      ensures visited == {} && inProgress == {} && log == [] && initial == st.refs.Keys
    {
      this.w, this.st, this.g := w, st, g;
      visited, inProgress, log, ran, initial := {}, {}, [], {}, st.refs.Keys;
    }

    ghost predicate Valid()
      reads this, st
    {
      && st.Valid() && Derived(w, st.refs) && ClosedUnder(w, g.nodes) && inProgress <= g.nodes
      && visited !! inProgress && AllDone(w, visited, st.refs.Keys) && AllReady(w, log)
      && ran == Stages(log) && AllBacked(w, initial, st.refs.Keys, ran)
    }

    /** What every step keeps, whether it succeeds or not. */
    twostate predicate Kept()
      reads this, st
    {
      && inProgress == old(inProgress) && old(st.refs).Keys <= st.refs.Keys
      && (old(Tied()) <==> Tied())
      && (Aliased(w, old(st.refs)) ==> Aliased(w, st.refs))
      && (Smooth(w, g, old(st.refs).Keys) ==> Smooth(w, g, st.refs.Keys))
    }

    ghost predicate Tied()
      reads this, st
    {
      Knot(w, g.nodes, g.knot, st.refs.Keys)
    }

    /** Nothing can go wrong below `bound`: no faults, a smooth graph, and only higher nodes open. */
    ghost predicate Clear(bound: nat)
      reads this, st
    {
      !st.faulty && Smooth(w, g, st.refs.Keys) && forall n :: n in inProgress ==> g.rank(n) >= bound
    }

    /** Nothing can go wrong when n is driven. */
    ghost predicate ClearFor(n: Node)
      reads this, st
    {
      Clear(g.rank(n) + 1) && (n in g.soft ==> Done(w, n, st.refs.Keys))
    }

    /** One harmless reference write. */
    method PutRef(r: Ref, k: Key) returns (ok: bool)
      requires Valid() && Safe(st.refs[r := k]) && Backed(w, r, ran)
      requires ValueOf(w, r).Some? ==> k == ValueOf(w, r).value
      requires Tied() ==> Harmless(w, g.nodes, g.knot, st.refs.Keys, r)
      requires Aliased(w, st.refs) ==> Aliased(w, st.refs[r := k])
      modifies st
      ensures Valid() && Kept()
      ensures ok ==> st.refs == old(st.refs)[r := k]
      ensures !ok ==> st.faulty
    {
      ghost var more := st.refs[r := k].Keys;
      if Tied() { KnotStays(w, g.nodes, g.knot, st.refs.Keys, more); }
      if Knot(w, g.nodes, g.knot, more) { KnotBefore(w, g.nodes, g.knot, st.refs.Keys, more); }
      if Smooth(w, g, st.refs.Keys) { SmoothMore(w, g, st.refs.Keys, more); }
      PutBacked(w, initial, st.refs, ran, r, k);
      DoneMore(w, visited, st.refs.Keys, more);
      ok := st.Put(r, k);
    }

    /** Logs that a stage runs now, and whether it succeeds. */
    method Run(s: Stage) returns (ok: bool)
      requires Valid() && Ready(w, s, st.refs.Keys) && Unmade(w, s, st.refs.Keys)
      modifies this`log, this`ran
      ensures Valid() && log == old(log) + [StageRun(s, st.refs.Keys)] && s in ran
      ensures !ok ==> st.faulty
    {
      BackedGrows(w, initial, st.refs.Keys, ran, s);
      StagesSnoc(log, StageRun(s, st.refs.Keys));
      ReadySnoc(w, log, StageRun(s, st.refs.Keys));
      log, ran := log + [StageRun(s, st.refs.Keys)], ran + {s};
      var trouble: bool := *;
      ok := !(st.faulty && trouble);
    }

    // ---- the ensure recursion ----

    method EnsureInput(i: Input) returns (ok: bool)
      requires Valid() && Known(i, g.nodes)
      modifies this, st
      ensures Valid() && Kept()
      ensures InputReady(w, i, old(st.refs).Keys) ==> log == old(log)
      ensures ok ==> InputReady(w, i, st.refs.Keys)
      ensures old(Tied()) && Among(i, g.knot) ==> !ok
      ensures Among(i, old(inProgress)) ==> !ok
      ensures NodeOf(i).None? ==> ok
      ensures NodeOf(i).Some? && old(ClearFor(NodeOf(i).value)) ==> ok
      decreases g.nodes - inProgress, 3
    {
      match i
      case Import(k) => ok := EnsureImport(k);
      case Build(k) => ok := EnsureBuild(k);
      case Tree => ok := true;
    }

    method EnsureImport(k: Key) returns (ok: bool)
      requires Valid() && ImportNode(k) in g.nodes
      modifies this, st
      ensures Valid() && Kept()
      ensures ImportOutput(k) in old(st.refs) ==> log == old(log)
      ensures ok ==> ImportOutput(k) in st.refs
      ensures old(Tied()) && ImportNode(k) in g.knot ==> !ok
      ensures ImportNode(k) in old(inProgress) ==> !ok
      ensures ok ==> ImportNode(k) in visited
      ensures old(ClearFor(ImportNode(k))) ==> ok
      decreases g.nodes - inProgress, 2
    {
      var node := ImportNode(k);
      if Tied() && node in g.knot { KnotIsUndone(w, g.nodes, g.knot, st.refs.Keys, node); }
      assert node in visited ==> Done(w, node, st.refs.Keys);
      if node in visited { return true; }
      if node in inProgress { return false; }
      inProgress := inProgress + {node};
      ok := DriveImport(k);
      inProgress := inProgress - {node};
      if ok { visited := visited + {node}; }
    }

    method DriveImport(k: Key) returns (ok: bool)
      requires Valid() && ImportNode(k) in inProgress
      modifies this, st
      ensures Valid() && Kept()
      ensures ImportOutput(k) in old(st.refs) ==> log == old(log)
      ensures ok ==> ImportOutput(k) in st.refs
      ensures old(Tied()) && ImportNode(k) in g.knot ==> !ok
      ensures old(Clear(g.rank(ImportNode(k))) && (ImportNode(k) in g.soft ==> ImportOutput(k) in st.refs)) ==> ok
      decreases g.nodes - inProgress, 9
    {
      var err, present := st.Has(ImportOutput(k));
      assert Tied() && ImportNode(k) in g.knot ==> Waits(w, g.nodes, g.knot, ImportNode(k), st.refs.Keys);
      if err || present { return !err; }
      assert ImportNode(k) !in g.soft && Smooth(w, g, st.refs.Keys) ==> NodeFits(w, g, ImportNode(k), st.refs.Keys);
      if w.fetcherOf(k).Some? {
        ok := EnsureInput(Build(w.fetcherOf(k).value));
        if !ok { return; }
      }
      ok := Run(RunImport(k));
      if !ok { return; }
      var output: Key := *;
      ok := PutRef(ImportOutput(k), output);
    }

    method EnsureBuild(k: Key) returns (ok: bool)
      requires Valid() && BuildNode(k) in g.nodes
      modifies this, st
      ensures Valid() && Kept()
      ensures Resolves(w, k, old(st.refs).Keys) ==> log == old(log)
      ensures ok ==> Resolves(w, k, st.refs.Keys)
      ensures old(Tied()) && BuildNode(k) in g.knot ==> !ok
      ensures BuildNode(k) in old(inProgress) ==> !ok
      ensures ok ==> BuildNode(k) in visited
      ensures !Resolves(w, k, old(st.refs).Keys) && Among(w.sourceOf(k), old(inProgress) + {BuildNode(k)}) ==> !ok
      ensures old(ClearFor(BuildNode(k))) ==> ok
      decreases g.nodes - inProgress, 2
    {
      var node := BuildNode(k);
      if Tied() && node in g.knot { KnotIsUndone(w, g.nodes, g.knot, st.refs.Keys, node); }
      assert node in visited ==> Done(w, node, st.refs.Keys);
      if node in visited { return true; }
      if node in inProgress { return false; }
      inProgress := inProgress + {node};
      ok := DriveBuild(k);
      inProgress := inProgress - {node};
      if ok { visited := visited + {node}; }
    }

    /** Whether both hops from K to an output are there. */
    method IsBuilt(k: Key) returns (err: bool, built: bool)
      requires Valid()
      ensures err ==> st.faulty
      ensures !err ==> built == Resolves(w, k, st.refs.Keys)
    {
      var bridged;
      err, bridged := st.Has(BuildFrom(k));
      if err || !bridged { return err, false; }
      assert ValueOf(w, BuildFrom(k)) == Some(w.treeOf(k));
      err, built := st.Has(OutputF(st.refs[BuildFrom(k)]));
    }

    method DriveBuild(k: Key) returns (ok: bool)
      requires Valid() && BuildNode(k) in inProgress
      modifies this, st
      ensures Valid() && Kept()
      ensures Resolves(w, k, old(st.refs).Keys) ==> log == old(log)
      ensures ok ==> Resolves(w, k, st.refs.Keys)
      ensures old(Tied()) && BuildNode(k) in g.knot ==> !ok
      ensures !Resolves(w, k, old(st.refs).Keys) && Among(w.sourceOf(k), old(inProgress)) ==> !ok
      ensures old(Clear(g.rank(BuildNode(k))) && (BuildNode(k) in g.soft ==> Resolves(w, k, st.refs.Keys))) ==> ok
      decreases g.nodes - inProgress, 9
    {
      var err, built := IsBuilt(k);
      assert Tied() && BuildNode(k) in g.knot ==> Waits(w, g.nodes, g.knot, BuildNode(k), st.refs.Keys);
      if err || built { return !err; }
      assert BuildNode(k) !in g.soft && Smooth(w, g, st.refs.Keys) ==> NodeFits(w, g, BuildNode(k), st.refs.Keys);
      ok := EnsureInput(w.sourceOf(k));
      if !ok { return; }
      ok := BuildFromSource(k);
    }

    /** The rest of a build whose source is there: the bridge K -> F, then the stages of F. */
    method BuildFromSource(k: Key) returns (ok: bool)
      requires Valid() && BuildNode(k) in inProgress && InputReady(w, w.sourceOf(k), st.refs.Keys)
      requires Tied() ==> !Among(w.sourceOf(k), g.knot)
      modifies this, st
      ensures Valid() && Kept()
      ensures ok ==> Resolves(w, k, st.refs.Keys)
      ensures old(Tied()) && BuildNode(k) in g.knot ==> !ok
      ensures old(Clear(g.rank(BuildNode(k)))) && BuildNode(k) !in g.soft ==> ok
      decreases g.nodes - inProgress, 8
    {
      assert Tied() && BuildNode(k) in g.knot ==> Waits(w, g.nodes, g.knot, BuildNode(k), st.refs.Keys);
      ok := Run(RunBuildFrom(k));
      if !ok { return; }
      ok := PutRef(BuildFrom(k), w.treeOf(k));
      if !ok { return; }
      assert BuildNode(k) !in g.soft && Smooth(w, g, st.refs.Keys) ==> NodeFits(w, g, BuildNode(k), st.refs.Keys);
      ok := DriveFStages(w.treeOf(k), true, g.rank(BuildNode(k)));
    }

    // ---- the pipeline of one build-from tree ----

    /** `bound` matters only for the claim that a clear run succeeds. */
    method DriveFStages(f: Key, runFinal: bool, ghost bound: nat) returns (ok: bool)
      requires Valid() && TreeKnown(w, f, g.nodes)
      requires Tied() ==> !SourcesWait(w, g.nodes, g.knot, f)
      modifies this, st
      ensures Valid() && Kept()
      ensures runFinal && OutputF(f) in old(st.refs) ==> log == old(log)
      ensures ok && runFinal ==> OutputF(f) in st.refs
      ensures ok && runFinal && OutputF(f) !in old(st.refs) ==> OutputsEqual(w, f, st.refs)
      ensures old(Tied() && TreeWaits(w, g.knot, f, st.refs.Keys) && !(runFinal && OutputF(f) in st.refs)) ==> !ok
      ensures old(runFinal && Clear(bound) && OutputF(f) in st.refs) ==> ok
      ensures old(Clear(bound) && TreeFits(w, g, f, bound, st.refs.Keys)) ==> ok
      decreases g.nodes - inProgress, 7
    {
      if runFinal {
        var err, joined := st.Has(OutputF(f));
        if err { return false; }
        if joined { return true; }
      }
      ok := Prepare(f, bound);
      if !ok || !runFinal { return; }
      ok := Finish(f);
    }

    /** Everything before the final stage: pin, ensure the pinned inputs, derive KP. */
    method Prepare(f: Key, ghost bound: nat) returns (ok: bool)
      requires Valid() && TreeKnown(w, f, g.nodes)
      modifies this, st
      ensures Valid() && Kept()
      ensures ok ==> PinnedF(f) in st.refs && PinnedKP(Covered(w, f)) in st.refs
      ensures ok ==> forall i :: i in Inputs(w, f) ==> InputReady(w, i, st.refs.Keys)
      ensures ok && old(Tied()) ==> !TreeWaits(w, g.knot, f, st.refs.Keys)
      ensures old(Tied() && TreeWaits(w, g.knot, f, st.refs.Keys)) ==> !ok
      ensures old(Clear(bound) && TreeFits(w, g, f, bound, st.refs.Keys)) ==> ok
      decreases g.nodes - inProgress, 6
    {
      ok := EnsurePinned(f, bound);
      if !ok { return; }
      ListFitsMore(w, g, Inputs(w, f), bound, old(st.refs).Keys, st.refs.Keys);
      assert ValueOf(w, PinnedF(f)) == Some(w.pinnedOf(f));
      ok := EnsureInputs(w.inputsOf(st.refs[PinnedF(f)]), bound);
      if !ok { return; }
      ok := DeriveKP(f);
    }

    /** The plugin-resolve step, skipped when its result is there. */
    method EnsureResolved(f: Key) returns (ok: bool)
      requires Valid()
      modifies this`log, this`ran, st
      ensures Valid() && Kept()
      ensures PluginResolved(f) in old(st.refs) ==> log == old(log)
      ensures ok ==> PluginResolved(f) in st.refs
      ensures !ok ==> st.faulty
    {
      var err, resolved := st.Has(PluginResolved(f));
      if err || resolved { return !err; }
      ok := Run(RunPluginResolve(f));
      if !ok { return; }
      ok := PutRef(PluginResolved(f), w.resolvedOf(f));
    }

    /** The first half: resolve plugins, build what pinning needs, pin. */
    method EnsurePinned(f: Key, ghost bound: nat) returns (ok: bool)
      requires Valid() && TreeKnown(w, f, g.nodes)
      modifies this, st
      ensures Valid() && Kept()
      ensures PinnedF(f) in old(st.refs) ==> log == old(log)
      ensures ok ==> PinnedF(f) in st.refs
      ensures old(Tied() && PinnedF(f) !in st.refs) && (exists i :: i in PinDeps(w, f) && Among(i, g.knot)) ==> !ok
      ensures old(Clear(bound) && TreeFits(w, g, f, bound, st.refs.Keys)) ==> ok
      decreases g.nodes - inProgress, 5
    {
      var err, pinned := st.Has(PinnedF(f));
      if err || pinned { return !err; }
      ok := EnsureResolved(f);
      if !ok { return; }
      SetFitsMore(w, g, PinDeps(w, f), bound, old(st.refs).Keys, st.refs.Keys);
      ok := EnsurePinDeps(f, bound);
      if !ok { return; }
      ok := Pin(f);
    }

    /** The pin step. */
    method Pin(f: Key) returns (ok: bool)
      requires Valid() && PluginResolved(f) in st.refs
      requires forall i :: i in PinDeps(w, f) ==> InputReady(w, i, st.refs.Keys)
      requires Tied() ==> forall i :: i in PinDeps(w, f) ==> !Among(i, g.knot)
      modifies this`log, this`ran, st
      ensures Valid() && Kept()
      ensures ok ==> PinnedF(f) in st.refs
      ensures !ok ==> st.faulty
    {
      ok := Run(RunPin(f));
      if !ok { return; }
      ok := PutRef(PinnedF(f), w.pinnedOf(f));
    }

    /** ensurePinDeps: the plugins, then the resolution deps, each in any order. */
    method EnsurePinDeps(f: Key, ghost bound: nat) returns (ok: bool)
      requires Valid() && PluginResolved(f) in st.refs && forall i :: i in PinDeps(w, f) ==> Known(i, g.nodes)
      modifies this, st
      ensures Valid() && Kept()
      ensures ok ==> forall i :: i in PinDeps(w, f) ==> InputReady(w, i, st.refs.Keys)
      ensures old(Tied()) && (exists i :: i in PinDeps(w, f) && Among(i, g.knot)) ==> !ok
      ensures old(Clear(bound) && SetFits(w, g, PinDeps(w, f), bound, st.refs.Keys)) ==> ok
      decreases g.nodes - inProgress, 4, 1
    {
      var blob := st.refs[PluginResolved(f)];
      assert ValueOf(w, PluginResolved(f)) == Some(w.resolvedOf(f));
      ok := EnsureAny(w.pluginsOf(blob), bound);
      if !ok { return; }
      SetFitsMore(w, g, PinDeps(w, f), bound, old(st.refs).Keys, st.refs.Keys);
      ok := EnsureAny(w.depsOf(blob), bound);
    }

    /** Every input of a map, in any order. */
    method EnsureAny(inputs: set<Input>, ghost bound: nat) returns (ok: bool)
      requires Valid() && forall i :: i in inputs ==> Known(i, g.nodes)
      modifies this, st
      ensures Valid() && Kept()
      ensures ok ==> forall i :: i in inputs ==> InputReady(w, i, st.refs.Keys)
      ensures old(Tied()) && (exists i :: i in inputs && Among(i, g.knot)) ==> !ok
      ensures old(Clear(bound) && SetFits(w, g, inputs, bound, st.refs.Keys)) ==> ok
      decreases g.nodes - inProgress, 4, 0
    {
      var todo := inputs;
      while todo != {}
        invariant Valid() && Kept() && todo <= inputs
        invariant forall i :: i in inputs && i !in todo ==> InputReady(w, i, st.refs.Keys)
        invariant old(Tied()) ==> forall i :: i in inputs && i !in todo ==> !Among(i, g.knot)
        decreases todo
      {
        var i :| i in todo;
        SetFitsMore(w, g, inputs, bound, old(st.refs).Keys, st.refs.Keys);
        ok := EnsureInput(i);
        if !ok { return; }
        todo := todo - {i};
      }
      ok := true;
    }

    /** ensureInputs: the inputs of the pinned blob, in their order. */
    method EnsureInputs(inputs: seq<Input>, ghost bound: nat) returns (ok: bool)
      requires Valid() && forall i :: i in inputs ==> Known(i, g.nodes)
      modifies this, st
      ensures Valid() && Kept()
      ensures ok ==> forall i :: i in inputs ==> InputReady(w, i, st.refs.Keys)
      ensures old(Tied()) && (exists i :: i in inputs && Among(i, g.knot)) ==> !ok
      ensures old(Clear(bound) && ListFits(w, g, inputs, bound, st.refs.Keys)) ==> ok
      decreases g.nodes - inProgress, 4, 0
    {
      for j := 0 to |inputs|
        invariant Valid() && Kept()
        invariant ReadyTo(w, inputs, j, st.refs.Keys)
        invariant old(Tied()) ==> OutsideTo(inputs, j, g.knot)
      {
        assert inputs[j] in inputs;
        ghost var before := st.refs.Keys;
        TurnSettles(w, g, inputs, j, bound, old(st.refs).Keys, before);
        ok := EnsureInput(inputs[j]);
        if !ok { return; }
        ReadyMore(w, inputs, j, before, st.refs.Keys);
      }
      ok := true;
    }

    /** deriveKP: the local build-pinned:KP alias and the F -> KP binding. */
    method DeriveKP(f: Key) returns (ok: bool)
      requires Valid() && PinnedF(f) in st.refs
      modifies this, st
      ensures Valid() && Kept()
      ensures ok ==> PinnedKP(Covered(w, f)) in st.refs && st.refs[PinnedKP(Covered(w, f))] == old(st.refs)[PinnedF(f)]
      ensures ok ==> PinCover(f) in st.refs && st.refs[PinCover(f)] == Covered(w, f)
      ensures !ok ==> st.faulty
    {
      var blob := st.refs[PinnedF(f)];
      assert ValueOf(w, PinnedF(f)) == Some(w.pinnedOf(f));
      var kp := w.kpOf(f, blob);
      ok := PutRef(PinnedKP(kp), blob);
      if !ok { return; }
      ok := PutRef(PinCover(f), kp);
    }

    /** The final stage: a memo hit on KP, or a build; then the F aliases. */
    method Finish(f: Key) returns (ok: bool)
      requires Valid() && PinnedKP(Covered(w, f)) in st.refs
      requires forall i :: i in Inputs(w, f) ==> InputReady(w, i, st.refs.Keys)
      requires Tied() ==> !TreeWaits(w, g.knot, f, st.refs.Keys) && !SourcesWait(w, g.nodes, g.knot, f)
      modifies this, st
      ensures Valid() && Kept()
      ensures OutputKP(Covered(w, f)) in old(st.refs) ==> log == old(log)
      ensures ok ==> OutputsEqual(w, f, st.refs)
      ensures !ok ==> st.faulty
    {
      var kp := Covered(w, f);
      var err, memo := st.Has(OutputKP(kp));
      if err { return false; }
      if !memo {
        ok := Run(RunBuild(f));
        if !ok { return; }
        ok := Publish(f);
        if !ok { return; }
      }
      ok := WriteFAliases(f);
    }

    /** The ordered batch that ends RunBuild. */
    method Publish(f: Key) returns (ok: bool)
      requires Valid() && OutputKP(Covered(w, f)) !in st.refs && RunBuild(f) in ran
      modifies st
      ensures Valid() && Kept()
      ensures ok ==> OutputKP(Covered(w, f)) in st.refs
      ensures !ok ==> st.faulty
    {
      var kp := Covered(w, f);
      var caches: seq<(nat, Key)>, deps: Key, out: Key := *, *, *;
      forall i | 0 <= i <= |caches| + 2
        ensures Safe(Applied(st.refs, BuildBatch(caches, kp, deps, out)[..i]))
      {
        BuildBatchSafe(w, st.refs, caches, kp, deps, out, i);
      }
      var n;
      ok, n := st.WriteRefs(BuildBatch(caches, kp, deps, out));
      CutBatch(w, g, old(st.refs), caches, f, deps, out, n);
      CutBacked(w, initial, old(st.refs), ran, caches, f, deps, out, n);
      DoneMore(w, visited, old(st.refs).Keys, st.refs.Keys);
    }

    /** writeFAliases: the KP references again under their F names, closure first. */
    method WriteFAliases(f: Key) returns (ok: bool)
      requires Valid() && OutputKP(Covered(w, f)) in st.refs
      requires Tied() ==> !TreeWaits(w, g.knot, f, st.refs.Keys) && !SourcesWait(w, g.nodes, g.knot, f)
      modifies st
      ensures Valid() && Kept()
      ensures ok ==> OutputsEqual(w, f, st.refs)
      ensures !ok ==> st.faulty
    {
      var kp := Covered(w, f);
      var err, haveDeps := st.Has(DepsKP(kp));
      if err || !haveDeps { return false; }
      var deps, out := st.refs[DepsKP(kp)], st.refs[OutputKP(kp)];
      ok := PutRef(DepsF(f), deps);
      if !ok { return; }
      ok := PutRef(OutputF(f), out);
    }
  }

  /** The F references are copies of the KP references. */
  ghost predicate OutputsEqual(w: World, f: Key, refs: Refs) {
    var kp := Covered(w, f);
    && OutputF(f) in refs && OutputKP(kp) in refs && refs[OutputF(f)] == refs[OutputKP(kp)]
    && DepsF(f) in refs && DepsKP(kp) in refs && refs[DepsF(f)] == refs[DepsKP(kp)]
  }
}
