/** The result references of local builds, what stages need of them, and the
    order in which they are published (runner/refwriter.go, runner/buildrun.go,
    runner/localbuild.go).
 */
module BuildRefs {
  import opened Wrappers

  /** A content key: of a definition (K), of a build-from tree (F), of a covered tree (KP), of an output. */
  type Key = nat

  datatype Input = Import(k: Key) | Build(k: Key) | Tree

  /** Reference names. F and KP trees have different shapes, so their keys never coincide. */
  datatype Ref =
    | ImportOutput(k: Key)
    | BuildFrom(k: Key)        // K -> F
    | PluginResolved(f: Key)
    | PinnedF(f: Key)
    | PinnedKP(kp: Key)
    | PinCover(f: Key)
    | DepsF(f: Key)
    | OutputF(f: Key)
    | DepsKP(kp: Key)
    | OutputKP(kp: Key)
    | Cache(id: nat)

  type Refs = map<Ref, Key>

  /** What the stages compute from content alone. The edges of the graph are not given ahead: a
      driver reads them off the definitions and off the blobs that the stages have stored. Nothing
      is assumed of the graph they span. */
  datatype World = World(
    fetcherOf: Key -> Option<Key>,     // an import's recipe-declared fetcher build
    sourceOf: Key -> Input,            // a build definition's source
    treeOf: Key -> Key,                // its build-from tree F
    resolvedOf: Key -> Key,            // the plugin-resolved blob of F
    pluginsOf: Key -> set<Input>,      // the plugins such a blob names
    depsOf: Key -> set<Input>,         // and the resolution deps
    pinnedOf: Key -> Key,              // the pinned blob of F
    inputsOf: Key -> seq<Input>,       // the inputs such a blob names
    kpOf: (Key, Key) -> Key)           // the covered identity of F and its pinned blob

  /** What pinning F needs. */
  function PinDeps(w: World, f: Key): set<Input> { w.pluginsOf(w.resolvedOf(f)) + w.depsOf(w.resolvedOf(f)) }

  /** What building F needs. */
  function Inputs(w: World, f: Key): seq<Input> { w.inputsOf(w.pinnedOf(f)) }

  function Covered(w: World, f: Key): Key { w.kpOf(f, w.pinnedOf(f)) }

  /** build-from:K -> F -> build-output:F. */
  predicate Resolves(w: World, k: Key, refs: set<Ref>) {
    BuildFrom(k) in refs && OutputF(w.treeOf(k)) in refs
  }

  predicate InputReady(w: World, i: Input, refs: set<Ref>) {
    match i
    case Import(k) => ImportOutput(k) in refs
    case Build(k) => Resolves(w, k, refs)
    case Tree => true
  }

  /** The runtime closure of an input is there as well. */
  predicate ClosureReady(w: World, i: Input, refs: set<Ref>) {
    i.Build? ==> BuildFrom(i.k) in refs && DepsF(w.treeOf(i.k)) in refs
  }

  // ---- the stages ----

  datatype Stage =
    | RunImport(k: Key)
    | RunBuildFrom(k: Key)
    | RunPluginResolve(f: Key)
    | RunPin(f: Key)
    | RunBuild(f: Key)

  /** Everything the stage consumes exists. */
  predicate Ready(w: World, s: Stage, refs: set<Ref>) {
    match s
    case RunImport(k) =>
      w.fetcherOf(k).Some? ==>
        Resolves(w, w.fetcherOf(k).value, refs) && ClosureReady(w, Build(w.fetcherOf(k).value), refs)
    case RunBuildFrom(k) => InputReady(w, w.sourceOf(k), refs)
    case RunPluginResolve(f) => true
    case RunPin(f) =>
      PluginResolved(f) in refs && forall i :: i in PinDeps(w, f) ==> InputReady(w, i, refs)
    case RunBuild(f) =>
      PinnedKP(Covered(w, f)) in refs &&
      forall i :: i in Inputs(w, f) ==> InputReady(w, i, refs) && ClosureReady(w, i, refs)
  }

  // ---- what must hold after every single write ----

  /** A visible output has its runtime closure, under F names and under KP names. */
  ghost predicate DepsFirst(refs: set<Ref>) {
    && (forall f :: OutputF(f) in refs ==> DepsF(f) in refs)
    && (forall kp :: OutputKP(kp) in refs ==> DepsKP(kp) in refs)
  }

  /** A visible F output is an alias of its KP output, closure included. */
  ghost predicate Aliased(w: World, refs: Refs) {
    forall f :: OutputF(f) in refs ==>
      var kp := Covered(w, f);
      && OutputKP(kp) in refs && DepsKP(kp) in refs && DepsF(f) in refs
      && refs[OutputF(f)] == refs[OutputKP(kp)] && refs[DepsF(f)] == refs[DepsKP(kp)]
  }

  /** The value that r has whenever it is there, if content alone determines it. */
  function ValueOf(w: World, r: Ref): Option<Key> {
    match r
    case BuildFrom(k) => Some(w.treeOf(k))
    case PluginResolved(f) => Some(w.resolvedOf(f))
    case PinnedF(f) => Some(w.pinnedOf(f))
    case _ => None
  }

  /** Stored bridges and blobs are what their stages compute. */
  ghost predicate Derived(w: World, refs: Refs) {
    forall r {:trigger ValueOf(w, r)} :: r in refs && ValueOf(w, r).Some? ==> refs[r] == ValueOf(w, r).value
  }

  ghost predicate Safe(refs: Refs) { DepsFirst(refs.Keys) }

  function Applied(refs: Refs, batch: seq<(Ref, Key)>): Refs
    decreases |batch|
  {
    if batch == [] then refs
    else Applied(refs, batch[..|batch| - 1])[batch[|batch| - 1].0 := batch[|batch| - 1].1]
  }

  /** A store of references. `history` records its value after every write. */
  class RefStore {
    const faulty: bool
    var refs: Refs
    ghost var history: seq<Refs>

    ghost predicate Valid()
      reads this
    {
      Safe(refs) && forall h :: h in history ==> Safe(h)
    }

    constructor (faulty: bool, refs: Refs)
      requires Safe(refs)
      ensures Valid() && this.faulty == faulty && this.refs == refs && history == []
    {
      this.faulty, this.refs, this.history := faulty, refs, [];
    }

    /** A read; only a faulty store fails it. */
    method Has(r: Ref) returns (err: bool, present: bool)
      ensures err ==> faulty
      ensures !err ==> present == (r in refs)
    {
      var trouble: bool := *;
      err, present := faulty && trouble, r in refs;
    }

    /** One write, after which a run may be cut off. */
    method Put(r: Ref, k: Key) returns (ok: bool)
      requires Valid() && Safe(refs[r := k])
      modifies this
      ensures Valid() && refs == if ok then old(refs)[r := k] else old(refs)
      ensures history == if ok then old(history) + [refs] else old(history)
      ensures !ok ==> faulty
    {
      var trouble: bool := *;
      if faulty && trouble { return false; }
      refs := refs[r := k];
      history := history + [refs];
      ok := true;
    }

    /** WriteRefs: each reference in order, stopping on the first error. */
    method WriteRefs(batch: seq<(Ref, Key)>) returns (ok: bool, n: nat)
      requires Valid() && forall i :: 0 <= i <= |batch| ==> Safe(Applied(refs, batch[..i]))
      modifies this
      ensures Valid() && n <= |batch| && refs == Applied(old(refs), batch[..n])
      ensures history == old(history) + seq(n, i requires 0 <= i < n => Applied(old(refs), batch[..i + 1]))
      ensures ok <==> n == |batch|
      ensures !ok ==> faulty
    {
      ok, n := true, 0;
      while n < |batch|
        invariant Valid() && n <= |batch| && refs == Applied(old(refs), batch[..n])
        invariant history == old(history) + seq(n, i requires 0 <= i < n => Applied(old(refs), batch[..i + 1]))
      {
        assert batch[..n + 1][..n] == batch[..n];
        assert Safe(Applied(old(refs), batch[..n + 1]));
        var put := Put(batch[n].0, batch[n].1);
        if !put { return false, n; }
        n := n + 1;
      }
    }
  }

  // ---- the publication batch at the end of a build ----

  function CacheWrites(caches: seq<(nat, Key)>): (r: seq<(Ref, Key)>)
    ensures |r| == |caches| && forall i :: 0 <= i < |r| ==> r[i].0.Cache? && (r[i].0.id, r[i].1) == caches[i]
  {
    seq(|caches|, i requires 0 <= i < |caches| => (Cache(caches[i].0), caches[i].1))
  }

  /** RunBuild publishes caches, then the closure, then the output. */
  function BuildBatch(caches: seq<(nat, Key)>, kp: Key, deps: Key, out: Key): seq<(Ref, Key)> {
    CacheWrites(caches) + [(DepsKP(kp), deps), (OutputKP(kp), out)]
  }

  lemma {:induction false} CacheWritesOnlyCaches(refs: Refs, batch: seq<(Ref, Key)>)
    requires forall i :: 0 <= i < |batch| ==> batch[i].0.Cache?
    ensures forall r: Ref :: !r.Cache? ==>
              (r in Applied(refs, batch) <==> r in refs) && (r in refs ==> Applied(refs, batch)[r] == refs[r])
    decreases |batch|
  {
    if batch != [] { CacheWritesOnlyCaches(refs, batch[..|batch| - 1]); }
  }

  /** Every prefix of the batch, with the references that are not caches spelled out. */
  lemma BuildBatchPrefix(refs: Refs, caches: seq<(nat, Key)>, kp: Key, deps: Key, out: Key, i: nat)
    requires i <= |caches| + 2
    ensures var batch := BuildBatch(caches, kp, deps, out);
            var a := Applied(refs, batch[..i]);
            && |batch| == |caches| + 2
            && forall r: Ref :: !r.Cache? ==>
                 var d, o := r == DepsKP(kp) && i >= |caches| + 1, r == OutputKP(kp) && i == |caches| + 2;
                 && (r in a <==> r in refs || d || o)
                 && (r in a ==> a[r] == if d then deps else if o then out else refs[r])
  {
    var batch := BuildBatch(caches, kp, deps, out);
    var n := |caches|;
    CacheWritesOnlyCaches(refs, batch[..if i < n then i else n]);
    if i > n {
      assert batch[..n + 1][..n] == batch[..n];
    }
    if i > n + 1 {
      assert batch[..n + 2][..n + 1] == batch[..n + 1];
    }
  }

  /** Wherever the batch is cut off, an output is visible only with its closure; F aliases of an
      output that was already there, bridges and blobs are untouched. */
  lemma BuildBatchSafe(w: World, refs: Refs, caches: seq<(nat, Key)>, kp: Key, deps: Key, out: Key, i: nat)
    requires Safe(refs) && i <= |caches| + 2
    ensures var a := Applied(refs, BuildBatch(caches, kp, deps, out)[..i]);
            && Safe(a) && (Aliased(w, refs) && OutputKP(kp) !in refs ==> Aliased(w, a))
            && (Derived(w, refs) ==> Derived(w, a))
  {
    BatchDepsFirst(refs, caches, kp, deps, out, i);
    if Aliased(w, refs) && OutputKP(kp) !in refs { BatchAliased(w, refs, caches, kp, deps, out, i); }
    if Derived(w, refs) { BatchDerived(w, refs, caches, kp, deps, out, i); }
  }

  lemma BatchDepsFirst(refs: Refs, caches: seq<(nat, Key)>, kp: Key, deps: Key, out: Key, i: nat)
    requires Safe(refs) && i <= |caches| + 2
    ensures Safe(Applied(refs, BuildBatch(caches, kp, deps, out)[..i]))
  {
    BuildBatchPrefix(refs, caches, kp, deps, out, i);
  }

  lemma BatchAliased(w: World, refs: Refs, caches: seq<(nat, Key)>, kp: Key, deps: Key, out: Key, i: nat)
    requires Aliased(w, refs) && OutputKP(kp) !in refs && i <= |caches| + 2
    ensures Aliased(w, Applied(refs, BuildBatch(caches, kp, deps, out)[..i]))
  {
    BuildBatchPrefix(refs, caches, kp, deps, out, i);
  }

  lemma BatchDerived(w: World, refs: Refs, caches: seq<(nat, Key)>, kp: Key, deps: Key, out: Key, i: nat)
    requires Derived(w, refs) && i <= |caches| + 2
    ensures Derived(w, Applied(refs, BuildBatch(caches, kp, deps, out)[..i]))
  {
    BuildBatchPrefix(refs, caches, kp, deps, out, i);
    var a := Applied(refs, BuildBatch(caches, kp, deps, out)[..i]);
    forall r: Ref | r in a && ValueOf(w, r).Some? ensures a[r] == ValueOf(w, r).value {
      assert !r.Cache? && r in refs;
    }
  }
}
