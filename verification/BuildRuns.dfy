/** Whole runs of the local build driver: cycles, what any order of runs can
    finish, and runs that are cut off.
 */
module BuildRuns {
  import opened Wrappers
  import opened BuildRefs
  import opened BuildGraph
  import opened BuildDriver

  /** A plan that claims nothing but the knot. */
  ghost function KnotPlan(nodes: set<Node>, knot: set<Node>): Plan { Plan(nodes, knot, {}, n => 0) }

  /** A cycle of unfinished nodes that need each other ends in an error, at whichever of them a
      driver starts, on any store; and it is still such a set afterwards. */
  method DriveCycle(w: World, st: RefStore, ghost nodes: set<Node>, cycle: seq<Node>, start: nat) returns (ok: bool)
    requires st.Valid() && Derived(w, st.refs) && ClosedUnder(w, nodes)
    requires Cycle(w, nodes, cycle, st.refs.Keys) && start < |cycle|
    modifies st
    ensures !ok
    ensures st.Valid() && Derived(w, st.refs) && Knot(w, nodes, OnCycle(cycle), st.refs.Keys)
  {
    CycleIsKnot(w, nodes, cycle, st.refs.Keys);
    var d := new Driver(w, st, KnotPlan(nodes, OnCycle(cycle)));
    var n := cycle[start];
    assert n in OnCycle(cycle);
    ok := d.EnsureInput(match n case ImportNode(k) => Import(k) case BuildNode(k) => Build(k));
  }

  /** Two definitions of one tree: finishing one finishes the other, if its bridge is there. */
  method DriveTwin(w: World, st: RefStore, ghost nodes: set<Node>, k: Key, twin: Key) returns (ok: bool)
    requires st.Valid() && Derived(w, st.refs) && ClosedUnder(w, nodes) && BuildNode(twin) in nodes
    requires w.treeOf(twin) == w.treeOf(k) && BuildFrom(k) in st.refs
    modifies st
    ensures ok ==> Resolves(w, k, st.refs.Keys)
  {
    var d := new Driver(w, st, KnotPlan(nodes, {}));
    ok := d.EnsureInput(Build(twin));
  }

  /** Drives one free node of the graph on a sound store. */
  method DriveFree(w: World, st: RefStore, ghost nodes: set<Node>, ghost knot: set<Node>, n: Node)
    requires st.Valid() && Derived(w, st.refs) && ClosedUnder(w, nodes) && !st.faulty
    requires n in nodes && Free(w, n, st.refs.Keys) && !Done(w, n, st.refs.Keys)
    modifies st
    ensures st.Valid() && Derived(w, st.refs) && old(st.refs).Keys <= st.refs.Keys && Done(w, n, st.refs.Keys)
    ensures Knot(w, nodes, knot, old(st.refs).Keys) <==> Knot(w, nodes, knot, st.refs.Keys)
  {
    FreeIsSmooth(w, nodes, knot, n, st.refs.Keys);
    var d := new Driver(w, st, PlanFor(nodes, knot, n));
    assert d.ClearFor(n);
    var ok := d.EnsureInput(match n case ImportNode(k) => Import(k) case BuildNode(k) => Build(k));
  }

  /** Drives the graph as far as it goes, in some order. What it finishes is exactly what lies in
      no knot: a knot is what no order of runs can finish, and there is no other obstacle. */
  method DriveAll(w: World, st: RefStore, nodes: set<Node>)
    requires st.Valid() && Derived(w, st.refs) && ClosedUnder(w, nodes) && !st.faulty
    modifies st
    ensures st.Valid() && Derived(w, st.refs)
    ensures forall n :: n in nodes ==> (Done(w, n, st.refs.Keys) <==> !Knotted(w, nodes, n, old(st.refs).Keys))
  {
    ghost var before := st.refs.Keys;
    ghost var knot := AllKnotted(w, nodes, before);
    KnotUnion(w, nodes, before);
    ghost var left := Unfinished(w, nodes, st.refs.Keys);
    while exists n :: n in nodes && !Done(w, n, st.refs.Keys) && Free(w, n, st.refs.Keys)
      invariant st.Valid() && Derived(w, st.refs) && before <= st.refs.Keys
      invariant Knot(w, nodes, knot, st.refs.Keys)
      invariant left == Unfinished(w, nodes, st.refs.Keys)
      decreases left
    {
      var n :| n in nodes && !Done(w, n, st.refs.Keys) && Free(w, n, st.refs.Keys);
      assert n in left;
      DriveFree(w, st, nodes, knot, n);
      left := Unfinished(w, nodes, st.refs.Keys);
    }
    StuckIsKnot(w, nodes, st.refs.Keys);
    forall n | n in nodes ensures Done(w, n, st.refs.Keys) <==> !Knotted(w, nodes, n, before) {
      if n in knot { KnotIsUndone(w, nodes, knot, st.refs.Keys, n); }
      if !Done(w, n, st.refs.Keys) {
        KnotBefore(w, nodes, Unfinished(w, nodes, st.refs.Keys), before, st.refs.Keys);
        assert n in Unfinished(w, nodes, st.refs.Keys);
      }
    }
  }

  // ---- runs that are cut off ----

  /** One run of the tool: an input, or a tree of its own, driven to the end or only pinned. */
  datatype Target = OfInput(i: Input) | OfTree(f: Key, runFinal: bool)

  ghost predicate TargetKnown(w: World, t: Target, nodes: set<Node>) {
    match t
    case OfInput(i) => Known(i, nodes)
    case OfTree(f, _) => TreeKnown(w, f, nodes)
  }

  /** Any number of pipeline runs over one store, each free to stop at any write: after every
      single write so far, each visible output has its closure; and the F names never point
      at anything but what their KP names point at. */
  method ManyRuns(w: World, st: RefStore, targets: seq<Target>, ghost nodes: set<Node>)
    requires st.Valid() && Derived(w, st.refs) && ClosedUnder(w, nodes)
    requires forall t :: t in targets ==> TargetKnown(w, t, nodes)
    modifies st
    ensures st.Valid() && Derived(w, st.refs)
    ensures Aliased(w, old(st.refs)) ==> Aliased(w, st.refs)
  {
    for i := 0 to |targets|
      invariant st.Valid() && Derived(w, st.refs) && (Aliased(w, old(st.refs)) ==> Aliased(w, st.refs))
    {
      assert TargetKnown(w, targets[i], nodes) by { assert targets[i] in targets; }
      var d := new Driver(w, st, KnotPlan(nodes, {}));
      match targets[i] {
        case OfInput(input) => var _ := d.EnsureInput(input);
        case OfTree(f, runFinal) => var _ := d.DriveFStages(f, runFinal, 0);
      }
    }
  }

  // ---- a cycle of unfinished nodes that does not end in an error ----

  /** Definition 0 is built from inputs 2 and 1; definition 1 has the output of 0 as its source;
      definition 2 has the same tree as 1 and a source of its own. */
  const JOINED := World(
    k => None,
    k => if k == 1 then Build(0) else Tree,
    k => if k == 0 then 10 else 11,
    f => f, b => {}, b => {},
    f => f, b => if b == 10 then [Build(2), Build(1)] else [],
    (f: Key, b: Key) => f)

  /** The bridge of definition 1 is there, and nothing else. */
  const JOINED_REFS: Refs := map[BuildFrom(1) := 11]

  const JOINED_NODES: set<Node> := {BuildNode(0), BuildNode(1), BuildNode(2)}

  ghost function JoinedPlan(): Plan {
    Plan(JOINED_NODES, {}, {BuildNode(1)}, n => if n == BuildNode(0) then 1 else 0)
  }

  lemma JoinedFits()
    ensures Safe(JOINED_REFS) && Derived(JOINED, JOINED_REFS) && ClosedUnder(JOINED, JOINED_NODES)
    ensures Smooth(JOINED, JoinedPlan(), JOINED_REFS.Keys)
  {
    var g, refs := JoinedPlan(), JOINED_REFS.Keys;
    var list := Inputs(JOINED, 10);
    assert list == [Build(2), Build(1)];
    assert list[0].Build? && JOINED.treeOf(list[0].k) == JOINED.treeOf(list[1].k);
    assert Joined(JOINED, list, 1, refs);
    assert InTurn(JOINED, g, list, 0, 1, refs) && InTurn(JOINED, g, list, 1, 1, refs);
    assert NodeFits(JOINED, g, BuildNode(0), refs) && NodeFits(JOINED, g, BuildNode(2), refs);
  }

  /** A source edge whose bridge is there does not bind, since the driver asks for the source only
      when the output is missing. Here 0 needs 1, 1 needs 0 and neither is finished, and yet
      driving 0 succeeds: it builds 2 first, whose output is also that of 1. */
  method JoinUntiesCycle() returns (before: bool, ok: bool)
    ensures Build(1) in Inputs(JOINED, JOINED.treeOf(0)) && JOINED.sourceOf(1) == Build(0)
    ensures !before && ok
  {
    JoinedFits();
    var st := new RefStore(false, JOINED_REFS);
    before := Resolves(JOINED, 0, st.refs.Keys) || Resolves(JOINED, 1, st.refs.Keys);
    ok := DriveJoined(st);
    assert Inputs(JOINED, 10)[1] == Build(1);
  }

  method DriveJoined(st: RefStore) returns (ok: bool)
    requires st.Valid() && st.refs == JOINED_REFS && !st.faulty
    modifies st
    ensures ok && Resolves(JOINED, 0, st.refs.Keys)
  {
    JoinedFits();
    var d := new Driver(JOINED, st, JoinedPlan());
    assert d.ClearFor(BuildNode(0));
    ok := d.EnsureInput(Build(0));
  }
}
