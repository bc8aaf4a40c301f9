/** The graph that the local build driver walks: import and build definitions, what
    finishing each of them needs, when a set of them can never be finished, and
    when driving one cannot fail.
 */
module BuildGraph {
  import opened Wrappers
  import opened BuildRefs

  datatype Node = ImportNode(k: Key) | BuildNode(k: Key)

  function NodeOf(i: Input): Option<Node> {
    match i
    case Import(k) => Some(ImportNode(k))
    case Build(k) => Some(BuildNode(k))
    case Tree => None
  }

  predicate Among(i: Input, nodes: set<Node>) { NodeOf(i).Some? && NodeOf(i).value in nodes }

  /** The node of i is known, or it has none. */
  predicate Known(i: Input, nodes: set<Node>) { NodeOf(i).Some? ==> NodeOf(i).value in nodes }

  predicate Done(w: World, n: Node, refs: set<Ref>) {
    match n
    case ImportNode(k) => ImportOutput(k) in refs
    case BuildNode(k) => Resolves(w, k, refs)
  }

  ghost predicate TreeKnown(w: World, f: Key, nodes: set<Node>) {
    && (forall i :: i in PinDeps(w, f) ==> Known(i, nodes))
    && (forall i :: i in Inputs(w, f) ==> Known(i, nodes))
  }

  /** A finite set of nodes that driving any of them never leaves. */
  ghost predicate ClosedUnder(w: World, nodes: set<Node>) {
    && (forall k :: ImportNode(k) in nodes && w.fetcherOf(k).Some? ==> BuildNode(w.fetcherOf(k).value) in nodes)
    && (forall k :: BuildNode(k) in nodes ==> Known(w.sourceOf(k), nodes) && TreeKnown(w, w.treeOf(k), nodes))
  }

  // ---- knots: sets of nodes that wait for each other ----

  /** Finishing the tree f still needs a member of x. */
  ghost predicate TreeWaits(w: World, x: set<Node>, f: Key, refs: set<Ref>) {
    || (exists i :: i in Inputs(w, f) && Among(i, x))
    || (PinnedF(f) !in refs && exists i :: i in PinDeps(w, f) && Among(i, x))
  }

  /** Members of x lead to the tree f, and every definition of the graph that does needs a member
      of x as its source. */
  ghost predicate SourcesWait(w: World, nodes: set<Node>, x: set<Node>, f: Key) {
    && (exists k :: BuildNode(k) in x && w.treeOf(k) == f)
    && (forall k :: BuildNode(k) in nodes && w.treeOf(k) == f ==> Among(w.sourceOf(k), x))
  }

  /** The build k is unfinished and cannot be finished without a member of x: to get from K to
      its tree F, or, with that bridge already there, to get from F to an output. */
  ghost predicate BuildWaits(w: World, nodes: set<Node>, x: set<Node>, k: Key, refs: set<Ref>) {
    var f := w.treeOf(k);
    || (BuildFrom(k) !in refs && Among(w.sourceOf(k), x))
    || (OutputF(f) !in refs && (TreeWaits(w, x, f, refs) || SourcesWait(w, nodes, x, f)))
  }

  ghost predicate ImportWaits(w: World, x: set<Node>, k: Key, refs: set<Ref>) {
    ImportOutput(k) !in refs && w.fetcherOf(k).Some? && BuildNode(w.fetcherOf(k).value) in x
  }

  ghost predicate Waits(w: World, nodes: set<Node>, x: set<Node>, n: Node, refs: set<Ref>) {
    match n
    case ImportNode(k) => ImportWaits(w, x, k, refs)
    case BuildNode(k) => BuildWaits(w, nodes, x, k, refs)
  }

  /** Every member of x is unfinished and waits for a member of x. */
  ghost predicate Knot(w: World, nodes: set<Node>, x: set<Node>, refs: set<Ref>) {
    x <= nodes && forall n {:trigger Waits(w, nodes, x, n, refs)} :: n in x ==> Waits(w, nodes, x, n, refs)
  }

  /** Writing r does not untie the knot. */
  ghost predicate Harmless(w: World, nodes: set<Node>, x: set<Node>, refs: set<Ref>, r: Ref) {
    match r
    case ImportOutput(k) => ImportNode(k) !in x
    case BuildFrom(k) => !Among(w.sourceOf(k), x)
    case OutputF(f) => !TreeWaits(w, x, f, refs) && !SourcesWait(w, nodes, x, f)
    case PinnedF(f) => forall i :: i in PinDeps(w, f) ==> !Among(i, x)
    case _ => true
  }

  lemma KnotStays(w: World, nodes: set<Node>, x: set<Node>, refs: set<Ref>, more: set<Ref>)
    requires Knot(w, nodes, x, refs) && refs <= more
    requires forall r :: r in more && r !in refs ==> Harmless(w, nodes, x, refs, r)
    ensures Knot(w, nodes, x, more)
  {
    forall n | n in x ensures Waits(w, nodes, x, n, more) {
      assert Waits(w, nodes, x, n, refs);
    }
  }

  /** A knot was one when fewer references were there. */
  lemma KnotBefore(w: World, nodes: set<Node>, x: set<Node>, refs: set<Ref>, more: set<Ref>)
    requires Knot(w, nodes, x, more) && refs <= more
    ensures Knot(w, nodes, x, refs)
  {
    forall n | n in x ensures Waits(w, nodes, x, n, refs) {
      assert Waits(w, nodes, x, n, more);
    }
  }

  lemma KnotIsUndone(w: World, nodes: set<Node>, x: set<Node>, refs: set<Ref>, n: Node)
    requires Knot(w, nodes, x, refs) && n in x
    ensures !Done(w, n, refs)
  {
    assert Waits(w, nodes, x, n, refs);
  }

  /** n lies in some knot. */
  ghost predicate Knotted(w: World, nodes: set<Node>, n: Node, refs: set<Ref>) {
    exists x {:trigger Knot(w, nodes, x, refs)} :: n in x && Knot(w, nodes, x, refs)
  }

  ghost function AllKnotted(w: World, nodes: set<Node>, refs: set<Ref>): set<Node> {
    set n | n in nodes && Knotted(w, nodes, n, refs)
  }

  lemma WaitsMore(w: World, nodes: set<Node>, x: set<Node>, y: set<Node>, n: Node, refs: set<Ref>)
    requires Waits(w, nodes, x, n, refs) && x <= y
    ensures Waits(w, nodes, y, n, refs)
  {
  }

  /** All knots together are a knot. */
  lemma KnotUnion(w: World, nodes: set<Node>, refs: set<Ref>)
    ensures Knot(w, nodes, AllKnotted(w, nodes, refs), refs)
  {
    var y := AllKnotted(w, nodes, refs);
    forall n | n in y ensures Waits(w, nodes, y, n, refs) {
      var x :| n in x && Knot(w, nodes, x, refs);
      assert Waits(w, nodes, x, n, refs);
      forall m | m in x ensures m in y {}
      WaitsMore(w, nodes, x, y, n, refs);
    }
  }

  // ---- cycles ----

  /** n is unfinished, and driving it to the end cannot avoid m. A source edge binds when the
      bridge from K to F is not there, or when all definitions of F in the graph need x. */
  ghost predicate Needs(w: World, nodes: set<Node>, x: set<Node>, n: Node, m: Node, refs: set<Ref>) {
    match n
    case ImportNode(k) => ImportOutput(k) !in refs && m.BuildNode? && w.fetcherOf(k) == Some(m.k)
    case BuildNode(k) =>
      var f := w.treeOf(k);
      || (NodeOf(w.sourceOf(k)) == Some(m) && BuildFrom(k) !in refs)
      || (NodeOf(w.sourceOf(k)) == Some(m) && OutputF(f) !in refs && SourcesWait(w, nodes, x, f))
      || (OutputF(f) !in refs && exists i :: i in Inputs(w, f) && NodeOf(i) == Some(m))
      || (OutputF(f) !in refs && PinnedF(f) !in refs && exists i :: i in PinDeps(w, f) && NodeOf(i) == Some(m))
  }

  function OnCycle(cycle: seq<Node>): set<Node> { set n | n in cycle }

  /** The i-th node of the cycle needs the one after it. */
  ghost predicate CycleEdge(w: World, nodes: set<Node>, cycle: seq<Node>, refs: set<Ref>, i: nat)
    requires i < |cycle|
  {
    Needs(w, nodes, OnCycle(cycle), cycle[i], cycle[if i + 1 == |cycle| then 0 else i + 1], refs)
  }

  /** A cycle of unfinished nodes that need each other. */
  ghost predicate Cycle(w: World, nodes: set<Node>, cycle: seq<Node>, refs: set<Ref>) {
    && OnCycle(cycle) <= nodes
    && forall i :: 0 <= i < |cycle| ==> CycleEdge(w, nodes, cycle, refs, i)
  }

  lemma CycleIsKnot(w: World, nodes: set<Node>, cycle: seq<Node>, refs: set<Ref>)
    requires Cycle(w, nodes, cycle, refs)
    ensures Knot(w, nodes, OnCycle(cycle), refs)
  {
    var x := OnCycle(cycle);
    forall n | n in x ensures Waits(w, nodes, x, n, refs) {
      var i :| 0 <= i < |cycle| && cycle[i] == n;
      assert CycleEdge(w, nodes, cycle, refs, i);
      var next := cycle[if i + 1 == |cycle| then 0 else i + 1];
      assert next in x && Needs(w, nodes, x, n, next, refs);
    }
  }

  // ---- when driving cannot fail ----

  /** A graph and what a proof about one drive may assume of it: `knot` matters while it is a knot;
      `rank` falls along the edges of all nodes but the `soft` ones, which are driven only when done. */
  datatype Plan = Plan(nodes: set<Node>, knot: set<Node>, soft: set<Node>, rank: Node -> nat)

  /** Driving i below `bound` is safe. */
  ghost predicate Settled(w: World, g: Plan, i: Input, bound: nat, refs: set<Ref>) {
    NodeOf(i).Some? ==>
      var n := NodeOf(i).value;
      g.rank(n) < bound && (n in g.soft ==> Done(w, n, refs))
  }

  /** The j-th input of the list has its bridge, and an earlier one builds the same tree. */
  ghost predicate Joined(w: World, list: seq<Input>, j: nat, refs: set<Ref>)
    requires j < |list|
  {
    && list[j].Build? && BuildFrom(list[j].k) in refs
    && exists i :: 0 <= i < j && list[i].Build? && w.treeOf(list[i].k) == w.treeOf(list[j].k)
  }

  /** The j-th input is safe to drive once those before it are done. */
  ghost predicate InTurn(w: World, g: Plan, list: seq<Input>, j: nat, bound: nat, refs: set<Ref>)
    requires j < |list|
  {
    NodeOf(list[j]).Some? ==>
      var n := NodeOf(list[j]).value;
      g.rank(n) < bound && (n in g.soft ==> Done(w, n, refs) || Joined(w, list, j, refs))
  }

  ghost predicate ListFits(w: World, g: Plan, list: seq<Input>, bound: nat, refs: set<Ref>) {
    forall j :: 0 <= j < |list| ==> InTurn(w, g, list, j, bound, refs)
  }

  ghost predicate SetFits(w: World, g: Plan, inputs: set<Input>, bound: nat, refs: set<Ref>) {
    forall i :: i in inputs ==> Settled(w, g, i, bound, refs)
  }

  ghost predicate TreeFits(w: World, g: Plan, f: Key, bound: nat, refs: set<Ref>) {
    ListFits(w, g, Inputs(w, f), bound, refs) && (PinnedF(f) in refs || SetFits(w, g, PinDeps(w, f), bound, refs))
  }

  ghost predicate NodeFits(w: World, g: Plan, n: Node, refs: set<Ref>) {
    match n
    case ImportNode(k) => w.fetcherOf(k).Some? ==> Settled(w, g, Build(w.fetcherOf(k).value), g.rank(n), refs)
    case BuildNode(k) =>
      && Settled(w, g, w.sourceOf(k), g.rank(n), refs)
      && (OutputF(w.treeOf(k)) in refs || TreeFits(w, g, w.treeOf(k), g.rank(n), refs))
  }

  ghost predicate Smooth(w: World, g: Plan, refs: set<Ref>) {
    forall n {:trigger NodeFits(w, g, n, refs)} :: n in g.nodes && n !in g.soft ==> NodeFits(w, g, n, refs)
  }

  lemma ListFitsMore(w: World, g: Plan, list: seq<Input>, bound: nat, refs: set<Ref>, more: set<Ref>)
    requires refs <= more
    ensures ListFits(w, g, list, bound, refs) ==> ListFits(w, g, list, bound, more)
  {
    if ListFits(w, g, list, bound, refs) {
      forall j | 0 <= j < |list| ensures InTurn(w, g, list, j, bound, more) {
        assert InTurn(w, g, list, j, bound, refs);
      }
    }
  }

  /** The first j inputs are ready. */
  ghost predicate ReadyTo(w: World, list: seq<Input>, j: nat, refs: set<Ref>)
    requires j <= |list|
  {
    forall i :: 0 <= i < j ==> InputReady(w, list[i], refs)
  }

  lemma ReadyMore(w: World, list: seq<Input>, j: nat, refs: set<Ref>, more: set<Ref>)
    requires j < |list| && ReadyTo(w, list, j, refs) && refs <= more && InputReady(w, list[j], more)
    ensures ReadyTo(w, list, j + 1, more)
  {
    forall i | 0 <= i < j ensures InputReady(w, list[i], more) { assert InputReady(w, list[i], refs); }
  }

  /** None of the first j inputs is in x. */
  ghost predicate OutsideTo(list: seq<Input>, j: nat, x: set<Node>)
    requires j <= |list|
  {
    forall i :: 0 <= i < j ==> !Among(list[i], x)
  }

  /** In its turn an input is safe to drive. */
  lemma TurnSettles(w: World, g: Plan, list: seq<Input>, j: nat, bound: nat, refs: set<Ref>, more: set<Ref>)
    requires refs <= more && j < |list| && ReadyTo(w, list, j, more)
    ensures ListFits(w, g, list, bound, refs) ==> Settled(w, g, list[j], bound, more)
  {
    if ListFits(w, g, list, bound, refs) { assert InTurn(w, g, list, j, bound, refs); }
  }

  lemma SetFitsMore(w: World, g: Plan, inputs: set<Input>, bound: nat, refs: set<Ref>, more: set<Ref>)
    requires refs <= more
    ensures SetFits(w, g, inputs, bound, refs) ==> SetFits(w, g, inputs, bound, more)
  {
    if SetFits(w, g, inputs, bound, refs) {
      forall i | i in inputs ensures Settled(w, g, i, bound, more) {
        assert Settled(w, g, i, bound, refs);
      }
    }
  }

  lemma TreeFitsMore(w: World, g: Plan, f: Key, bound: nat, refs: set<Ref>, more: set<Ref>)
    requires TreeFits(w, g, f, bound, refs) && refs <= more
    ensures TreeFits(w, g, f, bound, more)
  {
    ListFitsMore(w, g, Inputs(w, f), bound, refs, more);
    SetFitsMore(w, g, PinDeps(w, f), bound, refs, more);
  }

  lemma SmoothMore(w: World, g: Plan, refs: set<Ref>, more: set<Ref>)
    requires Smooth(w, g, refs) && refs <= more
    ensures Smooth(w, g, more)
  {
    forall n | n in g.nodes && n !in g.soft ensures NodeFits(w, g, n, more) {
      assert NodeFits(w, g, n, refs);
      if n.BuildNode? && OutputF(w.treeOf(n.k)) !in refs { TreeFitsMore(w, g, w.treeOf(n.k), g.rank(n), refs, more); }
    }
  }

  // ---- the nodes that are free to be driven ----

  /** Everything that driving n asks for is there. */
  predicate Free(w: World, n: Node, refs: set<Ref>) {
    match n
    case ImportNode(k) => w.fetcherOf(k).Some? ==> Resolves(w, w.fetcherOf(k).value, refs)
    case BuildNode(k) =>
      var f := w.treeOf(k);
      && InputReady(w, w.sourceOf(k), refs)
      && (OutputF(f) in refs || TreeFree(w, f, refs))
  }

  predicate TreeFree(w: World, f: Key, refs: set<Ref>) {
    && (forall i :: i in Inputs(w, f) ==> InputReady(w, i, refs))
    && (PinnedF(f) in refs || forall i :: i in PinDeps(w, f) ==> InputReady(w, i, refs))
  }

  /** A plan under which driving the free, unfinished node n cannot fail. */
  ghost function PlanFor(nodes: set<Node>, knot: set<Node>, n: Node): Plan {
    Plan(nodes, knot, nodes - {n}, m => if m == n then 1 else 0)
  }

  lemma FreeIsSmooth(w: World, nodes: set<Node>, knot: set<Node>, n: Node, refs: set<Ref>)
    requires ClosedUnder(w, nodes) && n in nodes && Free(w, n, refs) && !Done(w, n, refs)
    ensures Smooth(w, PlanFor(nodes, knot, n), refs)
  {
    var g := PlanFor(nodes, knot, n);
    if n.BuildNode? && OutputF(w.treeOf(n.k)) !in refs {
      var list := Inputs(w, w.treeOf(n.k));
      forall j | 0 <= j < |list| ensures InTurn(w, g, list, j, 1, refs) {
        assert list[j] in list;
      }
    }
  }

  ghost function Unfinished(w: World, nodes: set<Node>, refs: set<Ref>): set<Node> {
    set n | n in nodes && !Done(w, n, refs)
  }

  /** When no unfinished node is free, the unfinished nodes are a knot. */
  lemma StuckIsKnot(w: World, nodes: set<Node>, refs: set<Ref>)
    requires ClosedUnder(w, nodes)
    requires forall n :: n in nodes && !Done(w, n, refs) ==> !Free(w, n, refs)
    ensures Knot(w, nodes, Unfinished(w, nodes, refs), refs)
  {
    var u := Unfinished(w, nodes, refs);
    forall n | n in u ensures Waits(w, nodes, u, n, refs) {
      assert !Free(w, n, refs);
      if n.BuildNode? { StuckBuild(w, nodes, refs, n.k); }
    }
  }

  lemma StuckBuild(w: World, nodes: set<Node>, refs: set<Ref>, k: Key)
    requires ClosedUnder(w, nodes) && BuildNode(k) in nodes && !Resolves(w, k, refs)
    requires forall n :: n in nodes && !Done(w, n, refs) ==> !Free(w, n, refs)
    ensures BuildWaits(w, nodes, Unfinished(w, nodes, refs), k, refs)
  {
    var u, f := Unfinished(w, nodes, refs), w.treeOf(k);
    if BuildFrom(k) in refs && !TreeWaits(w, u, f, refs) {
      forall i | i in Inputs(w, f) ensures InputReady(w, i, refs) { assert Known(i, nodes); }
      if PinnedF(f) !in refs {
        forall i | i in PinDeps(w, f) ensures InputReady(w, i, refs) { assert Known(i, nodes); }
      }
      forall k' | BuildNode(k') in nodes && w.treeOf(k') == f ensures Among(w.sourceOf(k'), u) {
        assert !Done(w, BuildNode(k'), refs) && !Free(w, BuildNode(k'), refs);
      }
      assert BuildNode(k) in u;
    } else if BuildFrom(k) !in refs && !Among(w.sourceOf(k), u) {
      assert InputReady(w, w.sourceOf(k), refs) && !Free(w, BuildNode(k), refs);
    }
  }
}
