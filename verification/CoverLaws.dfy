/** What the covered closure is for: pruning the context to it never fails, and
    every path at or below a covered one still resolves, through any chain of
    symlinks, to the same place and the same content.
 */
module CoverLaws {
  import opened Wrappers
  import opened FsTree
  import opened Prune
  import opened PruneLaws
  import opened Cover

  lemma ProperKeepIsClean(keep: seq<Path>)
    requires forall c :: c in keep ==> ProperPath(c)
    ensures CleanAll(keep) == keep
  {
    forall i | 0 <= i < |keep| ensures CleanAll(keep)[i] == keep[i] {
      assert keep[i] in keep;
      CleanRootedProper([], keep[i]);
      assert [] + keep[i] == keep[i];
    }
  }

  /** PruneTree never fails on the paths of a successful walk. */
  lemma WalkedPathsPrune(root: Node, seeds: seq<Path>, allow: set<Path>, visited: set<Path>, keep: seq<Path>)
    requires Expansion(root, seeds, allow, visited, ToSet(keep))
    ensures CleanAll(keep) == keep && PruneSpec(root, keep).Some?
  {
    forall c | c in keep ensures Anchored(root, c, ToSet(keep)) { assert c in ToSet(keep); }
    ProperKeepIsClean(keep);
    forall c | Minimal(keep, c) ensures Lookup(root, c).Some? {
      assert Anchored(root, c, ToSet(keep));
      forall i | 0 < i < |c| ensures c[..i] !in ToSet(keep) {
        assert c[..i] < c;
      }
    }
    PruneSucceedsIff(root, keep);
    assert keep != [] by { var c :| c in ToSet(keep); }
    forall i | 0 <= i < |keep| ensures keep[i] != [] { assert keep[i] in keep; }
  }

  /** After WalkClosure the build directory is a directory of the pruned tree exactly when it is one
      of the context: pruning never loses the workdir, and never makes one up. */
  lemma WorkdirSurvives(root: Node, seeds: seq<Path>, allow: set<Path>, visited: set<Path>, keep: seq<Path>, dir: Path)
    requires Expansion(root, seeds, allow, visited, ToSet(keep)) && dir != [] && Reaches(ToSet(keep), dir)
    ensures PruneSpec(root, keep).Some?
    ensures DirAt(PruneSpec(root, keep).value, dir).Some? <==> DirAt(root, dir).Some?
  {
    WalkedPathsPrune(root, seeds, allow, visited, keep);
    PruneExact(root, keep, dir);
    assert Kept(ToSet(keep), dir);
  }

  // ---- a cover that reaches a build directory which is not there ----

  /** One plain file a. */
  const LONE := Dir(map["a" := LONE_FILE])

  const LONE_FILE := Entry(PLAIN, File([]))

  lemma LoneLookup(p: Path)
    ensures Lookup(LONE, p) == if p == ["a"] then Some(LONE_FILE) else None
  {
    if |p| == 1 { assert p == [p[0]]; }
  }

  lemma LoneResolve()
    ensures Resolve(LONE, ["a"]).outcome == Found(["a"], LONE_FILE)
  {
    assert [] + ["a"] == ["a"];
    LoneLookup(["a"]);
  }

  lemma LoneWalkable()
    ensures WellNamed(LONE) && Walkable(LONE, [["a"]], {})
  {
    forall p { LoneLookup(p); }
    LoneResolve();
    assert ToPathSet([["a"]]) == {["a"]};
    assert Hosts(LONE, {["a"]});
    assert SeedFound(LONE, [["a"]], 0);
  }

  lemma LoneReached(r: WalkResult)
    requires Expands(LONE, [["a"]], {}, r)
    ensures Reaches(r.paths, ["a", "b"])
  {
    var visited :| Expansion(LONE, [["a"]], {}, visited, r.paths);
    LoneResolve();
    assert ["a"] in [["a"]];
    assert Closed(LONE, ["a"], visited, r.paths, {});
    assert ["a"] <= ["a", "b"];
  }

  /** The closure check accepts a cover above the build directory, which need not be there: the
      cover of the file a is accepted for the build directory a/b, and no pruned tree has that. */
  method WorkdirMissing() returns (r: Option<WalkResult>)
    ensures r.Some? && DirAt(LONE, ["a", "b"]).None?
    ensures forall keep :: ToSet(keep) == r.value.paths ==>
              PruneSpec(LONE, keep).Some? && DirAt(PruneSpec(LONE, keep).value, ["a", "b"]).None?
  {
    LoneWalkable();
    LoneLookup(["a", "b"]);
    forall q: WalkResult | Expands(LONE, [["a"]], {}, q) ensures Reaches(q.paths, ["a", "b"]) { LoneReached(q); }
    r := WalkClosure(LONE, ["a", "b"], [["a"]], {});
    forall keep | ToSet(keep) == r.value.paths
      ensures PruneSpec(LONE, keep).Some? && DirAt(PruneSpec(LONE, keep).value, ["a", "b"]).None?
    {
      ghost var visited :| Expansion(LONE, [["a"]], {}, visited, r.value.paths);
      WorkdirSurvives(LONE, [["a"]], {}, visited, keep, ["a", "b"]);
    }
  }

  // ---- resolution is preserved ----

  /** The directory or link at the end of a path that resolves is above or at something covered. */
  lemma {:induction false} LegKept(root: Node, cur: Path, segs: Path, b: nat, covered: set<Path>)
    requires ProperPath(segs) && ResolveFrom(root, cur, segs, b).outcome.Found?
    requires ResolveFrom(root, cur, segs, b).links <= covered && ResolveFrom(root, cur, segs, b).outcome.path in covered
    ensures exists c :: c in covered && cur + [segs[0]] <= c
    decreases |segs|
  {
    var full := cur + [segs[0]];
    assert ProperName(segs[0]);
    if |segs| > 1 && Lookup(root, full).value.node.Dir? {
      LegKept(root, full, segs[1..], b, covered);
      var c :| c in covered && full + [segs[1..][0]] <= c;
      assert full <= full + [segs[1..][0]];
    } else {
      assert full in covered && full <= full;
    }
  }

  /** A prefix that is missing stays missing in front of anything. */
  lemma {:induction false} MissingPrefix(root: Node, cur: Path, segs: Path, rest: Path, b: nat, b': nat)
    requires ProperPath(segs) && ProperPath(cur) && ResolveFrom(root, cur, segs, b).outcome.Missing?
    ensures !ResolveFrom(root, cur, segs + rest, b').outcome.Found?
    decreases b, |segs|
  {
    var full := cur + [segs[0]];
    assert ProperName(segs[0]) && ProperPath(full);
    assert (segs + rest)[0] == segs[0] && (segs + rest)[1..] == segs[1..] + rest;
    if Lookup(root, full).Some? {
      var e := Lookup(root, full).value;
      if e.node.Link? {
        var nt := TargetOf(full, e.node.target);
        if nt.Some? && b' > 0 {
          assert full[..|full| - 1] == cur;
          JoinCleanProper(cur, e.node.target.segs);
          MissingPrefix(root, [], nt.value + segs[1..], rest, b - 1, b' - 1);
          assert nt.value + segs[1..] + rest == nt.value + (segs[1..] + rest);
        }
      } else if e.node.Dir? {
        MissingPrefix(root, full, segs[1..], rest, b, b');
      }
    }
  }

  /** A finished walk over `root`, and the tree pruned to it. */
  datatype Covering = Covering(root: Node, pruned: Node, allow: set<Path>, visited: set<Path>, covered: set<Path>)

  ghost predicate Sound(w: Covering) {
    && w.root.Dir? && w.pruned.Dir?
    && (forall v :: v in w.visited ==> ProperPath(v))
    && AllClosed(w.root, w.visited, w.covered, w.allow)
    && (forall x :: ViewAt(w.pruned, x) == if Kept(w.covered, x) then NormOpt(ViewAt(w.root, x)) else None)
    && (forall x :: x != [] && Below(w.covered, x) && Lookup(w.root, x).Some? ==>
          Lookup(w.pruned, x) == Some(NormEntry(Lookup(w.root, x).value)))
  }

  /** The pruned tree answers like the full one, and a final symlink was chased. */
  ghost predicate SameAnswer(w: Covering, full: Outcome, pruned: Outcome) {
    && full.Found?
    && pruned == Found(full.path, NormEntry(full.entry))
    && (full.entry.node.Link? ==> Chased(full.path, full.entry.node.target, w.visited, w.allow))
  }

  /** On the way along a covered path: segs is what is left of it, rest lies below it. */
  lemma {:induction false} AlongCovered(w: Covering, cur: Path, segs: Path, rest: Path, b0: nat, b: nat)
    requires Sound(w) && segs != [] && ProperPath(cur) && ProperPath(segs) && ProperPath(rest)
    requires var r := ResolveFrom(w.root, cur, segs, b0);
             && r.outcome.Found? && r.links <= w.covered
             && EndCovered(r.outcome.path, r.outcome.entry, w.visited, w.covered, w.allow)
    requires ResolveFrom(w.root, cur, segs + rest, b).outcome.Found?
    ensures SameAnswer(w, ResolveFrom(w.root, cur, segs + rest, b).outcome,
                       ResolveFrom(w.pruned, cur, segs + rest, b).outcome)
    decreases b, |segs + rest|, 1
  {
    var all := segs + rest;
    var full := cur + [segs[0]];
    assert ProperName(segs[0]) && ProperPath(full);
    assert all[0] == segs[0] && all[1..] == segs[1..] + rest;
    LegKept(w.root, cur, segs, b0, w.covered);
    assert Kept(w.covered, full);
    assert ViewAt(w.pruned, full) == NormOpt(ViewAt(w.root, full));
    var e := Lookup(w.root, full).value;
    if |segs| == 1 {
      assert all == segs + rest && all[1..] == rest && full in w.covered;
      AtCoveredEnd(w, cur, segs[0], rest, b);
      assert segs == [segs[0]];
    } else if e.node.Link? {
      var nt := TargetOf(full, e.node.target).value;
      assert full[..|full| - 1] == cur;
      JoinCleanProper(cur, e.node.target.segs);
      assert nt + segs[1..] + rest == nt + all[1..];
      AlongCovered(w, [], nt + segs[1..], rest, b0 - 1, b - 1);
    } else {
      AlongCovered(w, full, segs[1..], rest, b0, b);
    }
  }

  /** The last leg of a covered path, and what lies below it. */
  lemma {:induction false} AtCoveredEnd(w: Covering, cur: Path, name: Name, rest: Path, b: nat)
    requires Sound(w) && ProperPath(cur) && ProperName(name) && ProperPath(rest) && cur + [name] in w.covered
    requires Lookup(w.root, cur + [name]).Some?
    requires EntryScanned(cur + [name], Lookup(w.root, cur + [name]).value, w.visited, w.allow)
    requires ResolveFrom(w.root, cur, [name] + rest, b).outcome.Found?
    ensures SameAnswer(w, ResolveFrom(w.root, cur, [name] + rest, b).outcome,
                       ResolveFrom(w.pruned, cur, [name] + rest, b).outcome)
    decreases b, |[name] + rest|, 0
  {
    var full, all := cur + [name], [name] + rest;
    var e := Lookup(w.root, full).value;
    assert ProperPath(full) && all[1..] == rest && full <= full && Below(w.covered, full);
    assert Lookup(w.pruned, full) == Some(NormEntry(e));
    if rest != [] {
      assert full[..|full| - 1] == cur;
      if e.node.Link? { ThroughLink(w, full, e.node.target, rest, b - 1); } else { InsideCovered(w, full, rest, b); }
    }
  }

  /** Inside a scanned directory that is covered whole. */
  lemma {:induction false} InsideCovered(w: Covering, cur: Path, rest: Path, b: nat)
    requires Sound(w) && rest != [] && ProperPath(cur) && ProperPath(rest)
    requires Below(w.covered, cur) && DirAt(w.root, cur).Some? && cur != []
    requires Scanned(cur, DirAt(w.root, cur).value, w.visited, w.allow)
    requires ResolveFrom(w.root, cur, rest, b).outcome.Found?
    ensures SameAnswer(w, ResolveFrom(w.root, cur, rest, b).outcome, ResolveFrom(w.pruned, cur, rest, b).outcome)
    decreases b, |rest|, 0
  {
    var full := cur + [rest[0]];
    assert ProperName(rest[0]) && ProperPath(full);
    LookupSnoc(w.root, cur, rest[0]);
    var e := Lookup(w.root, full).value;
    assert EntryScanned(full, e, w.visited, w.allow);
    assert Below(w.covered, full) by {
      var c :| c in w.covered && c <= cur;
      assert c <= full;
    }
    assert Lookup(w.pruned, full) == Some(NormEntry(e));
    if |rest| > 1 {
      if e.node.Link? {
        assert full[..|full| - 1] == cur;
        ThroughLink(w, full, e.node.target, rest[1..], b - 1);
      } else {
        InsideCovered(w, full, rest[1..], b);
      }
    }
  }

  /** Through a chased symlink: its target was visited, so it is covered if it leads anywhere. */
  lemma {:induction false} ThroughLink(w: Covering, at: Path, t: Target, rest: Path, b: nat)
    requires Sound(w) && ProperPath(rest) && at != [] && ProperPath(at) && TargetOf(at, t).Some?
    requires Chased(at, t, w.visited, w.allow)
    requires ResolveFrom(w.root, [], TargetOf(at, t).value + rest, b).outcome.Found?
    ensures SameAnswer(w, ResolveFrom(w.root, [], TargetOf(at, t).value + rest, b).outcome,
                       ResolveFrom(w.pruned, [], TargetOf(at, t).value + rest, b).outcome)
    decreases b, |TargetOf(at, t).value + rest|, 2
  {
    var p := TargetOf(at, t).value;
    var r := Resolve(w.root, p);
    assert Closed(w.root, p, w.visited, w.covered, w.allow);
    if r.outcome.Missing? {
      MissingPrefix(w.root, [], p, rest, LINK_BUDGET, b);
      assert false;
    }
    AlongCovered(w, [], p, rest, LINK_BUDGET, b);
  }

  /** A walk and its pruned tree are a sound covering. */
  lemma WalkIsSound(root: Node, seeds: seq<Path>, allow: set<Path>, visited: set<Path>, keep: seq<Path>)
    requires Expansion(root, seeds, allow, visited, ToSet(keep))
    ensures PruneSpec(root, keep).Some?
    ensures Sound(Covering(root, PruneSpec(root, keep).value, allow, visited, ToSet(keep)))
  {
    WalkedPathsPrune(root, seeds, allow, visited, keep);
    var pruned := PruneSpec(root, keep).value;
    forall x
      ensures ViewAt(pruned, x) == if Kept(ToSet(keep), x) then NormOpt(ViewAt(root, x)) else None
      ensures x != [] && Below(ToSet(keep), x) && Lookup(root, x).Some? ==>
                Lookup(pruned, x) == Some(NormEntry(Lookup(root, x).value))
    {
      PruneExact(root, keep, x);
    }
  }

  /** Resolution with the final symlinks followed as well, at most `hops` of them. */
  function Follow(root: Node, p: Path, budget: nat, hops: nat): Outcome
    decreases hops
  {
    var r := ResolveFrom(root, [], p, budget).outcome;
    if !r.Found? || !r.entry.node.Link? then r
    else match TargetOf(r.path, r.entry.node.target)
         case None => Failed
         case Some(t) => if hops == 0 then Failed else Follow(root, t, budget, hops - 1)
  }

  /** Any path at or below a seed that resolves in the full context resolves in the pruned
      tree to the same place, with a copy of the entry and of everything below it. */
  lemma ResolutionPreserved(root: Node, seeds: seq<Path>, allow: set<Path>, visited: set<Path>, keep: seq<Path>,
                            seed: Path, rest: Path, budget: nat)
    requires Expansion(root, seeds, allow, visited, ToSet(keep))
    requires seed in seeds && ProperPath(rest)
    requires ResolveFrom(root, [], seed + rest, budget).outcome.Found?
    ensures PruneSpec(root, keep).Some?
    ensures var full := ResolveFrom(root, [], seed + rest, budget).outcome;
            var pruned := ResolveFrom(PruneSpec(root, keep).value, [], seed + rest, budget).outcome;
            pruned.Found? && pruned.path == full.path && CopiedTree(full.entry, pruned.entry)
  {
    NormEntryCopies(ResolveFrom(root, [], seed + rest, budget).outcome.entry);
    WalkIsSound(root, seeds, allow, visited, keep);
    BelowVisited(Covering(root, PruneSpec(root, keep).value, allow, visited, ToSet(keep)), seed, rest, budget);
  }

  lemma BelowVisited(w: Covering, p: Path, rest: Path, b: nat)
    requires Sound(w) && p in w.visited && ProperPath(rest)
    requires ResolveFrom(w.root, [], p + rest, b).outcome.Found?
    ensures SameAnswer(w, ResolveFrom(w.root, [], p + rest, b).outcome, ResolveFrom(w.pruned, [], p + rest, b).outcome)
  {
    assert Closed(w.root, p, w.visited, w.covered, w.allow);
    if Resolve(w.root, p).outcome.Missing? {
      MissingPrefix(w.root, [], p, rest, LINK_BUDGET, b);
      assert false;
    }
    AlongCovered(w, [], p, rest, LINK_BUDGET, b);
  }

  lemma {:induction false} FollowVisited(w: Covering, p: Path, rest: Path, b: nat, hops: nat)
    requires Sound(w) && p in w.visited && ProperPath(rest) && Follow(w.root, p + rest, b, hops).Found?
    ensures var full := Follow(w.root, p + rest, b, hops);
            Follow(w.pruned, p + rest, b, hops) == Found(full.path, NormEntry(full.entry))
    decreases hops
  {
    BelowVisited(w, p, rest, b);
    var r := ResolveFrom(w.root, [], p + rest, b).outcome;
    if r.entry.node.Link? {
      var t := TargetOf(r.path, r.entry.node.target).value;
      assert t + [] == t;
      FollowVisited(w, t, [], b, hops - 1);
    }
  }

  /** The same with every final symlink followed: no chain dangles after pruning. */
  lemma FollowPreserved(root: Node, seeds: seq<Path>, allow: set<Path>, visited: set<Path>, keep: seq<Path>,
                        seed: Path, rest: Path, budget: nat, hops: nat)
    requires Expansion(root, seeds, allow, visited, ToSet(keep))
    requires seed in seeds && ProperPath(rest)
    requires Follow(root, seed + rest, budget, hops).Found?
    ensures PruneSpec(root, keep).Some?
    ensures var full := Follow(root, seed + rest, budget, hops);
            var pruned := Follow(PruneSpec(root, keep).value, seed + rest, budget, hops);
            pruned.Found? && pruned.path == full.path && CopiedTree(full.entry, pruned.entry)
  {
    NormEntryCopies(Follow(root, seed + rest, budget, hops).entry);
    WalkIsSound(root, seeds, allow, visited, keep);
    FollowVisited(Covering(root, PruneSpec(root, keep).value, allow, visited, ToSet(keep)), seed, rest, budget, hops);
  }

  /** Whatever `part` holds is a copy of what `full` holds there. */
  ghost predicate PartOf(full: Node, part: Node) {
    forall x :: ViewAt(part, x).Some? ==> Copied(ViewAt(full, x), ViewAt(part, x))
  }

  lemma PartAt(full: Node, part: Node, x: Path)
    requires PartOf(full, part) && Lookup(part, x).Some?
    ensures Lookup(full, x).Some?
    ensures var e, f := Lookup(part, x).value, Lookup(full, x).value;
            && Copied(Some(Shallow(f)), Some(Shallow(e)))
            && (f.node.Dir? <==> e.node.Dir?) && (f.node.Link? <==> e.node.Link?)
            && (e.node.Link? ==> f.node.target == e.node.target)
  {
    assert ViewAt(part, x).Some?;
    assert Copied(ViewAt(full, x), ViewAt(part, x));
  }

  lemma {:induction false} PartResolves(full: Node, part: Node, cur: Path, segs: Path, b: nat)
    requires PartOf(full, part) && ResolveFrom(part, cur, segs, b).outcome.Found?
    ensures var p, f := ResolveFrom(part, cur, segs, b).outcome, ResolveFrom(full, cur, segs, b).outcome;
            f.Found? && f.path == p.path && Copied(Some(Shallow(f.entry)), Some(Shallow(p.entry)))
    decreases b, |segs|
  {
    if segs[0] == "" || segs[0] == "." {
      PartResolves(full, part, cur, segs[1..], b);
    } else {
      var at := cur + [segs[0]];
      PartAt(full, part, at);
      var e := Lookup(part, at).value;
      if |segs| > 1 {
        if e.node.Link? {
          PartResolves(full, part, [], TargetOf(at, e.node.target).value + segs[1..], b - 1);
        } else {
          PartResolves(full, part, at, segs[1..], b);
        }
      }
    }
  }

  /** The converse, for every path: pruning invents nothing. What resolves in a pruned tree
      resolves in the full one, to the same place and the same kind, mode, target and content. */
  lemma PruningInventsNothing(root: Node, keep: seq<Path>, cur: Path, segs: Path, b: nat)
    requires root.Dir? && PruneSpec(root, keep).Some?
    requires ResolveFrom(PruneSpec(root, keep).value, cur, segs, b).outcome.Found?
    ensures var p := ResolveFrom(PruneSpec(root, keep).value, cur, segs, b).outcome;
            var f := ResolveFrom(root, cur, segs, b).outcome;
            f.Found? && f.path == p.path && Copied(Some(Shallow(f.entry)), Some(Shallow(p.entry)))
  {
    var pruned := PruneSpec(root, keep).value;
    forall x | ViewAt(pruned, x).Some? ensures Copied(ViewAt(root, x), ViewAt(pruned, x)) {
      PruneExact(root, keep, x);
    }
    PartResolves(root, pruned, cur, segs, b);
  }
}
