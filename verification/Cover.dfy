/** The covered source closure of a widened build: the symlink-chasing walk of
    cover/cover.go, as a class that mutates its `covered` and `visited` sets.
 */
module Cover {
  import opened Wrappers
  import opened FsTree

  /** Symlink traversals allowed while resolving one path. */
  const LINK_BUDGET: nat := 40

  // ---- path resolution ----

  datatype Outcome = Found(path: Path, entry: Entry) | Missing | Failed

  /** How a path resolves, and the symlinks met on the way (the last component included). */
  datatype Resolution = Resolution(outcome: Outcome, links: set<Path>)

  /** Where the symlink stored at `at` points, or None when it leaves the context root. */
  function TargetOf(at: Path, t: Target): Option<Path> {
    if t.absolute || at == [] then None else JoinClean(at[..|at| - 1], t.segs)
  }

  /** Component-wise resolution from the directory at `cur`; the last component is not followed. */
  function ResolveFrom(root: Node, cur: Path, segs: Path, budget: nat): Resolution
    decreases budget, |segs|
  {
    if segs == [] then Resolution(Failed, {})
    else if segs[0] == "" || segs[0] == "." then ResolveFrom(root, cur, segs[1..], budget)
    else
      var full := cur + [segs[0]];
      match Lookup(root, full)
      case None => Resolution(Missing, {})
      case Some(e) =>
        if e.node.Link? then
          if budget == 0 then Resolution(Failed, {})
          else if |segs| == 1 then Resolution(Found(full, e), {full})
          else match TargetOf(full, e.node.target)
               case None => Resolution(Failed, {full})
               case Some(nt) =>
                 var r := ResolveFrom(root, [], nt + segs[1..], budget - 1);
                 Resolution(r.outcome, {full} + r.links)
        else if |segs| == 1 then Resolution(Found(full, e), {})
        else if !e.node.Dir? then Resolution(Failed, {})
        else ResolveFrom(root, full, segs[1..], budget)
  }

  function Resolve(root: Node, p: Path): Resolution { ResolveFrom(root, [], p, LINK_BUDGET) }

  ghost predicate IsLink(root: Node, p: Path) {
    Lookup(root, p).Some? && Lookup(root, p).value.node.Link?
  }

  /** What resolution reports is stored where it says; the links it met are symlinks. */
  lemma {:induction false} FoundIsStored(root: Node, cur: Path, segs: Path, b: nat)
    requires ProperPath(cur) && ProperPath(segs)
    ensures var r := ResolveFrom(root, cur, segs, b);
            && (r.outcome.Found? ==>
                  && r.outcome.path != [] && ProperPath(r.outcome.path)
                  && Lookup(root, r.outcome.path) == Some(r.outcome.entry))
            && forall l :: l in r.links ==> l != [] && ProperPath(l) && IsLink(root, l)
    decreases b, |segs|
  {
    if segs != [] {
      var full := cur + [segs[0]];
      assert ProperName(segs[0]) && ProperPath(full);
      match Lookup(root, full)
      case None =>
      case Some(e) =>
        if e.node.Link? {
          if b > 0 && |segs| > 1 {
            match TargetOf(full, e.node.target)
            case None =>
            case Some(nt) =>
              assert full[..|full| - 1] == cur;
              JoinCleanProper(cur, e.node.target.segs);
              FoundIsStored(root, [], nt + segs[1..], b - 1);
          }
        } else if e.node.Dir? && |segs| > 1 {
          FoundIsStored(root, full, segs[1..], b);
        }
    }
  }

  /** A path that exists physically resolves to itself. */
  lemma {:induction false} StoredResolvesToItself(root: Node, cur: Path, segs: Path, b: nat)
    requires segs != [] && ProperPath(segs) && b > 0
    requires Lookup(root, cur + segs).Some?
    ensures ResolveFrom(root, cur, segs, b).outcome == Found(cur + segs, Lookup(root, cur + segs).value)
    decreases |segs|
  {
    var full := cur + [segs[0]];
    assert ProperName(segs[0]);
    if |segs| == 1 {
      assert full == cur + segs;
    } else {
      assert full + segs[1..] == cur + segs;
      LookupPrefix(root, full, cur + segs);
      StoredResolvesToItself(root, full, segs[1..], b);
    }
  }

  /** A path that resolves is stored as such, or runs through a symlink that resolution met. */
  lemma {:induction false} StoredOrThroughLink(root: Node, cur: Path, segs: Path, b: nat) returns (i: nat)
    requires ProperPath(segs) && ResolveFrom(root, cur, segs, b).outcome.Found?
    ensures Lookup(root, cur + segs).Some? ||
            (0 < i < |segs| && cur + segs[..i] in ResolveFrom(root, cur, segs, b).links &&
              IsLink(root, cur + segs[..i]))
    decreases |segs|
  {
    var full := cur + [segs[0]];
    assert ProperName(segs[0]);
    i := 0;
    if |segs| == 1 {
      assert full == cur + segs;
    } else if Lookup(root, full).value.node.Link? {
      i := 1;
      assert segs[..1] == [segs[0]];
    } else {
      var j := StoredOrThroughLink(root, full, segs[1..], b);
      assert full + segs[1..] == cur + segs;
      i := j + 1;
      if j < |segs[1..]| {
        assert full + segs[1..][..j] == cur + segs[..j + 1];
      }
    }
  }

  // ---- the finite set of paths a walk can ever visit ----

  /** Every path stored in the tree. */
  ghost function Stored(n: Node): set<Path>
    decreases n
  {
    if !n.Dir? then {} else
      (set k | k in n.entries :: [k]) +
      (set k, x | k in n.entries && x in Stored(n.entries[k].node) :: [k] + x)
  }

  lemma {:induction false} StoredComplete(n: Node, p: Path)
    requires Lookup(n, p).Some?
    ensures p in Stored(n)
    decreases |p|
  {
    if |p| == 1 {
      assert p == [p[0]];
    } else {
      StoredComplete(n.entries[p[0]].node, p[1..]);
      assert p == [p[0]] + p[1..];
    }
  }

  lemma {:induction false} StoredFound(n: Node, p: Path)
    requires p in Stored(n)
    ensures Lookup(n, p).Some?
    decreases n
  {
    if k, x :| k in n.entries && x in Stored(n.entries[k].node) && p == [k] + x {
      StoredFound(n.entries[k].node, x);
      assert p[1..] == x;
    }
  }

  /** Seeds, stored paths, and in-root symlink targets. */
  ghost function Universe(root: Node, seeds: set<Path>): set<Path> {
    seeds + Stored(root) +
    set l | l in Stored(root) && IsLink(root, l) && TargetOf(l, Lookup(root, l).value.node.target).Some?
      :: TargetOf(l, Lookup(root, l).value.node.target).value
  }

  // ---- what a finished walk guarantees ----

  /** The in-root target of the link at `at` was visited; escaping ones are allowed to dangle. */
  predicate Chased(at: Path, t: Target, visited: set<Path>, allow: set<Path>) {
    match TargetOf(at, t)
    case None => at in allow
    case Some(p) => p in visited
  }

  /** Every link stored below the directory at `at` was chased. */
  ghost predicate Scanned(at: Path, dir: Node, visited: set<Path>, allow: set<Path>)
    requires dir.Dir?
    decreases dir
  {
    forall k :: k in dir.entries ==> EntryScanned(at + [k], dir.entries[k], visited, allow)
  }

  ghost predicate EntryScanned(at: Path, e: Entry, visited: set<Path>, allow: set<Path>)
    decreases e
  {
    && (e.node.Link? ==> Chased(at, e.node.target, visited, allow))
    && (e.node.Dir? ==> Scanned(at, e.node, visited, allow))
  }

  /** Everything the resolved end of a covered path needs. */
  ghost predicate EndCovered(r: Path, e: Entry, visited: set<Path>, covered: set<Path>, allow: set<Path>) {
    && r in covered
    && EntryScanned(r, e, visited, allow)
  }

  /** The visited path p is dealt with. */
  ghost predicate Closed(root: Node, p: Path, visited: set<Path>, covered: set<Path>, allow: set<Path>) {
    var r := Resolve(root, p);
    && !r.outcome.Failed? && r.links <= covered
    && (r.outcome.Found? ==>
          && p in covered && r.outcome.path in visited
          && EndCovered(r.outcome.path, r.outcome.entry, visited, covered, allow))
  }

  /** What puts c in the cover: it was visited and is there, or resolving a visited path met it. */
  ghost predicate Reason(root: Node, visited: set<Path>, c: Path) {
    || (c in visited && Resolve(root, c).outcome.Found?)
    || (exists v :: v in visited && c in Resolve(root, v).links)
  }

  /** The paths s are closed under what a walk does: with each path its resolved end, and the
      target of every link at or below that end. */
  ghost predicate Hosts(root: Node, s: set<Path>) {
    forall v {:trigger Hosted(root, v, s)} :: v in s ==> Hosted(root, v, s)
  }

  ghost predicate Hosted(root: Node, v: Path, s: set<Path>) {
    var out := Resolve(root, v).outcome;
    out.Found? ==> out.path in s && EntryScanned(out.path, out.entry, s, Stored(root))
  }

  /** Every closed set with the seeds in it has p in it: a walk from the seeds must visit p. */
  ghost predicate Due(root: Node, seeds: set<Path>, p: Path) {
    forall s: set<Path> {:trigger Hosts(root, s)} :: Hosts(root, s) && seeds <= s ==> p in s
  }

  /** More seeds leave due what was due. */
  lemma DueMore(root: Node, seeds: set<Path>, more: set<Path>, p: Path)
    requires Due(root, seeds, p) && seeds <= more
    ensures Due(root, more, p)
  {
  }

  ghost predicate AllDue(root: Node, seeds: set<Path>, visited: set<Path>) {
    forall v {:trigger Due(root, seeds, v)} :: v in visited ==> Due(root, seeds, v)
  }

  ghost predicate AllReasoned(root: Node, visited: set<Path>, covered: set<Path>) {
    forall c {:trigger Reason(root, visited, c)} :: c in covered ==> Reason(root, visited, c)
  }

  lemma VisitStep(root: Node, seeds: set<Path>, visited: set<Path>, covered: set<Path>, p: Path)
    requires AllDue(root, seeds, visited) && AllReasoned(root, visited, covered) && Due(root, seeds, p)
    ensures var links := Resolve(root, p).links;
            && AllDue(root, seeds, visited + {p})
            && AllReasoned(root, visited + {p}, covered + links)
            && (Resolve(root, p).outcome.Found? ==> AllReasoned(root, visited + {p}, covered + links + {p}))
  {
    var links := Resolve(root, p).links;
    forall c | c in covered + links ensures Reason(root, visited + {p}, c) {
      assert p in visited + {p};
      if c in covered {
        assert Reason(root, visited, c);
        if v :| v in visited && c in Resolve(root, v).links { assert v in visited + {p}; }
      }
    }
    if Resolve(root, p).outcome.Found? { assert Reason(root, visited + {p}, p); }
  }

  ghost predicate EntryDue(root: Node, seeds: set<Path>, at: Path, e: Entry) {
    forall s: set<Path> {:trigger Hosts(root, s)} :: Hosts(root, s) && seeds <= s ==>
          EntryScanned(at, e, s, Stored(root))
  }

  /** The end of a due path is due, and so are the targets of the links below it. */
  lemma DueEnd(root: Node, seeds: set<Path>, p: Path)
    requires Due(root, seeds, p) && Resolve(root, p).outcome.Found?
    ensures var out := Resolve(root, p).outcome;
            Due(root, seeds, out.path) && EntryDue(root, seeds, out.path, out.entry)
  {
    var out := Resolve(root, p).outcome;
    forall s: set<Path> | Hosts(root, s) && seeds <= s
      ensures out.path in s && EntryScanned(out.path, out.entry, s, Stored(root))
    {
      assert p in s && Hosted(root, p, s);
    }
  }

  lemma DueBelow(root: Node, seeds: set<Path>, at: Path, e: Entry, name: Name)
    requires EntryDue(root, seeds, at, e) && e.node.Dir? && name in e.node.entries
    ensures EntryDue(root, seeds, at + [name], e.node.entries[name])
  {
    forall s: set<Path> | Hosts(root, s) && seeds <= s
      ensures EntryScanned(at + [name], e.node.entries[name], s, Stored(root))
    {
      assert EntryScanned(at, e, s, Stored(root));
      assert Scanned(at, e.node, s, Stored(root));
    }
  }

  /** A covered path is proper, and is stored or runs through a covered symlink. */
  ghost predicate Anchored(root: Node, c: Path, covered: set<Path>) {
    && c != [] && ProperPath(c)
    && (Lookup(root, c).Some? || exists i :: 0 < i < |c| && c[..i] in covered && IsLink(root, c[..i]))
  }

  lemma {:induction false} ScannedGrows(at: Path, dir: Node, v: set<Path>, v': set<Path>, allow: set<Path>)
    requires dir.Dir? && v <= v' && Scanned(at, dir, v, allow)
    ensures Scanned(at, dir, v', allow)
    decreases dir
  {
    forall k | k in dir.entries && dir.entries[k].node.Dir?
      ensures Scanned(at + [k], dir.entries[k].node, v', allow)
    {
      ScannedGrows(at + [k], dir.entries[k].node, v, v', allow);
    }
  }

  ghost predicate AllClosed(root: Node, visited: set<Path>, covered: set<Path>, allow: set<Path>) {
    forall v {:trigger Closed(root, v, visited, covered, allow)} :: v in visited ==>
          Closed(root, v, visited, covered, allow)
  }

  /** Walking on from a finished walk leaves a finished walk. */
  lemma AllClosedGrows(root: Node, v: set<Path>, c: set<Path>, v': set<Path>, c': set<Path>, allow: set<Path>)
    requires v <= v' && c <= c' && AllClosed(root, v, c, allow)
    requires forall p {:trigger Closed(root, p, v', c', allow)} :: p in v' && p !in v ==> Closed(root, p, v', c', allow)
    ensures AllClosed(root, v', c', allow)
  {
    forall p | p in v ensures Closed(root, p, v', c', allow) {
      assert Closed(root, p, v, c, allow);
      ClosedGrows(root, p, v, c, v', c', allow);
    }
  }

  lemma ClosedGrows(root: Node, p: Path, v: set<Path>, c: set<Path>, v': set<Path>, c': set<Path>, allow: set<Path>)
    requires v <= v' && c <= c' && Closed(root, p, v, c, allow)
    ensures Closed(root, p, v', c', allow)
  {
    var r := Resolve(root, p).outcome;
    if r.Found? && r.entry.node.Dir? { ScannedGrows(r.path, r.entry.node, v, v', allow); }
  }

  /** A symlink at or below e leaves the context root without permission. */
  ghost predicate Escapes(at: Path, e: Entry, allow: set<Path>)
    decreases e
  {
    || (e.node.Link? && TargetOf(at, e.node.target).None? && at !in allow)
    || (e.node.Dir? && exists k :: k in e.node.entries && Escapes(at + [k], e.node.entries[k], allow))
  }

  /** The path v cannot be covered: it does not resolve, or a symlink at or below its end escapes. */
  ghost predicate Troubled(root: Node, v: Path, allow: set<Path>) {
    var out := Resolve(root, v).outcome;
    out.Failed? || (out.Found? && Escapes(out.path, out.entry, allow))
  }

  /** A walk from the seeds must visit a path that cannot be covered. */
  ghost predicate Blamed(root: Node, seeds: set<Path>, allow: set<Path>) {
    exists v {:trigger Troubled(root, v, allow)} :: Due(root, seeds, v) && Troubled(root, v, allow)
  }

  lemma BlamedMore(root: Node, seeds: set<Path>, more: set<Path>, allow: set<Path>)
    requires Blamed(root, seeds, allow) && seeds <= more
    ensures Blamed(root, more, allow)
  {
    var v :| Due(root, seeds, v) && Troubled(root, v, allow);
    DueMore(root, seeds, more, v);
  }

  lemma {:induction false} ScannedStays(at: Path, e: Entry, visited: set<Path>, allow: set<Path>)
    requires EntryScanned(at, e, visited, allow)
    ensures !Escapes(at, e, allow)
    decreases e
  {
    if e.node.Dir? {
      assert Scanned(at, e.node, visited, allow);
      forall k | k in e.node.entries ensures !Escapes(at + [k], e.node.entries[k], allow) {
        ScannedStays(at + [k], e.node.entries[k], visited, allow);
      }
    }
  }

  /** Entry names are single path components, as the store enforces. */
  ghost predicate WellNamed(root: Node) {
    root.Dir? && forall p :: Lookup(root, p).Some? ==> ProperPath(p)
  }

  lemma AnchoredAfterResolve(root: Node, p: Path, covered: set<Path>)
    requires forall c :: c in covered ==> Anchored(root, c, covered)
    requires ProperPath(p)
    ensures var links := Resolve(root, p).links;
            forall c :: c in covered + links ==> Anchored(root, c, covered + links)
    ensures var cov := covered + Resolve(root, p).links + {p};
            Resolve(root, p).outcome.Found? ==> forall c :: c in cov ==> Anchored(root, c, cov)
  {
    FoundIsStored(root, [], p, LINK_BUDGET);
    if Resolve(root, p).outcome.Found? {
      var i := StoredOrThroughLink(root, [], p, LINK_BUDGET);
      assert [] + p == p;
      if Lookup(root, p).None? { assert [] + p[..i] == p[..i]; }
    }
  }

  // ---- why a walk ends: the universe is finite and closed ----

  lemma {:induction false} UniverseScanned(root: Node, seeds: set<Path>, at: Path, e: Entry)
    requires at != [] && Lookup(root, at) == Some(e)
    ensures EntryScanned(at, e, Universe(root, seeds), Stored(root))
    decreases e
  {
    StoredComplete(root, at);
    if e.node.Link? { assert IsLink(root, at); }
    if e.node.Dir? {
      forall k | k in e.node.entries
        ensures EntryScanned(at + [k], e.node.entries[k], Universe(root, seeds), Stored(root))
      {
        LookupSnoc(root, at, k);
        UniverseScanned(root, seeds, at + [k], e.node.entries[k]);
      }
    }
  }

  lemma UniverseHosts(root: Node, seeds: set<Path>)
    requires forall v :: v in Universe(root, seeds) ==> ProperPath(v)
    ensures Hosts(root, Universe(root, seeds))
  {
    forall v | v in Universe(root, seeds) ensures Hosted(root, v, Universe(root, seeds)) {
      FoundIsStored(root, [], v, LINK_BUDGET);
      var out := Resolve(root, v).outcome;
      if out.Found? {
        StoredComplete(root, out.path);
        UniverseScanned(root, seeds, out.path, out.entry);
      }
    }
  }

  lemma UniverseProper(root: Node, seeds: set<Path>)
    requires WellNamed(root) && forall s :: s in seeds ==> ProperPath(s)
    ensures forall v :: v in Universe(root, seeds) ==> ProperPath(v)
  {
    forall v | v in Universe(root, seeds) ensures ProperPath(v) {
      if v in Stored(root) {
        StoredFound(root, v);
      } else if v !in seeds {
        var l :| l in Stored(root) && IsLink(root, l) && TargetOf(l, Lookup(root, l).value.node.target) == Some(v);
        JoinCleanProper(l[..|l| - 1], Lookup(root, l).value.node.target.segs);
      }
    }
  }

  // ---- the walker ----

  /** The warnings name exactly the visited paths that do not exist. */
  ghost predicate Reported(root: Node, visited: set<Path>, warnings: seq<Path>) {
    forall v :: v in warnings <==> v in visited && Resolve(root, v).outcome.Missing?
  }

  class Walker {
    const root: Node
    const allow: set<Path>
    ghost var seeds: set<Path>   // the seeds taken up so far
    var covered: set<Path>
    var visited: set<Path>
    var warnings: seq<Path>

    constructor (root: Node, allow: set<Path>)
      requires WellNamed(root)
      ensures Valid() && Warned()
      ensures this.root == root && this.allow == allow && seeds == {}
      ensures covered == {} && visited == {}
    {
      this.root, this.allow, this.seeds := root, allow, {};
      covered, visited, warnings := {}, {}, [];
      new;
      UniverseProper(root, {});
      UniverseHosts(root, {});
    }

    ghost predicate Valid()
      reads this
    {
      && WellNamed(root) && (forall s :: s in seeds ==> ProperPath(s))
      && Hosts(root, Universe(root, seeds))
      && visited <= Universe(root, seeds)
      && (forall v :: v in visited ==> ProperPath(v))
      && AllDue(root, seeds, visited) && AllReasoned(root, visited, covered)
      && (forall v :: v in visited && Resolve(root, v).outcome.Found? ==> v in covered)
      && (forall c :: c in covered ==> Anchored(root, c, covered))
    }

    ghost predicate Warned()
      reads this
    {
      Reported(root, visited, warnings)
    }

    /** The walker only ever adds paths. */
    twostate predicate Grew()
      reads this
    {
      old(visited) <= visited && old(covered) <= covered && seeds == old(seeds)
    }

    /** Takes up one more seed. */
    ghost method AddSeed(p: Path)
      requires Valid() && ProperPath(p)
      modifies this`seeds
      ensures Valid() && seeds == old(seeds) + {p} && Due(root, seeds, p)
    {
      seeds := seeds + {p};
      UniverseProper(root, seeds);
      UniverseHosts(root, seeds);
      forall v | v in visited ensures Due(root, seeds, v) { DueMore(root, old(seeds), seeds, v); }
    }

    /** Every path visited since the old state is dealt with. */
    twostate predicate NewAreClosed()
      reads this
    {
      forall v {:trigger Closed(root, v, visited, covered, allow)} ::
        v in visited && v !in old(visited) ==> Closed(root, v, visited, covered, allow)
    }

    method ResolvePath(p: Path) returns (out: Outcome)
      requires root.Dir?
      modifies this`covered
      ensures out == Resolve(root, p).outcome
      ensures covered == old(covered) + Resolve(root, p).links
    {
      var segs, i, cur, curDir, budget := p, 0, [], root, LINK_BUDGET;
      while i < |segs|
        invariant 0 <= i <= |segs|
        invariant DirAt(root, cur) == Some(curDir)
        invariant Resolve(root, p).outcome == ResolveFrom(root, cur, segs[i..], budget).outcome
        invariant covered + ResolveFrom(root, cur, segs[i..], budget).links == old(covered) + Resolve(root, p).links
        decreases budget, |segs| - i
      {
        var seg := segs[i];
        assert segs[i..][0] == seg && segs[i..][1..] == segs[i + 1..];
        LookupSnoc(root, cur, seg);
        if seg == "" || seg == "." {
          i := i + 1;
          continue;
        }
        if seg !in curDir.entries { return Missing; }
        var e := curDir.entries[seg];
        var full := cur + [seg];
        if e.node.Link? {
          if budget == 0 { return Failed; }
          covered := covered + {full};
          if i == |segs| - 1 { return Found(full, e); }
          var nt := TargetOf(full, e.node.target);
          if nt.None? { return Failed; }
          segs, i, cur, curDir, budget := nt.value + segs[i + 1..], 0, [], root, budget - 1;
          assert segs[0..] == segs;
          continue;
        }
        if i == |segs| - 1 { return Found(full, e); }
        if !e.node.Dir? { return Failed; }
        cur, curDir, i := full, e.node, i + 1;
      }
      return Failed;
    }

    method CoverPath(p: Path, declared: bool) returns (ok: bool)
      requires Valid() && Warned() && Due(root, seeds, p) && ProperPath(p)
      modifies this
      ensures Valid() && Grew() && p in visited
      ensures ok ==> NewAreClosed() && Warned()
      ensures declared && Resolve(root, p).outcome.Missing? ==> (ok <==> p in old(visited))
      ensures !ok ==>
            Blamed(root, seeds, allow) || (declared && Resolve(root, p).outcome.Missing? && p !in old(visited))
      decreases Universe(root, seeds) - visited, 0
    {
      assert p in Universe(root, seeds);
      if p in visited { return true; }
      visited := visited + {p};
      var out := ResolvePath(p);
      AnchoredAfterResolve(root, p, old(covered));
      VisitStep(root, seeds, old(visited), old(covered), p);
      FoundIsStored(root, [], p, LINK_BUDGET);
      match out
      case Failed =>
        assert Troubled(root, p, allow);
        return false;
      case Missing =>
        if !declared { warnings := warnings + [p]; }
        return !declared;
      case Found(resolved, e) =>
        covered := covered + {p};
        DueEnd(root, seeds, p);
        ok := CoverEnd(p, resolved, e);
        if !ok { assert Escapes(resolved, e, allow) ==> Troubled(root, p, allow); }
    }

    /** The resolved end of a path: covered too, and chased or scanned by its kind. */
    method CoverEnd(p: Path, resolved: Path, e: Entry) returns (ok: bool)
      requires Valid() && Warned() && p in visited && p in covered && (resolved == p || Due(root, seeds, resolved))
      requires resolved != [] && ProperPath(resolved) && Lookup(root, resolved) == Some(e)
      requires EntryDue(root, seeds, resolved, e)
      modifies this
      ensures Valid() && Grew()
      ensures ok ==> NewAreClosed() && Warned()
      ensures ok ==> resolved in visited && EndCovered(resolved, e, visited, covered, allow)
      ensures !ok ==> Blamed(root, seeds, allow) || Escapes(resolved, e, allow)
      decreases Universe(root, seeds) - visited, 3
    {
      assert [] + resolved == resolved;
      StoredResolvesToItself(root, [], resolved, LINK_BUDGET);
      if resolved != p {
        ok := CoverPath(resolved, false);
        if !ok { return; }
      }
      ghost var v1, c1 := visited, covered;
      if e.node.Link? {
        ok := ChaseLink(resolved, e.node.target);
      } else if e.node.Dir? {
        ok := ScanDir(resolved, e.node);
      } else {
        ok := true;
      }
      if ok {
        forall v | v in v1 && v !in old(visited) ensures Closed(root, v, visited, covered, allow) {
          ClosedGrows(root, v, v1, c1, visited, covered, allow);
        }
      }
    }

    method ChaseLink(at: Path, target: Target) returns (ok: bool)
      requires Valid() && Warned() && Lookup(root, at).Some? && Lookup(root, at).value.node == Link(target)
      requires EntryDue(root, seeds, at, Lookup(root, at).value)
      modifies this
      ensures Valid() && Grew()
      ensures ok ==> NewAreClosed() && Warned() && Chased(at, target, visited, allow)
      ensures !ok ==> Blamed(root, seeds, allow) || (TargetOf(at, target).None? && at !in allow)
      decreases Universe(root, seeds) - visited, 1
    {
      assert IsLink(root, at);
      var t := TargetOf(at, target);
      if t.None? { return at in allow; }
      assert Due(root, seeds, t.value) by {
        forall s: set<Path> | Hosts(root, s) && seeds <= s ensures t.value in s {
          assert EntryScanned(at, Lookup(root, at).value, s, Stored(root));
        }
      }
      JoinCleanProper(at[..|at| - 1], target.segs);
      ok := CoverPath(t.value, false);
    }

    method ScanDir(at: Path, dir: Node) returns (ok: bool)
      requires Valid() && Warned() && at != [] && Lookup(root, at).Some? && Lookup(root, at).value.node == dir
      requires dir.Dir?
      requires EntryDue(root, seeds, at, Lookup(root, at).value)
      modifies this
      ensures Valid() && Grew()
      ensures ok ==> NewAreClosed() && Warned() && Scanned(at, dir, visited, allow)
      ensures !ok ==> Blamed(root, seeds, allow) || Escapes(at, Lookup(root, at).value, allow)
      decreases Universe(root, seeds) - visited, 2, dir
    {
      var todo := dir.entries.Keys;
      while todo != {}
        invariant todo <= dir.entries.Keys
        invariant Valid() && Grew() && NewAreClosed() && Warned()
        invariant forall k :: k in dir.entries && k !in todo ==> EntryScanned(at + [k], dir.entries[k], visited, allow)
        decreases todo
      {
        var name :| name in todo;
        todo := todo - {name};
        var p, e := at + [name], dir.entries[name];
        LookupSnoc(root, at, name);
        DueBelow(root, seeds, at, Lookup(root, at).value, name);
        ghost var v1, c1 := visited, covered;
        ok := true;
        if e.node.Link? {
          ok := ChaseLink(p, e.node.target);
        } else if e.node.Dir? {
          ok := ScanDir(p, e.node);
        }
        if !ok {
          assert Escapes(p, e, allow) ==> Escapes(at, Lookup(root, at).value, allow);
          return;
        }
        forall v | v in v1 && v !in old(visited) ensures Closed(root, v, visited, covered, allow) {
          ClosedGrows(root, v, v1, c1, visited, covered, allow);
        }
        forall k | k in dir.entries && k !in todo ensures EntryScanned(at + [k], dir.entries[k], visited, allow) {
          if k != name && dir.entries[k].node.Dir? {
            ScannedGrows(at + [k], dir.entries[k].node, v1, visited, allow);
          }
        }
      }
      ok := true;
    }
  }

  /** What a finished walk has visited is exactly what is due. */
  lemma VisitedIsDue(root: Node, seeds: set<Path>, visited: set<Path>, covered: set<Path>, allow: set<Path>, p: Path)
    requires AllClosed(root, visited, covered, allow) && AllDue(root, seeds, visited) && seeds <= visited
    requires forall v :: v in visited ==> ProperPath(v)
    ensures p in visited <==> Due(root, seeds, p)
  {
    ClosedHosts(root, visited, covered, allow);
  }

  lemma ClosedHosts(root: Node, visited: set<Path>, covered: set<Path>, allow: set<Path>)
    requires AllClosed(root, visited, covered, allow) && forall v :: v in visited ==> ProperPath(v)
    ensures Hosts(root, visited)
  {
    forall v | v in visited ensures Hosted(root, v, visited) {
      assert Closed(root, v, visited, covered, allow);
      FoundIsStored(root, [], v, LINK_BUDGET);
      var out := Resolve(root, v).outcome;
      if out.Found? { ScannedStored(root, out.path, out.entry, visited, allow); }
    }
  }

  /** Between two seeds: everything visited is dealt with, and every seed so far was visited. */
  ghost predicate Finished(w: Walker)
    reads w
  {
    && w.Valid() && w.Warned() && AllClosed(w.root, w.visited, w.covered, w.allow)
    && w.seeds <= w.visited && (w.seeds != {} ==> w.covered != {})
  }

  /** One seed on top of a finished walk. A seed that does not exist is accepted exactly when the
      seeds before it already lead there. */
  method CoverSeed(w: Walker, p: Path) returns (ok: bool)
    requires Finished(w) && ProperPath(p)
    modifies w
    ensures w.seeds == old(w.seeds) + {p}
    ensures ok ==> Finished(w) && (Resolve(w.root, p).outcome.Missing? ==> Due(w.root, old(w.seeds), p))
    ensures !ok ==>
              || Blamed(w.root, w.seeds, w.allow)
              || (Resolve(w.root, p).outcome.Missing? && !Due(w.root, old(w.seeds), p))
  {
    VisitedIsDue(w.root, w.seeds, w.visited, w.covered, w.allow, p);
    ghost var v1, c1 := w.visited, w.covered;
    w.AddSeed(p);
    ok := w.CoverPath(p, true);
    if ok {
      AllClosedGrows(w.root, v1, c1, w.visited, w.covered, w.allow);
      assert Closed(w.root, p, w.visited, w.covered, w.allow);
      assert Hosts(w.root, {});
      assert old(w.seeds) == {} ==> p in w.covered;
    }
  }

  function ToPathSet(s: seq<Path>): set<Path> { set p | p in s }

  /** What a successful walk has computed: the visited paths are closed and all due, and the
      cover holds exactly what they need. */
  ghost predicate Expansion(root: Node, seeds: seq<Path>, allow: set<Path>, visited: set<Path>, covered: set<Path>) {
    && WellNamed(root)
    && covered != {}
    && (forall s :: s in seeds ==> s in visited)
    && (forall v :: v in visited ==> ProperPath(v))
    && (forall c :: c in covered ==> Anchored(root, c, covered))
    && AllClosed(root, visited, covered, allow)
    && AllDue(root, ToPathSet(seeds), visited) && AllReasoned(root, visited, covered)
  }

  /** The seed at j exists, or the seeds before it already lead to where it would be. */
  ghost predicate SeedFound(root: Node, seeds: seq<Path>, j: nat)
    requires j < |seeds|
  {
    Resolve(root, seeds[j]).outcome.Missing? ==> Due(root, ToPathSet(seeds[..j]), seeds[j])
  }

  /** When a walk from the seeds succeeds: no path it must visit is in trouble, and every seed is
      found in its turn. */
  ghost predicate Walkable(root: Node, seeds: seq<Path>, allow: set<Path>) {
    && seeds != [] && !Blamed(root, ToPathSet(seeds), allow)
    && forall j :: 0 <= j < |seeds| ==> SeedFound(root, seeds, j)
  }

  /** After a successful walk no path it had to visit is in trouble. */
  lemma ExpansionUnblamed(root: Node, seeds: seq<Path>, allow: set<Path>, visited: set<Path>, covered: set<Path>)
    requires Expansion(root, seeds, allow, visited, covered)
    ensures !Blamed(root, ToPathSet(seeds), allow)
  {
    ExpansionHosts(root, seeds, allow, visited, covered);
    forall v | Due(root, ToPathSet(seeds), v) ensures !Troubled(root, v, allow) {
      assert ToPathSet(seeds) <= visited && v in visited;
      assert Closed(root, v, visited, covered, allow);
      var out := Resolve(root, v).outcome;
      if out.Found? { ScannedStays(out.path, out.entry, visited, allow); }
    }
  }

  lemma {:induction false} ScannedStored(root: Node, at: Path, e: Entry, visited: set<Path>, allow: set<Path>)
    requires at != [] && Lookup(root, at) == Some(e) && EntryScanned(at, e, visited, allow)
    ensures EntryScanned(at, e, visited, Stored(root))
    decreases e
  {
    StoredComplete(root, at);
    if e.node.Dir? {
      forall k | k in e.node.entries ensures EntryScanned(at + [k], e.node.entries[k], visited, Stored(root)) {
        LookupSnoc(root, at, k);
        ScannedStored(root, at + [k], e.node.entries[k], visited, allow);
      }
    }
  }

  /** The visited paths are the least closed set with the seeds in it, and the cover follows from
      them: walks that succeed from the same seeds have the same result, whatever the order of the
      seeds and of directory listings. */
  lemma ExpansionUnique(root: Node, seeds: seq<Path>, seeds': seq<Path>, allow: set<Path>, v: set<Path>, c: set<Path>,
                        v': set<Path>, c': set<Path>)
    requires ToPathSet(seeds) == ToPathSet(seeds')
    requires Expansion(root, seeds, allow, v, c) && Expansion(root, seeds', allow, v', c')
    ensures v == v' && c == c'
  {
    ExpansionLeast(root, seeds, allow, v, c, v');
    ExpansionLeast(root, seeds', allow, v', c', v);
    ExpansionHosts(root, seeds, allow, v, c);
    ExpansionHosts(root, seeds', allow, v', c');
    assert v == v';
    CoverFollows(root, allow, v, c, c');
    CoverFollows(root, allow, v, c', c);
  }

  lemma ExpansionHosts(root: Node, seeds: seq<Path>, allow: set<Path>, visited: set<Path>, covered: set<Path>)
    requires Expansion(root, seeds, allow, visited, covered)
    ensures Hosts(root, visited)
  {
    ClosedHosts(root, visited, covered, allow);
  }

  lemma ExpansionLeast(root: Node, seeds: seq<Path>, allow: set<Path>, visited: set<Path>, covered: set<Path>,
                       s: set<Path>)
    requires Expansion(root, seeds, allow, visited, covered)
    ensures Hosts(root, s) && ToPathSet(seeds) <= s ==> visited <= s
  {
    if Hosts(root, s) && ToPathSet(seeds) <= s {
      forall v | v in visited ensures v in s { assert Due(root, ToPathSet(seeds), v); }
    }
  }

  lemma CoverFollows(root: Node, allow: set<Path>, visited: set<Path>, c: set<Path>, c': set<Path>)
    requires AllReasoned(root, visited, c)
    requires AllClosed(root, visited, c', allow)
    ensures c <= c'
  {
    forall p | p in c ensures p in c' {
      assert Reason(root, visited, p);
      if v :| v in visited && p in Resolve(root, v).links {
        assert Closed(root, v, visited, c', allow);
      } else {
        assert Closed(root, p, visited, c', allow);
      }
    }
  }

  datatype WalkResult = WalkResult(paths: set<Path>, warnings: seq<Path>)

  /** r is the closure of the seeds, with its warnings. */
  ghost predicate Expands(root: Node, seeds: seq<Path>, allow: set<Path>, r: WalkResult) {
    exists visited :: Expansion(root, seeds, allow, visited, r.paths) && Reported(root, visited, r.warnings)
  }

  lemma SeedsSnoc(seeds: seq<Path>, i: nat)
    requires i < |seeds|
    ensures ToPathSet(seeds[..i + 1]) == ToPathSet(seeds[..i]) + {seeds[i]}
    ensures ToPathSet(seeds[..i + 1]) <= ToPathSet(seeds)
  {
    assert seeds[..i + 1] == seeds[..i] + [seeds[i]];
  }

  /** Covers every seed in turn, as Walk and WalkClosure both do. */
  method CoverSeeds(root: Node, seeds: seq<Path>, allow: set<Path>) returns (r: Option<WalkResult>)
    requires WellNamed(root) && seeds != []
    requires forall s :: s in seeds ==> ProperPath(s)
    ensures r.Some? <==> Walkable(root, seeds, allow)
    ensures r.Some? ==> Expands(root, seeds, allow, r.value)
  {
    var w := new Walker(root, allow);
    for i := 0 to |seeds|
      invariant fresh(w) && Finished(w) && w.root == root && w.allow == allow && w.seeds == ToPathSet(seeds[..i])
      invariant forall j :: 0 <= j < i ==> SeedFound(root, seeds, j)
    {
      assert seeds[i] in seeds;
      SeedsSnoc(seeds, i);
      var ok := CoverSeed(w, seeds[i]);
      if !ok {
        if SeedFound(root, seeds, i) { BlamedMore(root, w.seeds, ToPathSet(seeds), allow); }
        return None;
      }
      assert SeedFound(root, seeds, i);
    }
    assert seeds[..|seeds|] == seeds && seeds[0] in ToPathSet(seeds);
    assert Expansion(root, seeds, allow, w.visited, w.covered);
    ExpansionUnblamed(root, seeds, allow, w.visited, w.covered);
    r := Some(WalkResult(w.covered, w.warnings));
  }

  function WalkSeeds(dir: Path, declared: seq<Path>): seq<Path> {
    (if dir == [] then [] else [dir]) + declared
  }

  /** Walk: the build dir, when there is one, and the declared sources are the seeds. */
  method Walk(root: Node, dir: Path, declared: seq<Path>, allow: set<Path>) returns (r: Option<WalkResult>)
    requires WellNamed(root) && ProperPath(dir) && forall s :: s in declared ==> ProperPath(s)
    ensures r.Some? <==> Walkable(root, WalkSeeds(dir, declared), allow)
    ensures r.Some? ==> Expands(root, WalkSeeds(dir, declared), allow, r.value)
  {
    var seeds := WalkSeeds(dir, declared);
    if seeds == [] { return None; }
    r := CoverSeeds(root, seeds, allow);
  }

  /** Some covered path lies at, under or above the directory. */
  predicate Reaches(covered: set<Path>, dir: Path) { exists p :: p in covered && (p <= dir || dir <= p) }

  /** The closure of the seeds has no path at, under or above the directory. */
  ghost predicate Unreached(root: Node, seeds: seq<Path>, allow: set<Path>, dir: Path) {
    dir != [] && exists r: WalkResult :: Expands(root, seeds, allow, r) && !Reaches(r.paths, dir)
  }

  /** WalkClosure: the declared paths alone are the cover, and it must reach the build dir. */
  method WalkClosure(root: Node, dir: Path, declared: seq<Path>, allow: set<Path>) returns (r: Option<WalkResult>)
    requires WellNamed(root) && ProperPath(dir) && forall s :: s in declared ==> ProperPath(s)
    ensures r.Some? <==> Walkable(root, declared, allow) && !Unreached(root, declared, allow, dir)
    ensures r.Some? ==> Expands(root, declared, allow, r.value) && (dir == [] || Reaches(r.value.paths, dir))
  {
    if declared == [] { return None; }
    r := CoverSeeds(root, declared, allow);
    if r.None? { return; }
    if dir != [] && !Reaches(r.value.paths, dir) {
      assert Unreached(root, declared, allow, dir);
      return None;
    }
    forall q: WalkResult | Expands(root, declared, allow, q) ensures q.paths == r.value.paths {
      OneExpansion(root, declared, allow, q, r.value);
    }
  }

  lemma OneExpansion(root: Node, seeds: seq<Path>, allow: set<Path>, q: WalkResult, r: WalkResult)
    requires Expands(root, seeds, allow, q) && Expands(root, seeds, allow, r)
    ensures q.paths == r.paths
  {
    var v :| Expansion(root, seeds, allow, v, q.paths) && Reported(root, v, q.warnings);
    var v' :| Expansion(root, seeds, allow, v', r.paths) && Reported(root, v', r.warnings);
    ExpansionUnique(root, seeds, seeds, allow, v, q.paths, v', r.paths);
  }

  // ---- a declared path that does not exist can be accepted ----

  const PLAIN := Meta(420, 0, 0, 0, map[])

  /** One symlink a -> b, and no b. */
  const DANGLING := Dir(map["a" := DANGLING_LINK])

  const DANGLING_LINK := Entry(PLAIN, Link(Target(false, ["b"])))

  lemma DanglingLookup(p: Path)
    ensures Lookup(DANGLING, p) == if p == ["a"] then Some(DANGLING_LINK) else None
  {
    if |p| == 1 { assert p == [p[0]]; }
  }

  lemma DanglingTarget()
    ensures TargetOf(["a"], Target(false, ["b"])) == Some(["b"])
  {
    assert ["a"][..0] == [] && [] + ["b"] == ["b"];
    assert JoinClean([], ["b"]) == JoinClean([] + ["b"], ["b"][1..]);
  }

  lemma DanglingResolve()
    ensures Resolve(DANGLING, ["a"]).outcome == Found(["a"], DANGLING_LINK)
    ensures Resolve(DANGLING, ["b"]).outcome.Missing?
  {
    assert [] + ["a"] == ["a"] && [] + ["b"] == ["b"];
    DanglingLookup(["a"]);
    DanglingLookup(["b"]);
  }

  lemma DanglingUniverse(v: Path)
    requires v in Universe(DANGLING, {["a"], ["b"]})
    ensures v == ["a"] || v == ["b"]
  {
    DanglingTarget();
    if v !in {["a"], ["b"]} {
      if v in Stored(DANGLING) {
        DanglingStored(v);
      } else {
        var l :| l in Stored(DANGLING) && IsLink(DANGLING, l) &&
                 TargetOf(l, Lookup(DANGLING, l).value.node.target) == Some(v);
        DanglingStored(l);
      }
    }
  }

  lemma DanglingStored(l: Path)
    requires l in Stored(DANGLING)
    ensures l == ["a"] && Lookup(DANGLING, l) == Some(DANGLING_LINK)
  {
    StoredFound(DANGLING, l);
    DanglingLookup(l);
  }

  lemma DanglingUnblamed()
    ensures WellNamed(DANGLING) && !Blamed(DANGLING, {["a"], ["b"]}, {})
  {
    var seeds: set<Path> := {["a"], ["b"]};
    forall p { DanglingLookup(p); }
    UniverseProper(DANGLING, seeds);
    UniverseHosts(DANGLING, seeds);
    DanglingTarget();
    DanglingResolve();
    forall v | Due(DANGLING, seeds, v) ensures !Troubled(DANGLING, v, {}) { DanglingUniverse(v); }
  }

  /** Every closed set with a in it has b in it. */
  lemma DanglingDue()
    ensures Due(DANGLING, {["a"]}, ["b"]) && !Due(DANGLING, {}, ["b"])
  {
    DanglingTarget();
    DanglingResolve();
    forall s: set<Path> | Hosts(DANGLING, s) && {["a"]} <= s ensures ["b"] in s {
      assert ["a"] in s && Hosted(DANGLING, ["a"], s);
    }
    assert Hosts(DANGLING, {});
  }

  /** The design says a missing declared path is an error. It is one unless the seeds before it
      lead there through a symlink: the walk of the tree above from a and b succeeds although b
      is not there, and the walk from b and a fails. */
  method MissingDeclaredAccepted() returns (first: Option<WalkResult>, second: Option<WalkResult>)
    ensures first.Some? && second.None? && Resolve(DANGLING, ["b"]).outcome.Missing?
  {
    DanglingUnblamed();
    DanglingResolve();
    DanglingDue();
    assert ToPathSet([["a"], ["b"]]) == {["a"], ["b"]};
    assert [["a"], ["b"]][..0] == [] && [["a"], ["b"]][..1] == [["a"]] && ToPathSet([["a"]]) == {["a"]};
    assert SeedFound(DANGLING, [["a"], ["b"]], 0) && SeedFound(DANGLING, [["a"], ["b"]], 1);
    assert WalkSeeds([], [["a"], ["b"]]) == [["a"], ["b"]] && WalkSeeds([], [["b"], ["a"]]) == [["b"], ["a"]];
    first := Walk(DANGLING, [], [["a"], ["b"]], {});
    assert [["b"], ["a"]][..0] == [] && !SeedFound(DANGLING, [["b"], ["a"]], 0);
    second := Walk(DANGLING, [], [["b"], ["a"]], {});
  }
}
