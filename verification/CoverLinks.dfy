/** Where symlinks lead the cover, in terms of the paths themselves: a relative
    target is read from the link's own directory, one that climbs out of the
    context is refused, and a chain of links is followed forty times.
 */
module CoverLinks {
  import opened Wrappers
  import opened FsTree
  import opened Cover

  /** A link in directory d that goes up k levels and then down q. */
  ghost predicate LinkUp(root: Node, d: Path, n: Name, k: nat, q: Path) {
    && Lookup(root, d + [n]).Some? && Lookup(root, d + [n]).value.node == Link(Target(false, Ups(k) + q))
    && ProperPath(q)
  }

  /** The end of such a link. */
  function UpFrom(d: Path, k: nat, q: Path): Path
    requires k <= |d|
  {
    d[..|d| - k] + q
  }

  /** A link is read from the directory that holds it; it leaves the context exactly when it is
      absolute or climbs higher than that directory is deep. */
  lemma TargetMeans(d: Path, n: Name, k: nat, q: Path, segs: seq<Name>)
    requires ProperPath(q)
    ensures TargetOf(d + [n], Target(false, Ups(k) + q)) == if k <= |d| then Some(UpFrom(d, k, q)) else None
    ensures TargetOf(d + [n], Target(true, segs)).None?
    ensures TargetOf(d + [n], Target(false, segs)).None? <==>
            exists i :: 0 <= i <= |segs| && |d| + Descent(segs[..i]) < 0
  {
    assert (d + [n])[..|d|] == d;
    JoinUps(d, k, q);
    JoinEscapesIff(d, segs);
  }

  // ---- resolution ----

  /** Directories on the way are walked through. */
  lemma {:induction false} ThroughDirs(root: Node, cur: Path, d: Path, rest: Path, b: nat)
    requires ProperPath(d) && rest != [] && DirAt(root, cur + d).Some?
    ensures ResolveFrom(root, cur, d + rest, b) == ResolveFrom(root, cur + d, rest, b)
    decreases |d|
  {
    if d == [] {
      assert d + rest == rest && cur + d == cur;
    } else {
      var full := cur + [d[0]];
      assert ProperName(d[0]) && (d + rest)[0] == d[0] && (d + rest)[1..] == d[1..] + rest;
      assert full + d[1..] == cur + d;
      if |d| > 1 { LookupPrefix(root, full, cur + d); } else { assert full == cur + d; }
      ThroughDirs(root, full, d[1..], rest, b);
    }
  }

  lemma AtLinkUp(root: Node, d: Path, n: Name, k: nat, q: Path, rest: Path, b: nat)
    requires LinkUp(root, d, n, k, q) && ProperName(n) && k <= |d| && rest != [] && b > 0
    ensures var r := ResolveFrom(root, d, [n] + rest, b);
            r.outcome == ResolveFrom(root, [], UpFrom(d, k, q) + rest, b - 1).outcome && d + [n] in r.links
  {
    TargetMeans(d, n, k, q, []);
    AtLink(root, d, n, rest, UpFrom(d, k, q), b);
  }

  lemma ToLink(root: Node, d: Path, n: Name, rest: Path, b: nat)
    requires ProperPath(d) && Lookup(root, d + [n]).Some?
    ensures ResolveFrom(root, [], d + [n] + rest, b) == ResolveFrom(root, d, [n] + rest, b)
  {
    LookupSnoc(root, d, n);
    assert [] + d == d && d + [n] + rest == d + ([n] + rest);
    ThroughDirs(root, [], d, [n] + rest, b);
  }

  lemma ThroughLinkFrom(root: Node, d: Path, n: Name, k: nat, q: Path, rest: Path, b: nat)
    requires WellNamed(root) && LinkUp(root, d, n, k, q) && k <= |d| && rest != [] && b > 1
    requires Lookup(root, UpFrom(d, k, q) + rest).Some?
    ensures var r, t := ResolveFrom(root, [], d + [n] + rest, b), UpFrom(d, k, q) + rest;
            r.outcome == Found(t, Lookup(root, t).value) && d + [n] in r.links
  {
    ProperParts(root, d, n);
    ToLink(root, d, n, rest, b);
    AtLinkUp(root, d, n, k, q, rest, b);
    StoredIsFoundFrom(root, UpFrom(d, k, q) + rest, b - 1);
  }

  lemma StoredIsFoundFrom(root: Node, s: Path, b: nat)
    requires WellNamed(root) && Lookup(root, s).Some? && b > 0
    ensures ResolveFrom(root, [], s, b).outcome == Found(s, Lookup(root, s).value)
  {
    assert [] + s == s;
    StoredResolvesToItself(root, [], s, b);
  }

  /** A link on the way is followed to where it leads, and what is stored there is found. */
  lemma ThroughLink(root: Node, d: Path, n: Name, k: nat, q: Path, rest: Path)
    requires WellNamed(root) && LinkUp(root, d, n, k, q) && k <= |d| && rest != []
    requires Lookup(root, UpFrom(d, k, q) + rest).Some?
    ensures var r, t := Resolve(root, d + [n] + rest), UpFrom(d, k, q) + rest;
            r.outcome == Found(t, Lookup(root, t).value) && d + [n] in r.links
  {
    ThroughLinkFrom(root, d, n, k, q, rest, LINK_BUDGET);
  }

  lemma ProperParts(root: Node, d: Path, n: Name)
    requires WellNamed(root) && Lookup(root, d + [n]).Some?
    ensures ProperPath(d) && ProperName(n)
  {
    assert ProperPath(d + [n]);
    forall i | 0 <= i < |d| ensures ProperName(d[i]) { assert (d + [n])[i] == d[i]; }
    assert (d + [n])[|d|] == n;
  }

  /** At a link that is not the end of the path, resolution starts over from where it leads. */
  lemma AtLink(root: Node, d: Path, n: Name, rest: Path, t: Path, b: nat)
    requires ProperName(n) && rest != [] && b > 0 && Lookup(root, d + [n]).Some?
    requires Lookup(root, d + [n]).value.node.Link?
    requires TargetOf(d + [n], Lookup(root, d + [n]).value.node.target) == Some(t)
    ensures var r := ResolveFrom(root, d, [n] + rest, b);
            r.outcome == ResolveFrom(root, [], t + rest, b - 1).outcome && d + [n] in r.links
  {
    assert ([n] + rest)[1..] == rest;
  }

  /** A name that its directory lacks is missing; a path through a file or device is an error. */
  lemma NoWayOn(root: Node, d: Path, n: Name, rest: Path)
    requires ProperPath(d) && ProperName(n) && DirAt(root, d).Some?
    ensures Lookup(root, d + [n]).None? ==> Resolve(root, d + [n] + rest).outcome.Missing?
    ensures Lookup(root, d + [n]).Some? && rest != [] &&
            (Lookup(root, d + [n]).value.node.File? || Lookup(root, d + [n]).value.node.Special?) ==>
              Resolve(root, d + [n] + rest).outcome.Failed?
  {
    NoWayFrom(root, d, n, rest, LINK_BUDGET);
  }

  lemma NoWayFrom(root: Node, d: Path, n: Name, rest: Path, b: nat)
    requires ProperPath(d) && ProperName(n) && DirAt(root, d).Some?
    ensures Lookup(root, d + [n]).None? ==> ResolveFrom(root, [], d + [n] + rest, b).outcome.Missing?
    ensures Lookup(root, d + [n]).Some? && rest != [] &&
            (Lookup(root, d + [n]).value.node.File? || Lookup(root, d + [n]).value.node.Special?) ==>
              ResolveFrom(root, [], d + [n] + rest, b).outcome.Failed?
  {
    assert [] + d == d && d + [n] + rest == d + ([n] + rest);
    ThroughDirs(root, [], d, [n] + rest, b);
  }

  /** A path through a link that leaves the context is an error. */
  lemma ThroughEscape(root: Node, d: Path, n: Name, t: Target, rest: Path)
    requires WellNamed(root) && rest != [] && Lookup(root, d + [n]).Some?
    requires Lookup(root, d + [n]).value.node == Link(t)
    requires t.absolute || exists i :: 0 <= i <= |t.segs| && |d| + Descent(t.segs[..i]) < 0
    ensures Resolve(root, d + [n] + rest).outcome.Failed?
  {
    ProperParts(root, d, n);
    ToLink(root, d, n, rest, LINK_BUDGET);
    TargetMeans(d, n, 0, [], t.segs);
    AtEscape(root, d, n, rest, LINK_BUDGET);
  }

  lemma AtEscape(root: Node, d: Path, n: Name, rest: Path, b: nat)
    requires ProperName(n) && rest != [] && b > 0 && Lookup(root, d + [n]).Some?
    requires Lookup(root, d + [n]).value.node.Link? && TargetOf(d + [n], Lookup(root, d + [n]).value.node.target).None?
    ensures ResolveFrom(root, d, [n] + rest, b).outcome.Failed?
  {
  }

  /** Empty and "." components of a path are passed over. */
  lemma DotsPassedOver(root: Node, cur: Path, rest: Path, b: nat)
    ensures ResolveFrom(root, cur, ["."] + rest, b) == ResolveFrom(root, cur, rest, b)
    ensures ResolveFrom(root, cur, [""] + rest, b) == ResolveFrom(root, cur, rest, b)
  {
    assert (["."] + rest)[1..] == rest && ([""] + rest)[1..] == rest;
  }

  // ---- what a walk covers and refuses ----

  lemma {:induction false} ScannedAt(at: Path, e: Entry, x: Path, visited: set<Path>, allow: set<Path>)
    requires EntryScanned(at, e, visited, allow) && Lookup(e.node, x).Some?
    ensures EntryScanned(at + x, Lookup(e.node, x).value, visited, allow)
    decreases |x|
  {
    var k := x[0];
    assert Scanned(at, e.node, visited, allow);
    if |x| == 1 {
      assert at + x == at + [k];
    } else {
      ScannedAt(at + [k], e.node.entries[k], x[1..], visited, allow);
      assert at + x == at + [k] + x[1..];
    }
  }

  lemma {:induction false} EscapesAt(at: Path, e: Entry, x: Path, allow: set<Path>)
    requires Lookup(e.node, x).Some? && Escapes(at + x, Lookup(e.node, x).value, allow)
    ensures Escapes(at, e, allow)
    decreases |x|
  {
    var k := x[0];
    if |x| == 1 {
      assert at + x == at + [k];
    } else {
      assert at + x == at + [k] + x[1..];
      EscapesAt(at + [k], e.node.entries[k], x[1..], allow);
    }
  }

  /** What is stored below s is found in the entry at s. */
  lemma StoredBelow(root: Node, s: Path, l: Path)
    requires s != [] && s < l && Lookup(root, l).Some?
    ensures Lookup(root, s).Some? && Lookup(Lookup(root, s).value.node, l[|s|..]) == Lookup(root, l)
    ensures s + l[|s|..] == l
  {
    var x := l[|s|..];
    assert l == s + x;
    LookupBelow(root, s, x);
  }

  lemma StoredIsFound(root: Node, s: Path)
    requires WellNamed(root) && Lookup(root, s).Some?
    ensures Resolve(root, s).outcome == Found(s, Lookup(root, s).value)
  {
    StoredIsFoundFrom(root, s, LINK_BUDGET);
  }

  /** The target of every link at or below a path that a walk visits is covered, if it is stored:
      as many levels up from the link's directory as the target says, then down. It is visited in
      turn, so that chains of links are covered as well. */
  lemma LinkTargetCovered(root: Node, seeds: seq<Path>, allow: set<Path>, r: WalkResult, s: Path, d: Path, n: Name,
                          k: nat, q: Path)
    requires Expands(root, seeds, allow, r) && Due(root, ToPathSet(seeds), s) && s <= d + [n]
    requires LinkUp(root, d, n, k, q) && k <= |d| && Lookup(root, UpFrom(d, k, q)).Some?
    ensures UpFrom(d, k, q) in r.paths && Due(root, ToPathSet(seeds), UpFrom(d, k, q))
  {
    var l, t := d + [n], UpFrom(d, k, q);
    var visited :| Expansion(root, seeds, allow, visited, r.paths) && Reported(root, visited, r.warnings);
    ExpansionHosts(root, seeds, allow, visited, r.paths);
    assert ToPathSet(seeds) <= visited && s in visited;
    assert Closed(root, s, visited, r.paths, allow);
    assert s != [];
    if s < l {
      StoredBelow(root, s, l);
      StoredIsFound(root, s);
      ScannedAt(s, Lookup(root, s).value, l[|s|..], visited, allow);
    } else {
      assert s == l;
      StoredIsFound(root, s);
    }
    assert EntryScanned(l, Lookup(root, l).value, visited, allow);
    TargetMeans(d, n, k, q, []);
    assert t in visited;
    assert Closed(root, t, visited, r.paths, allow);
    StoredIsFound(root, t);
    assert Due(root, ToPathSet(seeds), t);
  }

  /** A walk that must visit a path with a link at or below it that is absolute, or climbs out of the
      context, fails unless that very link may escape. */
  lemma EscapeRefused(root: Node, seeds: seq<Path>, allow: set<Path>, s: Path, d: Path, n: Name, t: Target)
    requires WellNamed(root) && Due(root, ToPathSet(seeds), s) && s != [] && s <= d + [n] && d + [n] !in allow
    requires Lookup(root, d + [n]).Some? && Lookup(root, d + [n]).value.node == Link(t)
    requires t.absolute || exists i :: 0 <= i <= |t.segs| && |d| + Descent(t.segs[..i]) < 0
    ensures !Walkable(root, seeds, allow)
  {
    var l := d + [n];
    TargetMeans(d, n, 0, [], t.segs);
    if s < l {
      StoredBelow(root, s, l);
      StoredIsFound(root, s);
      EscapesAt(s, Lookup(root, s).value, l[|s|..], allow);
    } else {
      assert s == l;
      StoredIsFound(root, s);
    }
    assert Troubled(root, s, allow);
  }

  /** A seed that is stored is covered. */
  lemma SeedCovered(root: Node, seeds: seq<Path>, allow: set<Path>, r: WalkResult, s: Path)
    requires Expands(root, seeds, allow, r) && s in seeds && Lookup(root, s).Some?
    ensures s in r.paths && Due(root, ToPathSet(seeds), s)
  {
    var visited :| Expansion(root, seeds, allow, visited, r.paths) && Reported(root, visited, r.warnings);
    assert Closed(root, s, visited, r.paths, allow);
    StoredIsFound(root, s);
    assert s in ToPathSet(seeds);
  }

  /** Walk covers the build directory, if it is stored and not the root, and the declared sources. */
  lemma WalkCovers(root: Node, dir: Path, declared: seq<Path>, allow: set<Path>, r: WalkResult, s: Path)
    requires Expands(root, WalkSeeds(dir, declared), allow, r) && Lookup(root, s).Some? && (s == dir || s in declared)
    ensures s in r.paths
  {
    assert s != [];
    assert s in WalkSeeds(dir, declared);
    SeedCovered(root, WalkSeeds(dir, declared), allow, r, s);
  }

  /** WalkClosure accepts a closure in which one declared path is stored at, under or above the
      build directory. */
  lemma DeclaredReaches(root: Node, declared: seq<Path>, allow: set<Path>, s: Path, dir: Path)
    requires s in declared && Lookup(root, s).Some? && (s == dir || s < dir || dir < s)
    ensures !Unreached(root, declared, allow, dir)
  {
    forall r: WalkResult | Expands(root, declared, allow, r) ensures Reaches(r.paths, dir) {
      SeedCovered(root, declared, allow, r, s);
    }
  }

  // ---- how many links are followed ----

  /** The i-th name of a chain. */
  function Hop(i: nat): Name { seq(i + 1, j => 'a') }

  /** n links, each to the next, and a directory with a file x at the end. */
  function Chain(n: nat): Node {
    Dir(map k | k in Hops(n) :: Entry(PLAIN, ChainNode(n, |k|)))
  }

  function Hops(n: nat): set<Name> { set i | 0 <= i <= n :: Hop(i) }

  /** The link to the i-th name, or the end. */
  function ChainNode(n: nat, i: nat): Node {
    if i <= n then Link(Target(false, [Hop(i)])) else Dir(map["x" := Entry(PLAIN, File([]))])
  }

  lemma ChainLookup(n: nat, i: nat)
    requires i <= n
    ensures Lookup(Chain(n), [Hop(i)]) == Some(Entry(PLAIN, ChainNode(n, i + 1)))
    ensures TargetOf([Hop(i)], Target(false, [Hop(i + 1)])) == Some([Hop(i + 1)]) && ProperName(Hop(i))
  {
    assert Hop(i) in Hops(n) && |Hop(i)| == i + 1;
    assert ProperName(Hop(i)) by { assert Hop(i)[0] == 'a'; }
    assert ProperName(Hop(i + 1)) by { assert Hop(i + 1)[0] == 'a'; }
    assert [Hop(i)][..0] == [] && [] + [Hop(i + 1)] == [Hop(i + 1)];
    JoinNames([], [Hop(i + 1)]);
  }

  lemma {:induction false} ChainResolves(n: nat, i: nat, b: nat)
    requires i <= n
    ensures ResolveFrom(Chain(n), [], [Hop(i), "x"], b).outcome.Found? <==> n - i <= b
    decreases n - i
  {
    ChainStep(n, i, b);
    if i < n && b > 0 { ChainResolves(n, i + 1, b - 1); }
  }

  lemma ChainStep(n: nat, i: nat, b: nat)
    requires i <= n
    ensures var out := ResolveFrom(Chain(n), [], [Hop(i), "x"], b).outcome;
            if i == n then out.Found?
            else if b == 0 then out.Failed?
            else out == ResolveFrom(Chain(n), [], [Hop(i + 1), "x"], b - 1).outcome
  {
    ChainLookup(n, i);
    var segs := [Hop(i), "x"];
    assert [] + [segs[0]] == [Hop(i)] && segs[1..] == ["x"] && [Hop(i + 1)] + ["x"] == [Hop(i + 1), "x"];
    if i == n {
      LookupSnoc(Chain(n), [Hop(i)], "x");
      assert segs[1..][0] == "x" && |segs[1..]| == 1;
    }
  }

  /** A path through a chain of n links is found exactly if there are no more than forty. */
  lemma FortyLinks(n: nat)
    ensures Resolve(Chain(n), [Hop(0), "x"]).outcome.Found? <==> n <= 40
  {
    ChainResolves(n, 0, LINK_BUDGET);
  }
}
