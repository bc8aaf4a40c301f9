/** Directory trees of the content store, paths inside them, and the lexical
    path arithmetic of Go's `path` package that the tree code relies on.

    A tree key is collision free, so a key is modelled by the tree it names: a
    directory is the finite map of its entries. The metadata of an entry lives
    in the directory that holds it, as in the store's own entry records.
 */
module FsTree {

  import opened Wrappers

  type Name = string

  /** A root-relative path, split at '/'. The root itself is the empty path. */
  type Path = seq<Name>

  datatype Meta = Meta(mode: nat, uid: int, gid: int, mtime: int, xattrs: map<string, string>)

  /** A symlink target, split at '/'; empty, "." and ".." segments are possible. */
  datatype Target = Target(absolute: bool, segs: seq<Name>)

  datatype Node =
    | File(content: seq<int>)
    | Special(device: int)
    | Link(target: Target)
    | Dir(entries: map<Name, Entry>)

  datatype Entry = Entry(meta: Meta, node: Node)

  /** Everything an entry says about itself, without what lies below it. */
  datatype View = FileView(meta: Meta, content: seq<int>)
                | SpecialView(meta: Meta, device: int)
                | LinkView(meta: Meta, target: Target)
                | DirView(meta: Meta)

  function Shallow(e: Entry): View {
    match e.node
    case File(c) => FileView(e.meta, c)
    case Special(d) => SpecialView(e.meta, d)
    case Link(t) => LinkView(e.meta, t)
    case Dir(_) => DirView(e.meta)
  }

  /** Nothing in both, or entries of one kind with the same mode, extended attributes, content,
      device and link target. */
  predicate Alike(a: Option<View>, b: Option<View>) {
    match (a, b)
    case (None, None) => true
    case (Some(FileView(m, c)), Some(FileView(m', c'))) => m.mode == m'.mode && m.xattrs == m'.xattrs && c == c'
    case (Some(SpecialView(m, d)), Some(SpecialView(m', d'))) => m.mode == m'.mode && m.xattrs == m'.xattrs && d == d'
    case (Some(LinkView(m, t)), Some(LinkView(m', t'))) => m.mode == m'.mode && m.xattrs == m'.xattrs && t == t'
    case (Some(DirView(m)), Some(DirView(m'))) => m.mode == m'.mode && m.xattrs == m'.xattrs
    case _ => false
  }

  /** b is a with the owner root and the time of the first of January 1980. */
  predicate Copied(a: Option<View>, b: Option<View>) {
    && Alike(a, b)
    && (b.Some? ==> b.value.meta.uid == 0 && b.value.meta.gid == 0 && b.value.meta.mtime == 315532800000000000)
  }

  /** b is such a copy of a, and so is everything below it. */
  ghost predicate CopiedTree(a: Entry, b: Entry) {
    Copied(Some(Shallow(a)), Some(Shallow(b))) && forall x :: Copied(ViewAt(a.node, x), ViewAt(b.node, x))
  }

  /** The entry physically stored at p: no symlink is followed. */
  function Lookup(n: Node, p: Path): Option<Entry>
    decreases |p|
  {
    if p == [] || !n.Dir? || p[0] !in n.entries then None
    else if |p| == 1 then Some(n.entries[p[0]])
    else Lookup(n.entries[p[0]].node, p[1..])
  }

  function ViewAt(n: Node, p: Path): Option<View> {
    match Lookup(n, p)
    case None => None
    case Some(e) => Some(Shallow(e))
  }

  /** The directory at p, where the empty path is the root. */
  function DirAt(root: Node, p: Path): Option<Node> {
    if p == [] then (if root.Dir? then Some(root) else None)
    else match Lookup(root, p)
         case Some(Entry(_, Dir(es))) => Some(Dir(es))
         case _ => None
  }

  /** Looking below p is looking inside the directory stored at p. */
  lemma {:induction false} LookupBelow(root: Node, p: Path, q: Path)
    requires p != [] && q != []
    ensures Lookup(root, p + q) ==
            match Lookup(root, p) { case None => None case Some(e) => Lookup(e.node, q) }
    decreases |p|
  {
    assert (p + q)[0] == p[0];
    if |p| == 1 {
      assert (p + q)[1..] == q;
    } else if root.Dir? && p[0] in root.entries {
      assert (p + q)[1..] == p[1..] + q;
      LookupBelow(root.entries[p[0]].node, p[1..], q);
    }
  }

  /** One more component: the entry of the directory at `dir`, if there is one. */
  lemma LookupSnoc(root: Node, dir: Path, name: Name)
    ensures Lookup(root, dir + [name]) ==
            match DirAt(root, dir)
            case None => None
            case Some(d) => if name in d.entries then Some(d.entries[name]) else None
  {
    if dir == [] {
      assert dir + [name] == [name];
    } else {
      LookupBelow(root, dir, [name]);
    }
  }

  /** What is stored at a path is stored below each of its proper prefixes. */
  lemma LookupPrefix(root: Node, p: Path, q: Path)
    requires p != [] && p < q && Lookup(root, q).Some?
    ensures Lookup(root, p).Some? && Lookup(root, p).value.node.Dir?
  {
    assert q == p + q[|p|..];
    LookupBelow(root, p, q[|p|..]);
  }

  /** A directory tree is determined by the views of its entries. */
  lemma {:induction false} TreeExtensionality(a: Node, b: Node)
    requires a.Dir? && b.Dir?
    requires forall p: Path :: ViewAt(a, p) == ViewAt(b, p)
    ensures a == b
    decreases a
  {
    forall n: Name
      ensures n in a.entries <==> n in b.entries
      ensures n in a.entries ==> a.entries[n] == b.entries[n]
    {
      assert ViewAt(a, [n]) == ViewAt(b, [n]);
      if n in a.entries {
        var x, y := a.entries[n], b.entries[n];
        assert Shallow(x) == Shallow(y);
        if x.node.Dir? {
          forall p: Path ensures ViewAt(x.node, p) == ViewAt(y.node, p) {
            if p != [] {
              assert ([n] + p)[1..] == p;
              assert ViewAt(a, [n] + p) == ViewAt(b, [n] + p);
            }
          }
          TreeExtensionality(x.node, y.node);
        }
      }
    }
    assert a.entries == b.entries;
  }

  // ---- lexical path arithmetic ----

  predicate ProperName(n: Name) { n != "" && n != "." && n != ".." }

  predicate ProperPath(p: Path) { forall i :: 0 <= i < |p| ==> ProperName(p[i]) }

  /** path.Clean(path.Join(base, rel)) for a clean base: None once it climbs above the root. */
  function JoinClean(base: Path, rel: seq<Name>): (r: Option<Path>)
    decreases |rel|
  {
    if rel == [] then Some(base)
    else if rel[0] == "" || rel[0] == "." then JoinClean(base, rel[1..])
    else if rel[0] == ".." then (if base == [] then None else JoinClean(base[..|base| - 1], rel[1..]))
    else JoinClean(base + [rel[0]], rel[1..])
  }

  /** strings.Trim(path.Clean("/" + p), "/"): ".." stops at the root. */
  function CleanRooted(base: Path, rel: seq<Name>): Path
    decreases |rel|
  {
    if rel == [] then base
    else if rel[0] == "" || rel[0] == "." then CleanRooted(base, rel[1..])
    else if rel[0] == ".." then CleanRooted(if base == [] then [] else base[..|base| - 1], rel[1..])
    else CleanRooted(base + [rel[0]], rel[1..])
  }

  lemma {:induction false} JoinCleanProper(base: Path, rel: seq<Name>)
    requires ProperPath(base)
    ensures JoinClean(base, rel).Some? ==> ProperPath(JoinClean(base, rel).value)
    decreases |rel|
  {
    if rel != [] {
      if rel[0] == "" || rel[0] == "." {
        JoinCleanProper(base, rel[1..]);
      } else if rel[0] == ".." {
        if base != [] { JoinCleanProper(base[..|base| - 1], rel[1..]); }
      } else {
        JoinCleanProper(base + [rel[0]], rel[1..]);
      }
    }
  }

  /** Cleaning a proper path changes nothing. */
  lemma {:induction false} CleanRootedProper(base: Path, rel: Path)
    requires ProperPath(rel)
    ensures CleanRooted(base, rel) == base + rel
    decreases |rel|
  {
    if rel == [] {
      assert base + rel == base;
    } else {
      assert ProperName(rel[0]);
      CleanRootedProper(base + [rel[0]], rel[1..]);
      assert base + rel == base + [rel[0]] + rel[1..];
    }
  }

  // ---- what the path arithmetic means ----

  /** k times "..". */
  function Ups(k: nat): seq<Name> { seq(k, i => "..") }

  /** How far a relative path climbs: each name goes down one level, each ".." up one. */
  function Descent(rel: seq<Name>): int {
    if rel == [] then 0
    else Descent(rel[..|rel| - 1]) +
         if rel[|rel| - 1] == ".." then -1 else if ProperName(rel[|rel| - 1]) then 1 else 0
  }

  /** Joining in two steps is joining at once. */
  lemma {:induction false} JoinInSteps(base: Path, a: seq<Name>, b: seq<Name>)
    ensures JoinClean(base, a + b) ==
            match JoinClean(base, a) { case None => None case Some(mid) => JoinClean(mid, b) }
    decreases |a|
  {
    if a == [] {
      assert a + b == b;
    } else {
      assert (a + b)[0] == a[0] && (a + b)[1..] == a[1..] + b;
      var next := if !ProperName(a[0]) && a[0] != ".." then base
                  else if a[0] != ".." then base + [a[0]]
                  else if base == [] then [] else base[..|base| - 1];
      JoinInSteps(next, a[1..], b);
    }
  }

  /** Names are appended. */
  lemma {:induction false} JoinNames(base: Path, q: Path)
    requires ProperPath(q)
    ensures JoinClean(base, q) == Some(base + q)
    decreases |q|
  {
    if q == [] {
      assert base + q == base;
    } else {
      assert ProperName(q[0]);
      JoinNames(base + [q[0]], q[1..]);
      assert base + q == base + [q[0]] + q[1..];
    }
  }

  /** ".." undoes a name, "" and "." do nothing. */
  lemma JoinUndoes(base: Path, n: Name, rel: seq<Name>)
    ensures JoinClean(base + [n], [".."] + rel) == JoinClean(base, rel)
    ensures JoinClean(base, [""] + rel) == JoinClean(base, rel) == JoinClean(base, ["."] + rel)
    ensures JoinClean([], [".."] + rel) == None
  {
    assert (base + [n])[..|base|] == base;
    assert ([".."] + rel)[1..] == rel && ([""] + rel)[1..] == rel && (["."] + rel)[1..] == rel;
  }

  /** Up k levels, then down a proper path: that path under the k-th directory above, if there is one. */
  lemma {:induction false} JoinUps(base: Path, k: nat, q: Path)
    requires ProperPath(q)
    ensures JoinClean(base, Ups(k) + q) == if k <= |base| then Some(base[..|base| - k] + q) else None
    decreases k
  {
    if k == 0 {
      assert Ups(0) + q == q && base[..|base|] == base;
      JoinNames(base, q);
    } else {
      assert Ups(k) + q == [".."] + (Ups(k - 1) + q);
      if base == [] {
        JoinUndoes(base, "", Ups(k - 1) + q);
      } else {
        var up := base[..|base| - 1];
        assert base == up + [base[|base| - 1]];
        JoinUndoes(up, base[|base| - 1], Ups(k - 1) + q);
        JoinUps(up, k - 1, q);
        assert k <= |base| ==> up[..|up| - (k - 1)] == base[..|base| - k];
      }
    }
  }

  /** The join leaves the root exactly when some part of the way climbs above it; otherwise it ends
      as deep as the way leads. */
  lemma {:induction false} JoinEscapesIff(base: Path, rel: seq<Name>)
    ensures JoinClean(base, rel).None? <==> exists i :: 0 <= i <= |rel| && |base| + Descent(rel[..i]) < 0
    ensures JoinClean(base, rel).Some? ==> |JoinClean(base, rel).value| == |base| + Descent(rel)
    decreases |rel|
  {
    if rel != [] {
      var init, last := rel[..|rel| - 1], rel[|rel| - 1];
      assert rel == init + [last] && rel[..|rel|] == rel;
      JoinEscapesIff(base, init);
      JoinInSteps(base, init, [last]);
      forall i | 0 <= i <= |init| ensures rel[..i] == init[..i] {}
      if JoinClean(base, init).Some? {
        JoinOne(JoinClean(base, init).value, last);
        assert forall i :: 0 <= i <= |init| ==> |base| + Descent(rel[..i]) >= 0;
      } else {
        var i :| 0 <= i <= |init| && |base| + Descent(init[..i]) < 0;
        assert |base| + Descent(rel[..i]) < 0;
      }
    } else {
      assert rel[..0] == [];
    }
  }

  lemma JoinOne(base: Path, n: Name)
    ensures JoinClean(base, [n]) ==
            if n == ".." then (if base == [] then None else Some(base[..|base| - 1]))
            else Some(if ProperName(n) then base + [n] else base)
  {
    assert [n][1..] == [];
  }

  /** Cleaning below the root is the join, as long as that stays inside; ".." at the root does nothing. */
  lemma {:induction false} CleanIsJoin(base: Path, rel: seq<Name>)
    ensures JoinClean(base, rel).Some? ==> CleanRooted(base, rel) == JoinClean(base, rel).value
    ensures CleanRooted([], [".."] + rel) == CleanRooted([], rel)
    decreases |rel|
  {
    assert ([".."] + rel)[1..] == rel;
    if rel != [] {
      if !ProperName(rel[0]) && rel[0] != ".." {
        CleanIsJoin(base, rel[1..]);
      } else if rel[0] == ".." {
        if base != [] { CleanIsJoin(base[..|base| - 1], rel[1..]); }
      } else {
        CleanIsJoin(base + [rel[0]], rel[1..]);
      }
    }
  }

  /** However often a path climbs above the root first, cleaning leaves its names. */
  lemma {:induction false} CleanUps(k: nat, q: Path)
    requires ProperPath(q)
    ensures CleanRooted([], Ups(k) + q) == q
    decreases k
  {
    if k == 0 {
      CleanRootedProper([], q);
      assert Ups(0) + q == q && [] + q == q;
    } else {
      assert Ups(k) + q == [".."] + (Ups(k - 1) + q);
      CleanIsJoin([], Ups(k - 1) + q);
      CleanUps(k - 1, q);
    }
  }
}
