/** PruneTree and NormalizeTree: the covered tree of a set of keep paths, with
    normalised metadata (amber/prune.go).
 */
module Prune {
  import opened Wrappers
  import opened FsTree

  /** 1980-01-01T00:00:00Z in nanoseconds, stamped on every covered entry. */
  const COVER_EPOCH_NANO: int := 315532800 * 1_000_000_000

  // ---- the keep-set trie ----

  /** The value of a keep-set trie: `full` keeps everything beneath the node. */
  datatype Trie = Trie(full: bool, children: map<Name, Trie>)

  const EMPTY: Trie := Trie(false, map[])

  function Add(t: Trie, segs: Path): Trie
    decreases |segs|
  {
    if t.full then t
    else if segs == [] then Trie(true, map[])
    else
      var c := if segs[0] in t.children then t.children[segs[0]] else EMPTY;
      Trie(false, t.children[segs[0] := Add(c, segs[1..])])
  }

  function AddAll(t: Trie, keep: seq<Path>): Trie
    decreases |keep|
  {
    if keep == [] then t else AddAll(Add(t, keep[0]), keep[1..])
  }

  /** x lies at or below a fully kept node. */
  predicate Covers(t: Trie, x: Path)
    decreases |x|
  {
    t.full || (x != [] && x[0] in t.children && Covers(t.children[x[0]], x[1..]))
  }

  /** x lies at, below or above a fully kept node. */
  predicate Touches(t: Trie, x: Path)
    decreases |x|
  {
    t.full || (if x == [] then t.children != map[] else x[0] in t.children && Touches(t.children[x[0]], x[1..]))
  }

  /** x lies at or below a keep path. */
  ghost predicate Below(keep: set<Path>, x: Path) { exists c :: c in keep && c <= x }

  /** x lies on, below or above a keep path. */
  ghost predicate Kept(keep: set<Path>, x: Path) { exists c :: c in keep && (c <= x || x <= c) }

  lemma {:induction false} AddCovers(t: Trie, p: Path, x: Path)
    ensures Covers(Add(t, p), x) <==> Covers(t, x) || p <= x
    decreases |p|
  {
    if !t.full && p != [] {
      var c := if p[0] in t.children then t.children[p[0]] else EMPTY;
      if x != [] && x[0] == p[0] {
        AddCovers(c, p[1..], x[1..]);
        assert p == [p[0]] + p[1..] && x == [x[0]] + x[1..];
        assert p <= x <==> p[1..] <= x[1..];
      }
    }
  }

  lemma {:induction false} AddTouches(t: Trie, p: Path, x: Path)
    ensures Touches(Add(t, p), x) <==> Touches(t, x) || p <= x || x <= p
    decreases |p|
  {
    if !t.full && p != [] {
      var c := if p[0] in t.children then t.children[p[0]] else EMPTY;
      var a := Add(t, p);
      if x == [] {
        assert p[0] in a.children;
      } else if x[0] == p[0] {
        AddTouches(c, p[1..], x[1..]);
        assert p == [p[0]] + p[1..] && x == [x[0]] + x[1..];
        assert p <= x <==> p[1..] <= x[1..];
        assert x <= p <==> x[1..] <= p[1..];
      }
    }
  }

  function ToSet<T>(s: seq<T>): set<T> { set x | x in s }

  /** The trie of a keep list is its set of paths: order and repetition do not matter. */
  lemma {:induction false} AddAllMeaning(t: Trie, keep: seq<Path>, x: Path)
    ensures Covers(AddAll(t, keep), x) <==> Covers(t, x) || Below(ToSet(keep), x)
    ensures Touches(AddAll(t, keep), x) <==> Touches(t, x) || Kept(ToSet(keep), x)
    decreases |keep|
  {
    if keep != [] {
      AddCovers(t, keep[0], x);
      AddTouches(t, keep[0], x);
      AddAllMeaning(Add(t, keep[0]), keep[1..], x);
      assert ToSet(keep) == {keep[0]} + ToSet(keep[1..]);
    }
  }

  ghost predicate TrieOf(t: Trie, keep: set<Path>) {
    && (forall x :: Covers(t, x) <==> Below(keep, x))
    && (forall x :: Touches(t, x) <==> Kept(keep, x))
  }

  lemma BuiltTrie(keep: seq<Path>)
    ensures TrieOf(AddAll(EMPTY, keep), ToSet(keep))
  {
    forall x: Path
      ensures Covers(AddAll(EMPTY, keep), x) <==> Below(ToSet(keep), x)
      ensures Touches(AddAll(EMPTY, keep), x) <==> Kept(ToSet(keep), x)
    {
      AddAllMeaning(EMPTY, keep, x);
    }
  }

  // ---- pruning ----

  function NormMeta(m: Meta): Meta {
    Meta(m.mode, 0, 0, COVER_EPOCH_NANO, m.xattrs)
  }

  function NormView(v: View): View {
    v.(meta := NormMeta(v.meta))
  }

  /** Every entry at and below e with uid, gid and mtime normalised. */
  function NormNode(n: Node): Node
    decreases n
  {
    if n.Dir? then Dir(map k | k in n.entries :: Entry(NormMeta(n.entries[k].meta), NormNode(n.entries[k].node)))
    else n
  }

  function NormEntry(e: Entry): Entry { Entry(NormMeta(e.meta), NormNode(e.node)) }

  lemma {:induction false} NormLookup(n: Node, x: Path)
    requires n.Dir?
    ensures Lookup(NormNode(n), x) == match Lookup(n, x) { case None => None case Some(e) => Some(NormEntry(e)) }
    decreases |x|
  {
    if x != [] && x[0] in n.entries && |x| > 1 && n.entries[x[0]].node.Dir? {
      NormLookup(n.entries[x[0]].node, x[1..]);
    }
  }

  /** Normalising changes owner and time and nothing else. */
  lemma NormEntryCopies(e: Entry)
    ensures CopiedTree(e, NormEntry(e))
  {
    if e.node.Dir? {
      forall x ensures Copied(ViewAt(e.node, x), ViewAt(NormNode(e.node), x)) { NormLookup(e.node, x); }
    }
  }

  function Child(t: Trie, name: Name): Trie
    requires t.full || name in t.children
  {
    if t.full then t else t.children[name]
  }

  /** Every trie path not below a full node leads through directories to something that exists. */
  predicate Prunable(n: Node, t: Trie)
    requires n.Dir?
    decreases n
  {
    t.full ||
    forall k :: k in t.children ==>
      && k in n.entries
      && (if n.entries[k].node.Dir? then Prunable(n.entries[k].node, t.children[k]) else t.children[k].full)
  }

  /** The tree that pruneDir emits when it does not fail. */
  function Pruned(n: Node, t: Trie): (r: Node)
    requires n.Dir?
    ensures r.Dir?
    decreases n
  {
    Dir(map k | k in n.entries && (t.full || k in t.children) ::
      Entry(NormMeta(n.entries[k].meta),
            if n.entries[k].node.Dir? then Pruned(n.entries[k].node, Child(t, k)) else n.entries[k].node))
  }

  /** What pruning emits is a copy of what was there. */
  lemma {:induction false} PrunedCopies(n: Node, t: Trie, x: Path)
    requires n.Dir?
    ensures ViewAt(Pruned(n, t), x).Some? ==> Copied(ViewAt(n, x), ViewAt(Pruned(n, t), x))
    decreases |x|
  {
    if |x| > 1 && x[0] in Pruned(n, t).entries {
      var sub := n.entries[x[0]].node;
      if sub.Dir? { PrunedCopies(sub, Child(t, x[0]), x[1..]); } else { assert Lookup(sub, x[1..]).None?; }
    }
  }

  lemma {:induction false} FullPruneIsNorm(n: Node, t: Trie)
    requires n.Dir? && t.full
    ensures Pruned(n, t) == NormNode(n)
    decreases n
  {
    forall k | k in n.entries && n.entries[k].node.Dir? {
      FullPruneIsNorm(n.entries[k].node, t);
    }
    assert Pruned(n, t).entries == NormNode(n).entries;
  }

  /** Non-root paths never make the trie's root full, and at least one gives it a child. */
  lemma {:induction false} AddAllRoot(t: Trie, keep: seq<Path>)
    requires !t.full && forall i :: 0 <= i < |keep| ==> keep[i] != []
    ensures !AddAll(t, keep).full
    ensures AddAll(t, keep).children != map[] <==> t.children != map[] || keep != []
    decreases |keep|
  {
    if keep != [] {
      assert keep[0] != [] && keep[0][0] in Add(t, keep[0]).children;
      AddAllRoot(Add(t, keep[0]), keep[1..]);
    }
  }

  /** Reads the directory n and emits its covered part; None is an error. */
  method PruneDir(n: Node, t: Trie) returns (r: Option<Node>)
    requires n.Dir?
    ensures r.Some? <==> Prunable(n, t)
    ensures r.Some? ==> r.value == Pruned(n, t)
    ensures r.Some? ==> forall x :: ViewAt(r.value, x).Some? ==> Copied(ViewAt(n, x), ViewAt(r.value, x))
    decreases n
  {
    var todo := n.entries.Keys;
    var out: map<Name, Entry> := map[];
    var matched: set<Name> := {};
    while todo != {}
      invariant todo <= n.entries.Keys
      invariant out.Keys == (n.entries.Keys - todo) * Pruned(n, t).entries.Keys
      invariant forall k :: k in out ==> out[k] == Pruned(n, t).entries[k]
      invariant !t.full ==> matched == (n.entries.Keys - todo) * t.children.Keys
      invariant !t.full ==> forall k :: k in matched ==>
        if n.entries[k].node.Dir? then Prunable(n.entries[k].node, t.children[k]) else t.children[k].full
      decreases todo
    {
      var name :| name in todo;
      todo := todo - {name};
      if !t.full && name !in t.children { continue; }
      var child := if t.full then t else t.children[name];
      if !t.full { matched := matched + {name}; }
      var e := n.entries[name];
      var node := e.node;
      if e.node.Dir? {
        var sub := PruneDir(e.node, child);
        if sub.None? { return None; }
        node := sub.value;
      } else if !child.full {
        return None;
      }
      out := out[name := Entry(NormMeta(e.meta), node)];
    }
    if !t.full && exists k :: k in t.children && k !in matched { return None; }
    assert out == Pruned(n, t).entries;
    forall x ensures ViewAt(Pruned(n, t), x).Some? ==> Copied(ViewAt(n, x), ViewAt(Pruned(n, t), x)) {
      PrunedCopies(n, t, x);
    }
    return Some(Dir(out));
  }

  function CleanAll(keep: seq<seq<Name>>): (r: seq<Path>)
    ensures |r| == |keep|
    ensures forall i :: 0 <= i < |r| ==> r[i] == CleanRooted([], keep[i])
  {
    if keep == [] then [] else [CleanRooted([], keep[0])] + CleanAll(keep[1..])
  }

  /** PruneTree fails before reading anything when a keep path is the root, or when there is none. */
  predicate GoodKeep(keep: seq<Path>) {
    keep != [] && forall i :: 0 <= i < |keep| ==> keep[i] != []
  }

  function PruneSpec(root: Node, keep: seq<Path>): Option<Node>
    requires root.Dir?
  {
    var t := AddAll(EMPTY, keep);
    if GoodKeep(keep) && Prunable(root, t) then Some(Pruned(root, t)) else None
  }

  /** PruneTree: build the trie from the cleaned keep paths, then emit. */
  method PruneTree(root: Node, keep: seq<seq<Name>>) returns (r: Option<Node>)
    requires root.Dir?
    ensures r == PruneSpec(root, CleanAll(keep))
    ensures r.Some? ==> forall x :: ViewAt(r.value, x).Some? ==> Copied(ViewAt(root, x), ViewAt(r.value, x))
  {
    var trie := EMPTY;
    ghost var paths := CleanAll(keep);
    for i := 0 to |keep|
      invariant AddAll(EMPTY, paths) == AddAll(trie, paths[i..])
      invariant forall j :: 0 <= j < i ==> paths[j] != []
    {
      var p := CleanRooted([], keep[i]);
      if p == [] { return None; }
      trie := Add(trie, p);
    }
    assert trie == AddAll(EMPTY, paths);
    AddAllRoot(EMPTY, paths);
    if trie.children == map[] { return None; }
    r := PruneDir(root, trie);
  }

  /** NormalizeTree: the whole tree is covered; it cannot fail. */
  method NormalizeTree(root: Node) returns (r: Node)
    requires root.Dir?
    ensures r == NormNode(root) && forall x :: Copied(ViewAt(root, x), ViewAt(r, x))
  {
    var o := PruneDir(root, Trie(true, map[]));
    FullPruneIsNorm(root, Trie(true, map[]));
    forall x ensures Copied(ViewAt(root, x), ViewAt(NormNode(root), x)) { NormLookup(root, x); }
    r := o.value;
  }
}
