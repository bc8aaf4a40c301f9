/** What PruneTree promises: exactly the entries on, below or above a keep path
    survive, failure depends only on the keep paths that no shorter one absorbs,
    and the result is a function of the covered region alone.
 */
module PruneLaws {
  import opened Wrappers
  import opened FsTree
  import opened Prune

  // ---- the shape of built tries ----

  /** A full node has no children, and every child leads to a full node. */
  predicate Solid(t: Trie)
    decreases t
  {
    && (t.full ==> t.children == map[])
    && forall k :: k in t.children ==>
         (t.children[k].full || t.children[k].children != map[]) && Solid(t.children[k])
  }

  lemma {:induction false} AddSolid(t: Trie, p: Path)
    requires Solid(t)
    ensures Solid(Add(t, p))
    decreases |p|
  {
    if !t.full && p != [] {
      var c := if p[0] in t.children then t.children[p[0]] else EMPTY;
      AddSolid(c, p[1..]);
      if !c.full && p[1..] != [] {
        assert p[1..][0] in Add(c, p[1..]).children;
      }
    }
  }

  lemma {:induction false} AddAllSolid(t: Trie, keep: seq<Path>)
    requires Solid(t)
    ensures Solid(AddAll(t, keep))
    decreases |keep|
  {
    if keep != [] {
      AddSolid(t, keep[0]);
      AddAllSolid(Add(t, keep[0]), keep[1..]);
    }
  }

  /** The trie node at x is full. */
  predicate FullAt(t: Trie, x: Path)
    decreases |x|
  {
    if x == [] then t.full else x[0] in t.children && FullAt(t.children[x[0]], x[1..])
  }

  lemma {:induction false} SomeFull(t: Trie) returns (x: Path)
    requires Solid(t) && (t.full || t.children != map[])
    ensures FullAt(t, x)
    decreases t
  {
    if t.full { return []; }
    var k :| k in t.children;
    var y := SomeFull(t.children[k]);
    x := [k] + y;
    assert x[1..] == y;
  }

  lemma {:induction false} FullAtCovers(t: Trie, x: Path)
    requires Solid(t)
    ensures FullAt(t, x) <==> Covers(t, x) && forall i :: 0 <= i < |x| ==> !Covers(t, x[..i])
    decreases |x|
  {
    if x != [] && !t.full {
      forall i | 1 <= i < |x|
        ensures x[0] in t.children ==> Covers(t, x[..i]) == Covers(t.children[x[0]], x[1..][..i - 1])
      {
        assert x[..i][1..] == x[1..][..i - 1];
      }
      if x[0] in t.children {
        FullAtCovers(t.children[x[0]], x[1..]);
        if FullAt(t, x) {
          assert forall i :: 0 <= i < |x| ==> !Covers(t, x[..i]) by {
            forall i | 0 <= i < |x| ensures !Covers(t, x[..i]) {
              if i > 0 { assert !Covers(t.children[x[0]], x[1..][..i - 1]); }
            }
          }
        } else if Covers(t, x) {
          var j :| 0 <= j < |x[1..]| && Covers(t.children[x[0]], x[1..][..j]);
          assert Covers(t, x[..j + 1]);
        }
      }
    } else if x != [] {
      assert Covers(t, x[..0]);
    }
  }

  /** Solid tries that cover the same paths are the same trie. */
  lemma {:induction false} TrieExtensionality(a: Trie, b: Trie)
    requires Solid(a) && Solid(b)
    requires forall x: Path :: Covers(a, x) <==> Covers(b, x)
    ensures a == b
    decreases a
  {
    assert Covers(a, []) <==> Covers(b, []);
    if !a.full {
      forall k: Name
        ensures k in a.children <==> k in b.children
        ensures k in a.children ==> a.children[k] == b.children[k]
      {
        forall x: Path
          ensures Covers(a, [k] + x) <==> k in a.children && Covers(a.children[k], x)
          ensures Covers(b, [k] + x) <==> k in b.children && Covers(b.children[k], x)
        {
          assert ([k] + x)[1..] == x;
        }
        if k in a.children {
          var x := SomeFull(a.children[k]);
          FullAtCovers(a.children[k], x);
          assert Covers(a, [k] + x);
        }
        if k in b.children {
          var x := SomeFull(b.children[k]);
          FullAtCovers(b.children[k], x);
          assert Covers(b, [k] + x);
        }
        if k in a.children {
          forall x: Path ensures Covers(a.children[k], x) <==> Covers(b.children[k], x) {
            assert Covers(a, [k] + x) <==> Covers(b, [k] + x);
          }
          TrieExtensionality(a.children[k], b.children[k]);
        }
      }
      assert a.children == b.children;
    }
  }

  // ---- exactness ----

  function NormOpt(v: Option<View>): Option<View> {
    if v.Some? then Some(NormView(v.value)) else None
  }

  /** Two entries normalise alike exactly if they are alike, and the result is a copy of both. */
  lemma NormMeans(a: Option<View>, b: Option<View>)
    ensures NormOpt(a) == NormOpt(b) <==> Alike(a, b)
    ensures b == NormOpt(a) <==> Copied(a, b)
  {
  }

  /** The pruned tree, path by path: whole subtrees where covered, bare directories above
      them, nothing elsewhere. */
  lemma {:induction false} PrunedLookup(n: Node, t: Trie, x: Path)
    requires n.Dir? && Solid(t) && Prunable(n, t) && x != []
    ensures Covers(t, x) ==>
              Lookup(Pruned(n, t), x) == match Lookup(n, x) { case None => None case Some(e) => Some(NormEntry(e)) }
    ensures !Touches(t, x) ==> Lookup(Pruned(n, t), x).None?
    ensures Touches(t, x) && !Covers(t, x) ==>
              && Lookup(n, x).Some? && Lookup(n, x).value.node.Dir?
              && Lookup(Pruned(n, t), x).Some?
              && Shallow(Lookup(Pruned(n, t), x).value) == NormView(Shallow(Lookup(n, x).value))
    decreases |x|
  {
    if t.full {
      FullPruneIsNorm(n, t);
      NormLookup(n, x);
    } else if x[0] in t.children {
      var e := n.entries[x[0]];
      var c := t.children[x[0]];
      assert Covers(t, x) == Covers(c, x[1..]) && Touches(t, x) == Touches(c, x[1..]);
      if |x| == 1 { assert x[1..] == [] && Covers(c, []) == c.full && Touches(c, []); }
      if e.node.Dir? {
        if |x| == 1 {
          if c.full { FullPruneIsNorm(e.node, c); }
        } else {
          PrunedLookup(e.node, c, x[1..]);
        }
      }
    }
  }

  lemma PrunedView(n: Node, t: Trie, x: Path)
    requires n.Dir? && Solid(t) && Prunable(n, t)
    ensures ViewAt(Pruned(n, t), x) == if Touches(t, x) then NormOpt(ViewAt(n, x)) else None
  {
    if x != [] { PrunedLookup(n, t, x); }
  }

  lemma {:induction false} PrunableMeansFound(n: Node, t: Trie, x: Path)
    requires n.Dir? && !t.full && Solid(t) && Prunable(n, t) && FullAt(t, x)
    ensures Lookup(n, x).Some?
    decreases |x|
  {
    var e := n.entries[x[0]];
    if |x| > 1 {
      assert !t.children[x[0]].full;
      PrunableMeansFound(e.node, t.children[x[0]], x[1..]);
    }
  }

  lemma {:induction false} FoundMeansPrunable(n: Node, t: Trie)
    requires n.Dir? && !t.full && Solid(t)
    requires forall x :: FullAt(t, x) ==> Lookup(n, x).Some?
    ensures Prunable(n, t)
    decreases n
  {
    forall k | k in t.children
      ensures k in n.entries
      ensures if n.entries[k].node.Dir? then Prunable(n.entries[k].node, t.children[k]) else t.children[k].full
    {
      var c := t.children[k];
      forall x | FullAt(c, x) ensures Lookup(n, [k] + x).Some? {
        assert ([k] + x)[1..] == x;
        assert FullAt(t, [k] + x);
      }
      var y := SomeFull(c);
      assert Lookup(n, [k] + y).Some?;
      assert ([k] + y)[1..] == y;
      if !c.full {
        assert y != [];
        assert Lookup(n, [k] + y) == Lookup(n.entries[k].node, y);
        if n.entries[k].node.Dir? {
          forall x | FullAt(c, x) ensures Lookup(n.entries[k].node, x).Some? {
            assert ([k] + x)[1..] == x;
            assert Lookup(n, [k] + x).Some?;
          }
          FoundMeansPrunable(n.entries[k].node, c);
        }
      }
    }
  }

  /** No shorter keep path absorbs c. */
  ghost predicate Minimal(keep: seq<Path>, c: Path) { c in keep && forall d :: d in keep ==> !(d < c) }

  lemma MinimalIsFullAt(keep: seq<Path>, x: Path)
    ensures FullAt(AddAll(EMPTY, keep), x) <==> Minimal(keep, x)
  {
    var t := AddAll(EMPTY, keep);
    AddAllSolid(EMPTY, keep);
    BuiltTrie(keep);
    FullAtCovers(t, x);
    assert Covers(t, x) <==> Below(ToSet(keep), x);
    if Minimal(keep, x) {
      assert x in ToSet(keep) && x <= x;
      forall i | 0 <= i < |x| ensures !Covers(t, x[..i]) {
        assert forall c :: c in ToSet(keep) && c <= x[..i] ==> c < x;
        assert !Below(ToSet(keep), x[..i]);
      }
    }
    if FullAt(t, x) {
      forall d | d in keep ensures !(d < x) {
        assert d in ToSet(keep) && Below(ToSet(keep), d) && Covers(t, d);
        if |d| < |x| { assert x[..|d|] != d; }
      }
      var c :| c in ToSet(keep) && c <= x;
      assert c == x;
    }
  }

  /** PruneTree fails exactly when there is nothing to keep, a keep path is the root, or a
      keep path that no shorter one absorbs is missing or passes through a non-directory. */
  lemma PruneSucceedsIff(root: Node, keep: seq<Path>)
    requires root.Dir?
    ensures PruneSpec(root, keep).Some? <==>
            GoodKeep(keep) && forall c :: Minimal(keep, c) ==> Lookup(root, c).Some?
  {
    var t := AddAll(EMPTY, keep);
    AddAllSolid(EMPTY, keep);
    if GoodKeep(keep) {
      AddAllRoot(EMPTY, keep);
      forall x ensures FullAt(t, x) <==> Minimal(keep, x) { MinimalIsFullAt(keep, x); }
      if Prunable(root, t) {
        forall c | Minimal(keep, c) ensures Lookup(root, c).Some? { PrunableMeansFound(root, t, c); }
      } else if forall c :: Minimal(keep, c) ==> Lookup(root, c).Some? {
        forall x | FullAt(t, x) ensures Lookup(root, x).Some? {}
        FoundMeansPrunable(root, t);
      }
    }
  }

  /** The pruned tree holds exactly the entries on, below or above a keep path; at and below
      one it holds the whole normalised subtree. */
  lemma PruneExact(root: Node, keep: seq<Path>, x: Path)
    requires root.Dir? && PruneSpec(root, keep).Some?
    ensures ViewAt(PruneSpec(root, keep).value, x) ==
            if Kept(ToSet(keep), x) then NormOpt(ViewAt(root, x)) else None
    ensures if Kept(ToSet(keep), x) then Copied(ViewAt(root, x), ViewAt(PruneSpec(root, keep).value, x))
            else ViewAt(PruneSpec(root, keep).value, x).None?
    ensures x != [] && Below(ToSet(keep), x) && Lookup(root, x).Some? ==>
              Lookup(PruneSpec(root, keep).value, x) == Some(NormEntry(Lookup(root, x).value))
  {
    NormMeans(ViewAt(root, x), NormOpt(ViewAt(root, x)));
    var t := AddAll(EMPTY, keep);
    AddAllSolid(EMPTY, keep);
    BuiltTrie(keep);
    assert Touches(t, x) <==> Kept(ToSet(keep), x);
    assert Covers(t, x) <==> Below(ToSet(keep), x);
    PrunedView(root, t, x);
    if x != [] { PrunedLookup(root, t, x); }
  }

  /** Order, repetition and nesting of the keep list do not matter: only what lies at or below it. */
  lemma PruneDependsOnCover(root: Node, keep: seq<Path>, keep': seq<Path>)
    requires root.Dir?
    requires forall x :: Below(ToSet(keep), x) <==> Below(ToSet(keep'), x)
    ensures PruneSpec(root, keep) == PruneSpec(root, keep')
  {
    AddAllSolid(EMPTY, keep);
    AddAllSolid(EMPTY, keep');
    BuiltTrie(keep);
    BuiltTrie(keep');
    var a, b := AddAll(EMPTY, keep), AddAll(EMPTY, keep');
    forall x: Path ensures Covers(a, x) <==> Covers(b, x) {
      assert Below(ToSet(keep), x) <==> Below(ToSet(keep'), x);
    }
    TrieExtensionality(a, b);
    GoodKeepIsCover(keep);
    GoodKeepIsCover(keep');
    if keep != [] { assert Below(ToSet(keep), keep[0]) by { assert keep[0] in ToSet(keep); } }
    if keep' != [] { assert Below(ToSet(keep'), keep'[0]) by { assert keep'[0] in ToSet(keep'); } }
    assert Below(ToSet(keep), []) <==> Below(ToSet(keep'), []);
  }

  lemma GoodKeepIsCover(keep: seq<Path>)
    ensures GoodKeep(keep) <==> keep != [] && !Below(ToSet(keep), [])
  {
    if !Below(ToSet(keep), []) {
      forall i | 0 <= i < |keep| ensures keep[i] != [] { assert keep[i] in ToSet(keep); }
    }
  }

  // ---- pruning and normalising commute ----

  lemma {:induction false} PruneNorm(n: Node, t: Trie)
    requires n.Dir?
    ensures Prunable(NormNode(n), t) <==> Prunable(n, t)
    ensures Pruned(NormNode(n), t) == Pruned(n, t)
    decreases n
  {
    var m := NormNode(n);
    forall k | k in n.entries && (t.full || k in t.children)
      ensures Pruned(m, t).entries[k] == Pruned(n, t).entries[k]
    {
      assert m.entries[k] == NormEntry(n.entries[k]);
      if n.entries[k].node.Dir? { PruneNorm(n.entries[k].node, Child(t, k)); }
    }
    forall k | k in t.children && k in n.entries && n.entries[k].node.Dir?
      ensures Prunable(m.entries[k].node, t.children[k]) <==> Prunable(n.entries[k].node, t.children[k])
    {
      PruneNorm(n.entries[k].node, t.children[k]);
    }
    assert Pruned(m, t).entries == Pruned(n, t).entries;
  }

  lemma {:induction false} PruneAgain(n: Node, t: Trie)
    requires n.Dir? && Prunable(n, t)
    ensures Prunable(Pruned(n, t), t)
    ensures Pruned(Pruned(n, t), t) == Pruned(n, t)
    decreases n
  {
    var m := Pruned(n, t);
    forall k | k in n.entries && (t.full || k in t.children) && n.entries[k].node.Dir? {
      PruneAgain(n.entries[k].node, Child(t, k));
    }
    assert Pruned(m, t).entries == m.entries;
  }

  /** Normalising before pruning, or pruning a second time, changes nothing. */
  lemma PruneStable(root: Node, keep: seq<Path>)
    requires root.Dir?
    ensures PruneSpec(NormNode(root), keep) == PruneSpec(root, keep)
    ensures PruneSpec(root, keep).Some? ==>
              PruneSpec(PruneSpec(root, keep).value, keep) == PruneSpec(root, keep)
  {
    var t := AddAll(EMPTY, keep);
    PruneNorm(root, t);
    if Prunable(root, t) { PruneAgain(root, t); }
  }

  // ---- what the pruned tree depends on ----

  /** Two trees agree on the cover: same entries, up to uid, gid and mtime, on every path
      that lies on, below or above a keep path. */
  ghost predicate Agree(a: Node, b: Node, keep: set<Path>) {
    forall x :: Kept(keep, x) ==> Alike(ViewAt(a, x), ViewAt(b, x))
  }

  /** Trees that agree on the cover prune alike, including whether pruning fails, whatever
      differs elsewhere; and trees that prune alike agree on the cover. */
  lemma PruneSameIffAgree(a: Node, b: Node, keep: seq<Path>)
    requires a.Dir? && b.Dir?
    ensures Agree(a, b, ToSet(keep)) ==> PruneSpec(a, keep) == PruneSpec(b, keep)
    ensures PruneSpec(a, keep).Some? && PruneSpec(a, keep) == PruneSpec(b, keep) ==> Agree(a, b, ToSet(keep))
  {
    if Agree(a, b, ToSet(keep)) {
      PruneSucceedsIff(a, keep);
      PruneSucceedsIff(b, keep);
      forall c | Minimal(keep, c) ensures Lookup(a, c).Some? <==> Lookup(b, c).Some? {
        assert c in ToSet(keep) && c <= c;
        assert Kept(ToSet(keep), c);
        assert Alike(ViewAt(a, c), ViewAt(b, c));
      }
      if PruneSpec(a, keep).Some? {
        var p, q := PruneSpec(a, keep).value, PruneSpec(b, keep).value;
        forall x: Path ensures ViewAt(p, x) == ViewAt(q, x) {
          PruneExact(a, keep, x);
          PruneExact(b, keep, x);
          NormMeans(ViewAt(a, x), ViewAt(b, x));
        }
        TreeExtensionality(p, q);
      }
    }
    if PruneSpec(a, keep).Some? && PruneSpec(a, keep) == PruneSpec(b, keep) {
      forall x | Kept(ToSet(keep), x) ensures Alike(ViewAt(a, x), ViewAt(b, x)) {
        PruneExact(a, keep, x);
        PruneExact(b, keep, x);
        NormMeans(ViewAt(a, x), ViewAt(b, x));
      }
    }
  }
}
