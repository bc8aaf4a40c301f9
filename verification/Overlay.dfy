/** OverlayTree: graft generated files onto a tree (amber/overlay.go).

    The files arrive in a map, so the order in which they are inserted is
    arbitrary; the contracts below do not mention it.
 */
module Overlay {
  import opened Wrappers
  import opened FsTree
  import opened Prune

  type Content = seq<int>

  const FILE_META := Meta(0x124, 0, 0, COVER_EPOCH_NANO, map[])  // 0444
  const DIR_META := Meta(0x16D, 0, 0, COVER_EPOCH_NANO, map[])   // 0555

  // ---- the generated-files trie ----

  datatype Grafts = Leaf(content: Content) | Branch(children: map<Name, Grafts>)

  const NO_GRAFTS: Grafts := Branch(map[])

  /** Inserts one generated file; None when it meets another generated entry. */
  function Insert(t: Grafts, p: Path, c: Content): Option<Grafts>
    requires p != []
    decreases |p|
  {
    if t.Leaf? then None
    else if |p| == 1 then
      if p[0] in t.children then None else Some(Branch(t.children[p[0] := Leaf(c)]))
    else
      match Insert(if p[0] in t.children then t.children[p[0]] else NO_GRAFTS, p[1..], c)
      case None => None
      case Some(sub) => Some(Branch(t.children[p[0] := sub]))
  }

  function At(t: Grafts, x: Path): Option<Grafts>
    decreases |x|
  {
    if x == [] then Some(t)
    else if t.Leaf? || x[0] !in t.children then None
    else At(t.children[x[0]], x[1..])
  }

  /** Insertion succeeds exactly when no generated entry lies at, above or below the path,
      and then adds the file and the directories above it. */
  lemma {:induction false} InsertMeaning(t: Grafts, p: Path, c: Content, x: Path)
    requires p != []
    ensures Insert(t, p, c).Some? <==>
            At(t, p).None? && forall i :: 0 <= i < |p| ==> At(t, p[..i]).None? || At(t, p[..i]).value.Branch?
    ensures Insert(t, p, c).Some? ==>
              var a := At(Insert(t, p, c).value, x);
              && (a.Some? && a.value.Leaf? <==> x == p || (At(t, x).Some? && At(t, x).value.Leaf?))
              && (x == p ==> a == Some(Leaf(c)))
              && (x != p && At(t, x).Some? && At(t, x).value.Leaf? ==> a == At(t, x))
              && (a.Some? && a.value.Branch? <==> x < p || (At(t, x).Some? && At(t, x).value.Branch?))
    decreases |p|
  {
    assert p[..0] == [] && At(t, p[..0]) == Some(t);
    if t.Branch? {
      var sub := if p[0] in t.children then t.children[p[0]] else NO_GRAFTS;
      forall i | 1 <= i <= |p| ensures At(t, p[..i]) == if p[0] in t.children then At(sub, p[1..][..i - 1]) else None {
        assert p[..i][1..] == p[1..][..i - 1];
      }
      assert p[..|p|] == p && p[1..][..|p| - 1] == p[1..];
      if |p| == 1 {
        assert p == [p[0]];
      } else {
        InsertMeaning(sub, p[1..], c, if x == [] then [] else x[1..]);
        if p[0] in t.children {
          forall i | 0 <= i < |p[1..]| ensures At(sub, p[1..][..i]) == At(t, p[..i + 1]) {}
        } else {
          forall i | 0 <= i < |p[1..]| ensures At(sub, p[1..][..i]).None? || At(sub, p[1..][..i]).value.Branch? {}
        }
      }
      if x != [] && x[0] == p[0] {
        assert x == [x[0]] + x[1..] && p == [p[0]] + p[1..];
        assert x == p <==> x[1..] == p[1..];
        assert x < p <==> x[1..] < p[1..];
      }
    }
  }

  // ---- the set of generated files, whatever the insertion order ----

  function Clean(raw: seq<Name>): Path { CleanRooted([], raw) }

  /** No generated path is the root, and no two coincide or lie one above the other. */
  ghost predicate Compatible(some: set<seq<Name>>) {
    && (forall r :: r in some ==> Clean(r) != [])
    && (forall a, b :: a in some && b in some && a != b ==> !(Clean(a) <= Clean(b)))
  }

  ghost predicate IsFile(some: set<seq<Name>>, x: Path) { exists r :: r in some && Clean(r) == x }

  ghost predicate IsAbove(some: set<seq<Name>>, x: Path) { exists r :: r in some && x < Clean(r) }

  /** The trie holds exactly the files of `some`. */
  ghost predicate Holds(t: Grafts, files: map<seq<Name>, Content>, some: set<seq<Name>>)
    requires some <= files.Keys
  {
    && t.Branch?
    && (forall r :: r in some ==> At(t, Clean(r)) == Some(Leaf(files[r])))
    && (forall x :: At(t, x).Some? && At(t, x).value.Leaf? ==> IsFile(some, x))
    && (forall x :: x != [] ==> (At(t, x).Some? && At(t, x).value.Branch? <==> IsAbove(some, x)))
  }

  /** Insertion succeeds exactly when the new path is compatible with the files already there. */
  lemma InsertIffCompatible(t: Grafts, files: map<seq<Name>, Content>, some: set<seq<Name>>, raw: seq<Name>)
    requires some <= files.Keys && raw in files && raw !in some && Clean(raw) != []
    requires Compatible(some) && Holds(t, files, some)
    ensures Insert(t, Clean(raw), files[raw]).Some? <==> Compatible(some + {raw})
  {
    var p := Clean(raw);
    var ins := Insert(t, p, files[raw]);
    InsertMeaning(t, p, files[raw], p);
    if ins.Some? {
      forall r | r in some ensures !(Clean(r) <= p) && !(p <= Clean(r)) {
        assert At(t, Clean(r)) == Some(Leaf(files[r]));
        if |Clean(r)| < |p| { assert p[..|Clean(r)|] != Clean(r); } else { assert Clean(r) != p; }
        assert p <= Clean(r) ==> p == Clean(r) || p < Clean(r);
        assert !IsAbove(some, p);
      }
    } else if Compatible(some + {raw}) {
      assert raw in some + {raw};
      forall r | r in some ensures !(Clean(r) <= p) && !(p <= Clean(r)) { assert r in some + {raw}; }
      assert !IsFile(some, p) && !IsAbove(some, p);
      forall i | 0 <= i < |p| ensures At(t, p[..i]).None? || At(t, p[..i]).value.Branch? {
        assert p[..i] <= p;
        assert !IsFile(some, p[..i]);
      }
    }
  }

  lemma InsertHolds(t: Grafts, files: map<seq<Name>, Content>, some: set<seq<Name>>, raw: seq<Name>)
    requires some <= files.Keys && raw in files && raw !in some && Clean(raw) != []
    requires Compatible(some + {raw}) && Holds(t, files, some) && Insert(t, Clean(raw), files[raw]).Some?
    ensures Holds(Insert(t, Clean(raw), files[raw]).value, files, some + {raw})
  {
    var p := Clean(raw);
    var more := some + {raw};
    var t' := Insert(t, p, files[raw]).value;
    forall x
      ensures At(t', x).Some? && At(t', x).value.Leaf? ==> IsFile(more, x)
      ensures x != [] ==> (At(t', x).Some? && At(t', x).value.Branch? <==> IsAbove(more, x))
    {
      InsertMeaning(t, p, files[raw], x);
      assert raw in more && forall r :: r in some ==> r in more;
      assert IsFile(some, x) ==> IsFile(more, x);
      assert IsAbove(more, x) <==> IsAbove(some, x) || x < p;
    }
    forall r | r in more ensures At(t', Clean(r)) == Some(Leaf(files[r])) {
      InsertMeaning(t, p, files[raw], Clean(r));
      if r != raw { assert raw in more && !(Clean(r) <= p); }
    }
  }

  // ---- grafting the trie onto a directory ----

  /** No file replaces a directory and no path descends through a non-directory. */
  predicate Fits(n: Node, t: Grafts)
    requires n.Dir? && t.Branch?
    decreases t
  {
    forall k :: k in t.children && k in n.entries ==>
      (if t.children[k].Leaf? then !n.entries[k].node.Dir?
       else n.entries[k].node.Dir? && Fits(n.entries[k].node, t.children[k]))
  }

  /** A directory that exists only in the overlay. */
  function NewDir(t: Grafts): (r: Node)
    requires t.Branch?
    ensures r.Dir?
    decreases t
  {
    Dir(map k | k in t.children ::
      if t.children[k].Leaf? then Entry(FILE_META, File(t.children[k].content))
      else Entry(DIR_META, NewDir(t.children[k])))
  }

  function Grafted(n: Node, t: Grafts): (r: Node)
    requires n.Dir? && t.Branch? && Fits(n, t)
    ensures r.Dir?
    decreases t
  {
    Dir(map k | k in n.entries.Keys + t.children.Keys ::
      if k !in t.children then n.entries[k]
      else if t.children[k].Leaf? then Entry(FILE_META, File(t.children[k].content))
      else if k in n.entries then Entry(n.entries[k].meta, Grafted(n.entries[k].node, t.children[k]))
      else Entry(DIR_META, NewDir(t.children[k])))
  }

  method EmitNewDir(t: Grafts) returns (r: Node)
    requires t.Branch?
    ensures r == NewDir(t)
    decreases t
  {
    var todo, out := t.children.Keys, map[];
    while todo != {}
      invariant todo <= t.children.Keys
      invariant out.Keys == t.children.Keys - todo
      invariant forall k :: k in out ==> out[k] == NewDir(t).entries[k]
      decreases todo
    {
      var name :| name in todo;
      todo := todo - {name};
      var child := t.children[name];
      if child.Leaf? {
        out := out[name := Entry(FILE_META, File(child.content))];
      } else {
        var sub := EmitNewDir(child);
        out := out[name := Entry(DIR_META, sub)];
      }
    }
    assert out == NewDir(t).entries;
    return Dir(out);
  }

  method EmitDir(n: Node, t: Grafts) returns (r: Option<Node>)
    requires n.Dir? && t.Branch?
    ensures r.Some? <==> Fits(n, t)
    ensures r.Some? ==> r.value == Grafted(n, t)
    decreases t
  {
    var todo: set<Name> := n.entries.Keys + t.children.Keys;
    var out: map<Name, Entry> := map[];
    while todo != {}
      invariant todo <= n.entries.Keys + t.children.Keys
      invariant out.Keys == n.entries.Keys + t.children.Keys - todo
      invariant forall k :: k in t.children && k in n.entries && k !in todo ==>
        (if t.children[k].Leaf? then !n.entries[k].node.Dir?
         else n.entries[k].node.Dir? && Fits(n.entries[k].node, t.children[k]))
      invariant Fits(n, t) ==> forall k :: k in out ==> out[k] == Grafted(n, t).entries[k]
      decreases todo
    {
      var name :| name in todo;
      todo := todo - {name};
      var e;
      if name !in t.children {
        e := n.entries[name];
      } else if t.children[name].Leaf? {
        if name in n.entries && n.entries[name].node.Dir? { return None; }
        e := Entry(FILE_META, File(t.children[name].content));
      } else if name in n.entries {
        if !n.entries[name].node.Dir? { return None; }
        var sub := EmitDir(n.entries[name].node, t.children[name]);
        if sub.None? { return None; }
        e := Entry(n.entries[name].meta, sub.value);
      } else {
        var sub := EmitNewDir(t.children[name]);
        e := Entry(DIR_META, sub);
      }
      out := out[name := e];
    }
    assert out == Grafted(n, t).entries;
    return Some(Dir(out));
  }

  /** Fits, path by path. */
  ghost predicate FitsAt(n: Node, t: Grafts, x: Path) {
    At(t, x).Some? && Lookup(n, x).Some? ==> (At(t, x).value.Leaf? <==> !Lookup(n, x).value.node.Dir?)
  }

  lemma {:induction false} FitsMeansAt(n: Node, t: Grafts, x: Path)
    requires n.Dir? && t.Branch? && Fits(n, t)
    ensures FitsAt(n, t, x)
    decreases |x|
  {
    if x != [] && x[0] in t.children && x[0] in n.entries {
      if |x| == 1 { assert x[1..] == []; }
      if |x| > 1 && t.children[x[0]].Branch? { FitsMeansAt(n.entries[x[0]].node, t.children[x[0]], x[1..]); }
    }
  }

  lemma {:induction false} AtMeansFits(n: Node, t: Grafts)
    requires n.Dir? && t.Branch? && forall x :: FitsAt(n, t, x)
    ensures Fits(n, t)
    decreases t
  {
    forall k | k in t.children && k in n.entries
      ensures if t.children[k].Leaf? then !n.entries[k].node.Dir?
              else n.entries[k].node.Dir? && Fits(n.entries[k].node, t.children[k])
    {
      assert [k][1..] == [] && At(t, [k]) == Some(t.children[k]) && FitsAt(n, t, [k]);
      if t.children[k].Branch? {
        forall x: Path ensures FitsAt(n.entries[k].node, t.children[k], x) {
          if x != [] {
            assert ([k] + x)[1..] == x && At(t, [k] + x) == At(t.children[k], x);
            assert FitsAt(n, t, [k] + x);
          }
        }
        AtMeansFits(n.entries[k].node, t.children[k]);
      }
    }
  }

  lemma {:induction false} NewDirView(t: Grafts, x: Path)
    requires t.Branch? && x != []
    ensures ViewAt(NewDir(t), x) ==
            match At(t, x)
            case None => None
            case Some(Leaf(c)) => Some(FileView(FILE_META, c))
            case Some(Branch(_)) => Some(DirView(DIR_META))
    decreases |x|
  {
    if x[0] in t.children {
      if |x| == 1 { assert x[1..] == [] && At(t.children[x[0]], []) == Some(t.children[x[0]]); }
      if |x| > 1 {
        assert Lookup(NewDir(t), x) == Lookup(NewDir(t).entries[x[0]].node, x[1..]);
        if t.children[x[0]].Branch? { NewDirView(t.children[x[0]], x[1..]); }
      }
    }
  }

  lemma {:induction false} GraftedView(n: Node, t: Grafts, x: Path)
    requires n.Dir? && t.Branch? && Fits(n, t) && x != []
    ensures ViewAt(Grafted(n, t), x) ==
            match At(t, x)
            case None => ViewAt(n, x)
            case Some(Leaf(c)) => Some(FileView(FILE_META, c))
            case Some(Branch(_)) => if ViewAt(n, x).Some? then ViewAt(n, x) else Some(DirView(DIR_META))
    decreases |x|
  {
    if x[0] in t.children {
      var c := t.children[x[0]];
      if |x| == 1 { assert x[1..] == [] && At(c, []) == Some(c); }
      if |x| > 1 {
        assert Lookup(Grafted(n, t), x) == Lookup(Grafted(n, t).entries[x[0]].node, x[1..]);
        if c.Leaf? {
          if x[0] in n.entries {
            assert !n.entries[x[0]].node.Dir? && Lookup(n, x) == Lookup(n.entries[x[0]].node, x[1..]);
          }
        } else if x[0] in n.entries {
          GraftedView(n.entries[x[0]].node, c, x[1..]);
        } else {
          NewDirView(c, x[1..]);
        }
      }
    }
  }

  // ---- OverlayTree ----

  /** Some generated file lands on a directory, or descends through something that is not one. */
  ghost predicate Collides(root: Node, files: set<seq<Name>>) {
    || (exists r :: r in files && DirAt(root, Clean(r)).Some?)
    || (exists x :: x != [] && IsAbove(files, x) && Lookup(root, x).Some? && !Lookup(root, x).value.node.Dir?)
  }

  /** The result reads as the generated file at each declared path, as the old tree elsewhere,
      with a synthetic directory wherever one had to be created. Both belong to root and date from the
      first of January 1980; the file has mode 0444, the directory 0555. */
  ghost predicate ReadsAs(root: Node, files: map<seq<Name>, Content>, r: Node, x: Path) {
    && (forall f :: f in files && Clean(f) == x ==>
          ViewAt(r, x) == Some(FileView(Meta(292, 0, 0, 315532800000000000, map[]), files[f])))
    && (!IsFile(files.Keys, x) && x != [] && IsAbove(files.Keys, x) && ViewAt(root, x).None? ==>
          ViewAt(r, x) == Some(DirView(Meta(365, 0, 0, 315532800000000000, map[]))))
    && (!IsFile(files.Keys, x) && (x == [] || !IsAbove(files.Keys, x) || ViewAt(root, x).Some?) ==>
          ViewAt(r, x) == ViewAt(root, x))
  }

  method OverlayTree(root: Node, files: map<seq<Name>, Content>) returns (r: Option<Node>)
    requires root.Dir?
    ensures r.Some? <==> Compatible(files.Keys) && !Collides(root, files.Keys)
    ensures r.Some? ==> r.value.Dir? && forall x :: ReadsAs(root, files, r.value, x)
  {
    if files == map[] { return Some(root); }
    var trie := NO_GRAFTS;
    var todo := files.Keys;
    while todo != {}
      invariant todo <= files.Keys
      invariant Compatible(files.Keys - todo) && Holds(trie, files, files.Keys - todo)
      decreases todo
    {
      var raw :| raw in todo;
      var p := Clean(raw);
      if p == [] { return None; }
      assert files.Keys - todo + {raw} == files.Keys - (todo - {raw});
      InsertIffCompatible(trie, files, files.Keys - todo, raw);
      var t := Insert(trie, p, files[raw]);
      if t.None? { return None; }
      InsertHolds(trie, files, files.Keys - todo, raw);
      trie, todo := t.value, todo - {raw};
    }
    assert files.Keys - todo == files.Keys;
    CollidesIsMisfit(root, trie, files);
    r := EmitDir(root, trie);
    if r.Some? {
      forall x ensures ReadsAs(root, files, r.value, x) { GraftedReads(root, trie, files, x); }
    }
  }

  lemma CollidesIsMisfit(root: Node, t: Grafts, files: map<seq<Name>, Content>)
    requires root.Dir? && Compatible(files.Keys) && Holds(t, files, files.Keys)
    ensures Fits(root, t) <==> !Collides(root, files.Keys)
  {
    if Fits(root, t) {
      forall x ensures FitsAt(root, t, x) { FitsMeansAt(root, t, x); }
      forall f | f in files ensures DirAt(root, Clean(f)).None? { assert FitsAt(root, t, Clean(f)); }
      forall x | x != [] && IsAbove(files.Keys, x) && Lookup(root, x).Some? ensures Lookup(root, x).value.node.Dir? {
        assert FitsAt(root, t, x);
      }
    } else if !Collides(root, files.Keys) {
      forall x: Path ensures FitsAt(root, t, x) {
        if x != [] && At(t, x).Some? && At(t, x).value.Branch? { assert IsAbove(files.Keys, x); }
      }
      AtMeansFits(root, t);
    }
  }

  lemma GraftedReads(root: Node, t: Grafts, files: map<seq<Name>, Content>, x: Path)
    requires root.Dir? && Compatible(files.Keys) && Holds(t, files, files.Keys) && Fits(root, t)
    ensures ReadsAs(root, files, Grafted(root, t), x)
  {
    if x != [] {
      GraftedView(root, t, x);
      FitsMeansAt(root, t, x);
    }
  }

  /** The two conditions above pin the result down, so the order in which the map of files
      was iterated shows neither in the result nor in whether there is one. */
  lemma OverlayUnique(root: Node, files: map<seq<Name>, Content>, a: Node, b: Node)
    requires a.Dir? && b.Dir?
    requires forall x :: ReadsAs(root, files, a, x)
    requires forall x :: ReadsAs(root, files, b, x)
    ensures a == b
  {
    forall x: Path ensures ViewAt(a, x) == ViewAt(b, x) {
      assert ReadsAs(root, files, a, x) && ReadsAs(root, files, b, x);
      if IsFile(files.Keys, x) {
        var f :| f in files.Keys && Clean(f) == x;
        assert f in files;
      }
    }
    TreeExtensionality(a, b);
  }
}
