/** KP, the identity of a pinned build: Derive of cover/cover.go and the KP tree
    of amber/kptree.go. The key of a tree is collision free, so KP is modelled by
    the tree {job.cbor, platform, v, src/} that it names.
 */
module Identity {
  import opened Wrappers
  import opened FsTree
  import opened Prune
  import opened PruneLaws
  import opened Overlay

  const GENERATED_MAX_BYTES: nat := 0x10_0000  // 1 MiB

  const KP_VERSION: nat := 2

  /** The fields of a pinned blob that the derivation reads. */
  datatype Pinned = Pinned(closure: seq<seq<Name>>, sources: seq<seq<Name>>, generated: map<seq<Name>, Content>)

  datatype KP = KP(job: seq<int>, platform: string, v: nat, src: Node)

  ghost function GeneratedSize(g: map<seq<Name>, Content>): nat
    decreases |g|
  {
    if g == map[] then 0
    else var k :| k in g; |g[k]| + GeneratedSize(g - {k})
  }

  lemma {:induction false} SizeRemove(g: map<seq<Name>, Content>, k: seq<Name>)
    requires k in g
    ensures GeneratedSize(g) == |g[k]| + GeneratedSize(g - {k})
    decreases |g|
  {
    var m :| m in g && GeneratedSize(g) == |g[m]| + GeneratedSize(g - {m});
    if m != k {
      SizeRemove(g - {m}, k);
      SizeRemove(g - {k}, m);
      assert g - {m} - {k} == g - {k} - {m};
    }
  }

  /** The lengths of the files listed, added up. */
  function Lengths(g: map<seq<Name>, Content>, names: seq<seq<Name>>): nat
    requires forall n :: n in names ==> n in g
  {
    if names == [] then 0 else |g[names[0]]| + Lengths(g, names[1..])
  }

  /** In whatever order the files are listed, their lengths add up to the size. */
  lemma {:induction false} SizeIsSum(g: map<seq<Name>, Content>, names: seq<seq<Name>>)
    requires forall n :: n in names <==> n in g
    requires forall i, j :: 0 <= i < j < |names| ==> names[i] != names[j]
    ensures GeneratedSize(g) == Lengths(g, names)
    decreases |names|
  {
    if names == [] {
      assert g == map[];
    } else {
      var k, rest := names[0], names[1..];
      assert forall n :: n in names <==> n == k || n in rest;
      assert k !in rest;
      SizeRemove(g, k);
      SizeIsSum(g - {k}, rest);
      LengthsOfRest(g, k, rest);
    }
  }

  lemma {:induction false} LengthsOfRest(g: map<seq<Name>, Content>, k: seq<Name>, names: seq<seq<Name>>)
    requires k !in names && forall n :: n in names ==> n in g
    ensures Lengths(g - {k}, names) == Lengths(g, names)
    decreases |names|
  {
    if names != [] { LengthsOfRest(g, k, names[1..]); }
  }

  method SumGenerated(g: map<seq<Name>, Content>) returns (total: nat)
    ensures total == GeneratedSize(g)
  {
    total := 0;
    var rest := g;
    while rest != map[]
      invariant total + GeneratedSize(rest) == GeneratedSize(g)
      decreases |rest|
    {
      var k :| k in rest;
      SizeRemove(rest, k);
      total := total + |rest[k]|;
      rest := rest - {k};
    }
  }

  /** The keep list of a pinned blob; None when it declares no cover of its own. */
  function KeepOf(p: Pinned): Option<seq<Path>> {
    if p.closure != [] then Some(CleanAll(p.closure))
    else if p.sources != [] then Some(CleanAll(p.sources))
    else None
  }

  /** The covered source tree before the overlay; None is an error. */
  ghost function CoveredTree(ctx: Node, p: Pinned): Option<Node>
    requires ctx.Dir?
  {
    if GeneratedSize(p.generated) > 1048576 || (p.closure != [] && p.sources != []) then None
    else match KeepOf(p)
         case Some(keep) => PruneSpec(ctx, keep)
         case None => Some(NormNode(ctx))
  }

  /** r is what deriving from this context and pinned blob yields. */
  ghost predicate Derives(ctx: Node, job: seq<int>, p: Pinned, platform: string, r: Option<KP>)
    requires ctx.Dir?
  {
    match CoveredTree(ctx, p)
    case None => r.None?
    case Some(c) =>
      && (r.Some? <==> Compatible(p.generated.Keys) && !Collides(c, p.generated.Keys))
      && (r.Some? ==>
            && r.value.job == job && r.value.platform == platform && r.value.v == 2
            && r.value.src.Dir?
            && forall x :: ReadsAs(c, p.generated, r.value.src, x))
  }

  method Derive(ctx: Node, job: seq<int>, p: Pinned, platform: string) returns (r: Option<KP>)
    requires ctx.Dir?
    ensures Derives(ctx, job, p, platform, r)
  {
    var total := SumGenerated(p.generated);
    if total > GENERATED_MAX_BYTES { return None; }
    if p.closure != [] && p.sources != [] { return None; }
    var covered: Option<Node>;
    if p.closure != [] {
      covered := PruneTree(ctx, p.closure);
    } else if p.sources != [] {
      covered := PruneTree(ctx, p.sources);
    } else {
      var n := NormalizeTree(ctx);
      covered := Some(n);
    }
    if covered.None? { return None; }
    var src := covered;
    if p.generated != map[] {
      src := OverlayTree(covered.value, p.generated);
      if src.None? { return None; }
    }
    r := Some(KP(job, platform, KP_VERSION, src.value));
  }

  /** x lies at, below or above the path that `raw` spells. */
  predicate Near(raw: seq<Name>, x: Path) { CleanRooted([], raw) <= x || x <= CleanRooted([], raw) }

  /** The pinned blob covers x: it is near a path of the closure or of the sources, or the blob declares
      neither. */
  ghost predicate InCover(p: Pinned, x: Path) {
    || (p.closure == [] && p.sources == [])
    || (exists raw :: raw in p.closure && Near(raw, x))
    || (p.closure == [] && exists raw :: raw in p.sources && Near(raw, x))
  }

  lemma KeptRaw(raws: seq<seq<Name>>, x: Path)
    ensures Kept(ToSet(CleanAll(raws)), x) <==> exists raw :: raw in raws && Near(raw, x)
  {
    var clean := CleanAll(raws);
    if c :| c in ToSet(clean) && (c <= x || x <= c) {
      var i :| 0 <= i < |clean| && clean[i] == c;
      assert raws[i] in raws && Near(raws[i], x);
    }
    if raw :| raw in raws && Near(raw, x) {
      var i :| 0 <= i < |raws| && raws[i] == raw;
      assert clean[i] in clean && clean[i] in ToSet(clean);
    }
  }

  lemma InCoverMeans(p: Pinned, x: Path)
    ensures InCover(p, x) <==> match KeepOf(p) { case Some(keep) => Kept(ToSet(keep), x) case None => true }
  {
    KeptRaw(p.closure, x);
    KeptRaw(p.sources, x);
  }

  /** The two contexts agree, up to uid, gid and mtime, on all that the pinned blob covers. */
  ghost predicate SameCover(a: Node, b: Node, p: Pinned) {
    forall x :: InCover(p, x) ==> Alike(ViewAt(a, x), ViewAt(b, x))
  }

  /** A generated file stands at x, or below it. */
  ghost predicate Overlaid(p: Pinned, x: Path) {
    IsFile(p.generated.Keys, x) || (x != [] && IsAbove(p.generated.Keys, x))
  }

  /** The covered tree, path by path. */
  lemma CoveredView(ctx: Node, p: Pinned, x: Path)
    requires ctx.Dir? && CoveredTree(ctx, p).Some?
    ensures if InCover(p, x) then Copied(ViewAt(ctx, x), ViewAt(CoveredTree(ctx, p).value, x))
            else ViewAt(CoveredTree(ctx, p).value, x).None?
  {
    InCoverMeans(p, x);
    match KeepOf(p)
    case Some(keep) => PruneExact(ctx, keep, x);
    case None => NormNodeView(ctx, x);
  }

  lemma NormNodeView(n: Node, x: Path)
    requires n.Dir?
    ensures Copied(ViewAt(n, x), ViewAt(NormNode(n), x))
  {
    NormLookup(n, x);
  }

  /** Copies are equal exactly if what they were made of is alike. */
  lemma CopiesAlike(a: Option<View>, b: Option<View>, a': Option<View>, b': Option<View>)
    requires Copied(a, a') && Copied(b, b')
    ensures a' == b' <==> Alike(a, b)
  {
    NormMeans(a, a');
    NormMeans(b, b');
    NormMeans(a, b);
  }

  lemma SameCoverSameTree(a: Node, b: Node, p: Pinned)
    requires a.Dir? && b.Dir? && SameCover(a, b, p)
    ensures CoveredTree(a, p) == CoveredTree(b, p)
  {
    match KeepOf(p)
    case Some(keep) =>
      forall x | Kept(ToSet(keep), x) ensures Alike(ViewAt(a, x), ViewAt(b, x)) { InCoverMeans(p, x); }
      PruneSameIffAgree(a, b, keep);
    case None =>
      forall x: Path ensures ViewAt(NormNode(a), x) == ViewAt(NormNode(b), x) {
        InCoverMeans(p, x);
        NormNodeView(a, x);
        NormNodeView(b, x);
        CopiesAlike(ViewAt(a, x), ViewAt(b, x), ViewAt(NormNode(a), x), ViewAt(NormNode(b), x));
      }
      TreeExtensionality(NormNode(a), NormNode(b));
  }

  /** Contexts that agree on the cover derive the same KP, or fail alike, whatever differs
      elsewhere: edits outside the cover cannot change the identity of a build. */
  lemma IdentityIgnoresUncovered(a: Node, b: Node, job: seq<int>, p: Pinned, platform: string, r: Option<KP>,
                                 r': Option<KP>)
    requires a.Dir? && b.Dir? && SameCover(a, b, p)
    requires Derives(a, job, p, platform, r) && Derives(b, job, p, platform, r')
    ensures r == r'
  {
    SameCoverSameTree(a, b, p);
    if r.Some? {
      OverlayUnique(CoveredTree(a, p).value, p.generated, r.value.src, r'.value.src);
    }
  }

  /** And nothing in the cover is lost: equal KPs mean equal pinned bytes, equal platform, and
      contexts that agree on the whole cover, save where generated files were laid over it. */
  lemma IdentitySeesCover(a: Node, b: Node, job: seq<int>, job': seq<int>, p: Pinned, platform: string,
                          platform': string, kp: KP)
    requires a.Dir? && b.Dir?
    requires Derives(a, job, p, platform, Some(kp)) && Derives(b, job', p, platform', Some(kp))
    ensures job == job' && platform == platform'
    ensures forall x :: InCover(p, x) && !Overlaid(p, x) ==> Alike(ViewAt(a, x), ViewAt(b, x))
    ensures p.generated == map[] ==> SameCover(a, b, p)
  {
    var c, d := CoveredTree(a, p).value, CoveredTree(b, p).value;
    forall x | InCover(p, x) && !Overlaid(p, x) ensures Alike(ViewAt(a, x), ViewAt(b, x)) {
      assert ReadsAs(c, p.generated, kp.src, x) && ReadsAs(d, p.generated, kp.src, x);
      CoveredView(a, p, x);
      CoveredView(b, p, x);
      CopiesAlike(ViewAt(a, x), ViewAt(b, x), ViewAt(c, x), ViewAt(d, x));
    }
  }

  /** Deriving from the already normalised context, or from the already covered one, changes nothing. */
  lemma IdentityStable(ctx: Node, p: Pinned)
    requires ctx.Dir?
    ensures CoveredTree(NormNode(ctx), p) == CoveredTree(ctx, p)
    ensures CoveredTree(ctx, p).Some? ==> CoveredTree(CoveredTree(ctx, p).value, p) == CoveredTree(ctx, p)
  {
    match KeepOf(p)
    case Some(keep) => PruneStable(ctx, keep);
    case None => NormTwice(ctx);
  }

  lemma {:induction false} NormTwice(n: Node)
    ensures NormNode(NormNode(n)) == NormNode(n)
    decreases n
  {
    if n.Dir? {
      forall k | k in n.entries ensures NormNode(NormNode(n.entries[k].node)) == NormNode(n.entries[k].node) {
        NormTwice(n.entries[k].node);
      }
      assert NormNode(NormNode(n)).entries == NormNode(n).entries;
    }
  }
}
