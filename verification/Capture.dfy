/** Committing the upper directory as one more layer and merging offline gives the file system
    the live mount shows. */
module Capture {
  import opened Wrappers
  import opened Paths
  import opened Entries
  import opened TreeData
  import opened LayerMerge
  import opened MergedTree
  import opened LowerView
  import opened UnionState

  /** One layer entry records one entry of the upper directory: same kind, link, bytes and permissions. */
  predicate Records(full: BlockStore, f: FileEntry, e: UpperEntry) {
    && SeeLower(EntryOf(full, EntryNode(f))) == SeeUpper(e)
    && (f.kind == DirKind <==> e.UDir?) && (e.UFile? ==> f.mode == e.perm)
  }

  /** The layer lists the upper directory: every entry, markers among them, in any order. */
  ghost predicate Captures(full: BlockStore, layer: Layer, upper: map<Path, UpperEntry>) {
    && (forall f :: f in layer ==>
          f.path in upper && f.path != [] && (!IsMarker(f.path) ==> Records(full, f, upper[f.path])))
    && (forall p :: p in upper && p != [] ==> exists f :: f in layer && f.path == p)
  }

  /** The mount's lower tree is what the files m merge to. */
  ghost predicate MountedOn(full: BlockStore, s: State, m: FileMap) {
    && ConflictFree(m) && [] !in m
    && s.lower == LowerOf(full, TreeOf(m))
  }

  // ---------------------------------------------------------------- what the captured layer lists and hides

  lemma MountedFilesAreLower(full: BlockStore, s: State, m: FileMap, q: Path)
    requires MountedOn(full, s, m)
    ensures q in s.lower <==> q in Ancestry(m)
    ensures q in m ==> q in s.lower && s.lower[q] == EntryOf(full, EntryNode(m[q]))
    ensures q in s.lower && q !in m ==> s.lower[q] == LDir
  {
    AncestryAt(m, q);
  }

  lemma CaptureLists(full: BlockStore, s: State, cap: Layer, q: Path)
    requires s.Inv() && Captures(full, cap, s.upper)
    ensures Lists(cap, q) <==> q in s.upper && q != [] && !IsMarker(q)
    ensures Lists(cap, q) ==> Records(full, Listing(cap, q), s.upper[q])
  {
    if q in s.upper && q != [] && !IsMarker(q) {
      var f :| f in cap && f.path == q;
      var i :| 0 <= i < |cap| && cap[i] == f;
      assert ListsAt(cap, i, q);
    }
  }

  /** In a layer the marker of a plain path is a whiteout of that path and what lies below it. */
  lemma MarkerIsWhiteout(p: Path, q: Path)
    requires PlainPath(p) && p != []
    ensures PathHides(Marker(p), q) <==> p <= q
  {
    TargetOfMarker(p);
    PlainParent(p);
    StripMarkerName(Base(p));
    OpaqueIsNoWhiteout();
    assert p == Parent(p) + [Base(p)];
    ProperIsResolved(Parent(p));
    ProperIsResolved(p);
    assert Parent(["."] + [Base(p)]) == ["."] && Resolve(["."]) == [];
    assert WhiteoutTarget(Marker(p)) == p;
  }

  /** A marker of the upper directory removes exactly the path it hides. */
  lemma CaptureHides(full: BlockStore, s: State, cap: Layer, q: Path)
    requires s.Inv() && Captures(full, cap, s.upper) && q in s.lower
    ensures Hides(cap, q) <==> s.Hidden(q)
  {
    if f :| f in cap && HiddenBy(f, q) {
      var t := Target(f.path);
      MarkerOfTarget(f.path);
      assert f.path in s.upper && t in s.lower && PlainPath(t);
      MarkerIsWhiteout(t, q);
      if t != q {
        HiddenHasNoKids(s, t);
        NothingLowerBelow(s, t, q);
      }
    }
    if s.Hidden(q) {
      var f :| f in cap && f.path == Marker(q);
      assert PlainPath(q);
      MarkerIsWhiteout(q, q);
      assert HiddenBy(f, q);
    }
  }

  lemma HiddenHasNoKids(s: State, p: Path)
    requires s.Inv() && p != [] && s.Hidden(p)
    ensures s.NoLowerKids(p)
  {
  }

  // ---------------------------------------------------------------- the merged stack

  lemma MergedKeys(full: BlockStore, s: State, m: FileMap, cap: Layer, q: Path)
    requires s.Inv() && MountedOn(full, s, m) && Captures(full, cap, s.upper)
    ensures q in MergeStep(m, cap) <==> (q in s.upper && q != [] && !IsMarker(q)) || (q in m && !s.Hidden(q))
    ensures q in MergeStep(m, cap) && q in s.upper ==> Records(full, MergeStep(m, cap)[q], s.upper[q])
    ensures q in MergeStep(m, cap) && q !in s.upper ==> q in m && MergeStep(m, cap)[q] == m[q]
  {
    MergeStepAt(m, cap, q);
    CaptureLists(full, s, cap, q);
    MountedFilesAreLower(full, s, m, q);
    if q in m {
      CaptureHides(full, s, cap, q);
      PlainIsNotMarker(q);
    }
  }

  /** Everything listed after the capture lies on directories. */
  lemma MergedAbove(full: BlockStore, s: State, m: FileMap, cap: Layer, p: Path, q: Path)
    requires s.Inv() && MountedOn(full, s, m) && Captures(full, cap, s.upper)
    requires p in MergeStep(m, cap) && q in MergeStep(m, cap) && Below(p, q)
    ensures MergeStep(m, cap)[p].kind == DirKind
  {
    MergedKeys(full, s, m, cap, p);
    MergedKeys(full, s, m, cap, q);
    MountedFilesAreLower(full, s, m, q);
    if q in s.upper {
      UpperAncestors(s, p, q);
    } else if p in s.upper && !s.upper[p].UDir? {
      CoveredHasNoKids(s, p);
      NothingLowerBelow(s, p, q);
    }
  }

  lemma CoveredHasNoKids(s: State, p: Path)
    requires s.Inv() && p in s.upper && !s.upper[p].UDir?
    ensures s.NoLowerKids(p)
  {
  }

  lemma CaptureIsConflictFree(full: BlockStore, s: State, m: FileMap, cap: Layer)
    requires s.Inv() && MountedOn(full, s, m) && Captures(full, cap, s.upper)
    ensures ConflictFree(MergeStep(m, cap)) && [] !in MergeStep(m, cap)
  {
    forall p, q | p in MergeStep(m, cap) && q in MergeStep(m, cap) && Below(p, q)
      ensures MergeStep(m, cap)[p].kind == DirKind
    {
      MergedAbove(full, s, m, cap, p, q);
    }
    MergedKeys(full, s, m, cap, []);
  }

  /** The merged tree has a path exactly when the live mount shows it. */
  lemma MergedAncestry(full: BlockStore, s: State, m: FileMap, cap: Layer, p: Path)
    requires s.Inv() && MountedOn(full, s, m) && Captures(full, cap, s.upper) && PlainPath(p)
    ensures p in Ancestry(MergeStep(m, cap)) <==> s.Lookup(p).Some?
  {
    var m' := MergeStep(m, cap);
    AncestryAt(m', p);
    MergedKeys(full, s, m, cap, p);
    MountedFilesAreLower(full, s, m, p);
    PlainIsNotMarker(p);
    if q :| q in m' && p <= q {
      MergedFileIsShown(full, s, m, cap, p, q);
    } else if p != [] && s.Lookup(p).Some? && p !in s.upper {
      AncestryAt(m, p);
      var r :| r in m && p <= r;
      LowerFileIsMerged(full, s, m, cap, p, r);
    }
  }

  lemma MergedFileIsShown(full: BlockStore, s: State, m: FileMap, cap: Layer, p: Path, q: Path)
    requires s.Inv() && MountedOn(full, s, m) && Captures(full, cap, s.upper) && PlainPath(p)
    requires q in MergeStep(m, cap) && p <= q
    ensures s.Lookup(p).Some?
  {
    MergedKeys(full, s, m, cap, q);
    if q in s.upper {
      UpperAncestors(s, p, q);
      if s.Hidden(p) { HiddenIsLowerOnly(s, p); }
    } else {
      MountedFilesAreLower(full, s, m, q);
      AncestryAt(m, p);
      MountedFilesAreLower(full, s, m, p);
      if s.Hidden(p) && p != q {
        HiddenHasNoKids(s, p);
        NothingLowerBelow(s, p, q);
      }
    }
  }

  /** A lower file whose ancestor shows from the lower tree is still listed after the merge. */
  lemma LowerFileIsMerged(full: BlockStore, s: State, m: FileMap, cap: Layer, p: Path, r: Path)
    requires s.Inv() && MountedOn(full, s, m) && Captures(full, cap, s.upper) && PlainPath(p) && p != []
    requires s.Lookup(p).Some? && p !in s.upper && r in m && p <= r
    ensures r in MergeStep(m, cap)
  {
    MergedKeys(full, s, m, cap, r);
    if s.Hidden(r) && r != p {
      BelowParent(p, r);
      TargetOfMarker(r);
      UpperAncestors(s, p, Parent(r));
    }
  }

  lemma MergedNode(full: BlockStore, s: State, m: FileMap, cap: Layer, p: Path)
    requires s.Inv() && MountedOn(full, s, m) && Captures(full, cap, s.upper)
    requires PlainPath(p) && s.Lookup(p).Some? && p in TreeOf(MergeStep(m, cap))
    ensures s.Lookup(p) == Some(SeeLower(EntryOf(full, TreeOf(MergeStep(m, cap))[p])))
  {
    MergedKeys(full, s, m, cap, p);
    MountedFilesAreLower(full, s, m, p);
    PlainIsNotMarker(p);
  }

  /** What a client sees of a read-only tree. */
  function TreeView(lower: map<Path, LowerEntry>): View {
    map p | p in lower :: SeeLower(lower[p])
  }

  /** The capture theorem: the merged tree shows, at every path, what the live mount shows. */
  lemma CaptureTheorem(full: BlockStore, s: State, m: FileMap, cap: Layer)
    requires s.Inv() && MountedOn(full, s, m) && Captures(full, cap, s.upper)
    ensures TreeView(LowerOf(full, TreeOf(MergeStep(m, cap)))) == s.View()
  {
    var t := TreeOf(MergeStep(m, cap));
    forall p | p in t
      ensures PlainPath(p)
    {
      MergedPathsArePlain(full, s, m, cap, p);
    }
    forall p | PlainPath(p)
      ensures s.Lookup(p) == if p in t then Some(SeeLower(EntryOf(full, t[p]))) else None
    {
      MergedAncestry(full, s, m, cap, p);
      if p in t { MergedNode(full, s, m, cap, p); }
    }
    ViewIs(s, TreeView(LowerOf(full, t)));
  }

  /** And it has the permissions of the upper files, and of the lower files the mode they had. */
  lemma CaptureKeepsModes(full: BlockStore, s: State, m: FileMap, cap: Layer, p: Path)
    requires s.Inv() && MountedOn(full, s, m) && Captures(full, cap, s.upper)
    requires PlainPath(p) && s.Lookup(p).Some? && s.Lookup(p).value.File?
    ensures var l := LowerOf(full, TreeOf(MergeStep(m, cap)));
            && p in l && l[p].LLeaf?
            && (p in s.upper ==> s.upper[p].UFile? && l[p].mode == s.upper[p].perm)
            && (p !in s.upper ==> p in s.lower && s.lower[p].LLeaf? && l[p].mode == s.lower[p].mode)
  {
    MergedAncestry(full, s, m, cap, p);
    MergedNode(full, s, m, cap, p);
    MergedKeys(full, s, m, cap, p);
    MountedFilesAreLower(full, s, m, p);
    PlainIsNotMarker(p);
  }

  lemma MergedPathsArePlain(full: BlockStore, s: State, m: FileMap, cap: Layer, p: Path)
    requires s.Inv() && MountedOn(full, s, m) && Captures(full, cap, s.upper)
    requires p in Ancestry(MergeStep(m, cap))
    ensures PlainPath(p)
  {
    AncestryAt(MergeStep(m, cap), p);
    if p != [] {
      var q :| q in MergeStep(m, cap) && p <= q;
      MergedKeys(full, s, m, cap, q);
      MountedFilesAreLower(full, s, m, q);
      if q in s.upper { UpperIsPlain(s, q); }
      PlainPrefix(p, q);
    }
  }

  lemma UpperIsPlain(s: State, q: Path)
    requires s.UpperOk() && q in s.upper && !IsMarker(q)
    ensures PlainPath(q)
  {
    if q != [] { assert q == Parent(q) + [Base(q)]; }
  }

  lemma PlainPrefix(p: Path, q: Path)
    requires p <= q && PlainPath(q)
    ensures PlainPath(p)
  {
  }

  /** The same for a stack of layers: appending the captured layer to the stack the mount was
      made from, and mounting the longer stack read-only, shows the same file system. */
  lemma CaptureOfStack(full: BlockStore, s: State, layers: seq<Layer>, cap: Layer)
    requires s.Inv() && MountedOn(full, s, MergeAll(layers)) && Captures(full, cap, s.upper)
    ensures ConflictFree(MergeAll(layers + [cap]))
    ensures TreeView(LowerOf(full, TreeOf(MergeAll(layers + [cap])))) == s.View()
  {
    assert (layers + [cap])[..|layers|] == layers;
    CaptureIsConflictFree(full, s, MergeAll(layers), cap);
    CaptureTheorem(full, s, MergeAll(layers), cap);
  }

  /** The tree of any set of plain files can be mounted. */
  lemma TreeOfIsLowerOk(full: BlockStore, m: FileMap, upper: map<Path, UpperEntry>)
    requires ConflictFree(m) && [] !in m && forall q :: q in m ==> PlainPath(q)
    ensures State(LowerOf(full, TreeOf(m)), upper).LowerOk()
  {
    var t := TreeOf(m);
    forall p | p in t
      ensures PlainPath(p)
      ensures p != [] ==> Parent(p) in t && t[Parent(p)].PDir?
    {
      AncestryAt(m, p);
      if p != [] {
        var q :| q in m && p <= q;
        PlainPrefix(p, q);
        assert Parent(p) == q[..|p| - 1];
        AncestryAt(m, Parent(p));
        assert Below(Parent(p), q);
      }
    }
  }
}
