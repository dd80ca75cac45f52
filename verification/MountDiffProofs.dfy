/** What the mount diff and pruning mean for the view. */
module MountDiffProofs {
  import opened Wrappers
  import opened Paths
  import opened PathSums
  import opened Entries
  import opened UnionState
  import opened Capture
  import opened MountDiff

  /** No lower leaf is a FIFO or a symlink without a target. */
  ghost predicate PlainLeaves(s: State) {
    forall p :: p in s.lower ==> LeafIsPlain(s.lower[p])
  }

  predicate LeafIsPlain(l: LowerEntry) {
    l.LLeaf? ==> l.kind != FifoKind && (l.kind == SymlinkKind ==> l.link != "")
  }

  /** An upper directory stands where the lower tree has a leaf. */
  predicate Shadowed(s: State, p: Path) {
    p in s.upper && s.upper[p].UDir? && p in s.lower && s.lower[p].LLeaf?
  }

  /** An upper entry repeats a plain leaf exactly when both look alike and the modes agree. */
  lemma RepeatsIsSame(e: UpperEntry, l: LowerEntry)
    requires LeafIsPlain(l) && !e.UDir?
    ensures Repeats(e, l) <==> SeeUpper(e) == SeeLower(l) && (e.UFile? ==> e.perm == l.mode)
  {
  }

  // ---------------------------------------------------------------- exactness

  predicate IsFileNode(n: Option<Node>) {
    n.Some? && n.value != Dir
  }

  /** What is seen at p differs from the lower tree, in kind, link, bytes or mode. */
  predicate DiffersFromLower(s: State, p: Path)
    requires p in s.lower
  {
    s.Lookup(p) != Some(SeeLower(s.lower[p])) ||
    (p in s.upper && s.upper[p].UFile? && s.lower[p].LLeaf? && s.upper[p].perm != s.lower[p].mode)
  }

  lemma SignificantAt(s: State, p: Path)
    requires s.Inv() && PlainPath(p) && p != []
    ensures (exists d :: Significant(s, d) && Subject(d) == p) <==>
            s.Hidden(p) || (p in s.upper && !s.upper[p].UDir? && !Unchanged(s, p))
  {
    PlainIsNotMarker(p);
    TargetOfMarker(p);
    if s.Hidden(p) {
      assert Significant(s, Marker(p)) && Subject(Marker(p)) == p;
    }
    if p in s.upper && !s.upper[p].UDir? && !Unchanged(s, p) {
      assert Significant(s, p) && Subject(p) == p;
    }
    if d :| Significant(s, d) && Subject(d) == p {
      if IsMarker(d) { MarkerOfTarget(d); }
    }
  }

  /** The change at p, whichever entry it comes from. */
  lemma ChangeAt(s: State, list: seq<FileChange>, c: FileChange)
    requires s.Inv() && Reports(s, Subtree([]), list) && c in list
    ensures PlainPath(c.path) && c.path != []
    ensures s.Hidden(c.path) || (c.path in s.upper && !s.upper[c.path].UDir? && !Unchanged(s, c.path))
    ensures c.kind == if s.Hidden(c.path) then Removed else if c.path in s.lower then Modified else Added
    ensures c.delta == MergedSize(s, c.path) - LowerSize(s, c.path)
  {
    var d :| d in Subtree([]) && Significant(s, d) && c == ChangeOf(s, d);
    if IsMarker(d) {
      MarkerOfTarget(d);
      HiddenIsLowerOnly(s, c.path);
    } else {
      UpperIsPlain(s, d);
      if s.Hidden(d) { HiddenIsLowerOnly(s, d); }
    }
  }

  lemma ReportedAt(s: State, list: seq<FileChange>, p: Path)
    requires s.Inv() && Reports(s, Subtree([]), list) && PlainPath(p) && p != []
    ensures (exists c :: c in list && c.path == p) <==>
            s.Hidden(p) || (p in s.upper && !s.upper[p].UDir? && !Unchanged(s, p))
  {
    SignificantAt(s, p);
    if d :| Significant(s, d) && Subject(d) == p {
      assert d in Subtree([]);
      assert ChangeOf(s, d) in list;
    }
    if c :| c in list && c.path == p {
      ChangeAt(s, list, c);
    }
  }

  /** The list is the difference between the merged view and the lower tree: a path is REMOVED
      when a lower path is no longer seen, ADDED when a file is seen where the lower tree has
      nothing, MODIFIED when a file is seen that differs from what the lower tree has there. */
  lemma ReportIsDifference(s: State, list: seq<FileChange>, p: Path)
    requires s.Inv() && PlainLeaves(s) && Reports(s, Subtree([]), list) && PlainPath(p) && p != []
    ensures (exists c :: c in list && c.path == p && c.kind == Removed) <==> p in s.lower && s.Lookup(p).None?
    ensures (exists c :: c in list && c.path == p && c.kind == Added) <==> p !in s.lower && IsFileNode(s.Lookup(p))
    ensures (exists c :: c in list && c.path == p && c.kind == Modified) <==>
            p in s.lower && IsFileNode(s.Lookup(p)) && DiffersFromLower(s, p)
  {
    ReportedAt(s, list, p);
    forall c | c in list && c.path == p
      ensures c.kind == if s.Hidden(p) then Removed else if p in s.lower then Modified else Added
    {
      ChangeAt(s, list, c);
    }
    if s.Hidden(p) { HiddenIsLowerOnly(s, p); }
    if p in s.upper && p in s.lower && !s.upper[p].UDir? { RepeatsIsSame(s.upper[p], s.lower[p]); }
  }

  // ---------------------------------------------------------------- bytes

  /** A path where a file is seen, or was in the lower tree, that looks different and is not reported:
      that is exactly where an upper directory stands over a lower leaf. */
  lemma MissedExactly(s: State, list: seq<FileChange>, p: Path)
    requires s.Inv() && PlainLeaves(s) && Reports(s, Subtree([]), list) && PlainPath(p) && p != []
    requires IsFileNode(s.Lookup(p)) || (p in s.lower && s.lower[p].LLeaf?)
    ensures s.Lookup(p) != LowerOnly(s, p) && (forall c :: c in list ==> c.path != p) <==> Shadowed(s, p)
  {
    ReportedAt(s, list, p);
    if p in s.upper && s.Hidden(p) { HiddenIsLowerOnly(s, p); }
    if Unchanged(s, p) { RepeatsIsSame(s.upper[p], s.lower[p]); }
  }

  function NodeBytes(n: Node): nat {
    match n
    case Dir => 0
    case File(data) => |data|
    case Link(target) => |target|
    case Fifo => 0
  }

  function ViewSize(v: View): Path -> int {
    p => if p in v then NodeBytes(v[p]) else 0
  }

  /** All the bytes a view shows. */
  ghost function TotalBytes(v: View): int {
    SumOver(v.Keys, ViewSize(v))
  }

  function MergedSize(s: State, p: Path): nat {
    if s.Hidden(p) then 0
    else if p in s.upper then SizeUpper(s.upper[p])
    else LowerSize(s, p)
  }

  /** Bytes of a lower leaf that an upper directory stands over. */
  function ShadowedSize(s: State): Path -> int {
    p => if Shadowed(s, p) then SizeLower(s.lower[p]) else 0
  }

  ghost function SumDelta(list: seq<FileChange>): int {
    if list == [] then 0 else SumDelta(list[..|list| - 1]) + list[|list| - 1].delta
  }

  function PathsOf(list: seq<FileChange>): set<Path> {
    set c | c in list :: c.path
  }

  lemma {:induction false} DeltaIsSum(list: seq<FileChange>, f: Path -> int)
    requires forall i, j :: 0 <= i < j < |list| ==> list[i].path != list[j].path
    requires forall c :: c in list ==> c.delta == f(c.path)
    ensures SumDelta(list) == SumOver(PathsOf(list), f)
  {
    if list != [] {
      var last := |list| - 1;
      var c := list[last];
      assert c in list;
      assert list == list[..last] + [c];
      forall d | d in list[..last]
        ensures d in list && d.path != c.path
      {
        var i :| 0 <= i < last && list[i] == d;
      }
      DeltaIsSum(list[..last], f);
      assert PathsOf(list) - {c.path} == PathsOf(list[..last]);
      SumTake(PathsOf(list), f, c.path);
    }
  }

  /** Plain paths that either half of the mount has. */
  function AllPaths(s: State): set<Path> {
    set p | p in s.upper.Keys + s.lower.Keys && PlainPath(p)
  }

  function LowerView(s: State): View {
    map p | p in s.lower :: SeeLower(s.lower[p])
  }

  lemma LowerSizeSeen(s: State, p: Path)
    requires PlainLeaves(s)
    ensures p in s.lower ==> NodeBytes(SeeLower(s.lower[p])) == LowerSize(s, p)
  {
    assert p in s.lower && s.lower[p].LLeaf? ==> LeafIsPlain(s.lower[p]);
  }

  lemma SizesSeen(s: State, p: Path)
    requires PlainLeaves(s) && PlainPath(p)
    ensures ViewSize(s.View())(p) == MergedSize(s, p)
    ensures ViewSize(LowerView(s))(p) == LowerSize(s, p)
  {
    ViewAt(s, p);
    LowerSizeSeen(s, p);
    assert p in s.upper ==> NodeBytes(SeeUpper(s.upper[p])) == SizeUpper(s.upper[p]);
  }

  /** How many bytes p gains over the lower tree, apart from leaves that directories shadow. */
  function Gain(s: State): Path -> int {
    p => MergedSize(s, p) - LowerSize(s, p) + ShadowedSize(s)(p)
  }

  lemma UnreportedGainsNothing(s: State, p: Path)
    requires s.Inv() && PlainPath(p) && !s.Hidden(p)
    requires p in s.upper && !s.upper[p].UDir? ==> Unchanged(s, p)
    ensures MergedSize(s, p) - LowerSize(s, p) + ShadowedSize(s)(p) == 0
  {
  }

  lemma GainIsReported(s: State, list: seq<FileChange>, p: Path)
    requires s.Inv() && PlainLeaves(s) && Reports(s, Subtree([]), list) && PlainPath(p)
    ensures p !in PathsOf(list) ==> Gain(s)(p) == 0
  {
    if p !in PathsOf(list) {
      assert forall c :: c in list ==> c.path in PathsOf(list);
      if p != [] { ReportedAt(s, list, p); }
      UnreportedGainsNothing(s, p);
      assert Gain(s)(p) == MergedSize(s, p) - LowerSize(s, p) + ShadowedSize(s)(p);
    }
  }

  lemma ReportedPathsAreAll(s: State, list: seq<FileChange>)
    requires s.Inv() && Reports(s, Subtree([]), list)
    ensures PathsOf(list) <= AllPaths(s)
    ensures forall c :: c in list ==> c.delta == Gain(s)(c.path)
  {
    forall c | c in list
      ensures c.path in AllPaths(s) && c.delta == Gain(s)(c.path)
    {
      ChangeAt(s, list, c);
      if s.Hidden(c.path) { HiddenIsLowerOnly(s, c.path); }
      assert !Shadowed(s, c.path);
      assert Gain(s)(c.path) == MergedSize(s, c.path) - LowerSize(s, c.path) + ShadowedSize(s)(c.path);
    }
  }

  /** The sum of all reported deltas is what the merged view has more than the lower tree, plus
      the bytes of lower leaves that an upper directory stands over. */
  lemma DeltasAccountForBytes(s: State, list: seq<FileChange>)
    requires s.Inv() && PlainLeaves(s) && Reports(s, Subtree([]), list)
    ensures SumDelta(list) ==
            TotalBytes(s.View()) - TotalBytes(LowerView(s)) + SumOver(AllPaths(s), ShadowedSize(s))
  {
    var all, merged, lower := AllPaths(s), ViewSize(s.View()), ViewSize(LowerView(s));
    ReportedPathsAreAll(s, list);
    DeltaIsSum(list, Gain(s));
    forall p | p in all
      ensures merged(p) == MergedSize(s, p) && lower(p) == LowerSize(s, p)
      ensures p !in PathsOf(list) ==> Gain(s)(p) == 0
    {
      SizesSeen(s, p);
      GainIsReported(s, list, p);
    }
    SumWhereNonzero(all, PathsOf(list), Gain(s), Gain(s));
    var difference := (p: Path) => merged(p) - lower(p);
    var negated := (p: Path) => 0 - ShadowedSize(s)(p);
    SumOfDifference(all, difference, negated, Gain(s));
    SumOfDifference(all, merged, lower, difference);
    var zero := (p: Path) => 0;
    SumOfDifference(all, zero, ShadowedSize(s), negated);
    SumIsZero(all, zero);
    SumWhereNonzero(all, s.View().Keys, merged, merged);
    SumWhereNonzero(all, LowerView(s).Keys, lower, lower);
  }

  /** The deltas add up to the difference in bytes exactly when no upper directory stands over a
      lower leaf that has any. */
  lemma DeltasConserveBytesExactly(s: State, list: seq<FileChange>)
    requires s.Inv() && PlainLeaves(s) && Reports(s, Subtree([]), list)
    ensures SumDelta(list) == TotalBytes(s.View()) - TotalBytes(LowerView(s)) <==>
            forall p :: Shadowed(s, p) ==> SizeLower(s.lower[p]) == 0
  {
    DeltasAccountForBytes(s, list);
    SumIsZero(AllPaths(s), ShadowedSize(s));
    forall p | Shadowed(s, p)
      ensures p in AllPaths(s) && ShadowedSize(s)(p) == SizeLower(s.lower[p])
    {
    }
  }

  // ---------------------------------------------------------------- pruning

  /** The mount after a pruning walk. */
  ghost function AfterPrune(s: State): State {
    s.With(Pruned(s, Subtree([])))
  }

  /** The files and links of a view, without its directories. */
  function Files(v: View): View {
    map p | p in v && v[p] != Dir :: v[p]
  }

  lemma KeptAt(s: State, k: Path)
    requires s.Inv()
    ensures k in AfterPrune(s).upper <==> k in s.upper && (k == [] || Kept(s, k))
    ensures k in AfterPrune(s).upper ==> AfterPrune(s).upper[k] == s.upper[k]
  {
  }

  /** Directories above what is kept are kept. */
  lemma KeptParent(s: State, k: Path)
    requires s.Inv() && k in s.upper && k != [] && Kept(s, k)
    ensures Parent(k) == [] || Kept(s, Parent(k))
  {
    assert Below(Parent(k), k);
    if s.upper[k].UDir? {
      var d :| Below(k, d) && Significant(s, d);
      assert k == d[..|k|];
      assert Below(Parent(k), d);
    }
  }

  lemma PruneKeepsHidden(s: State, p: Path)
    requires s.Inv()
    ensures AfterPrune(s).Hidden(p) == s.Hidden(p)
  {
    if p != [] {
      TargetOfMarker(p);
      KeptAt(s, Marker(p));
      if Marker(p) in s.upper {
        assert Significant(s, Marker(p));
      }
    }
  }

  lemma PruneKeepsInv(s: State)
    requires s.Inv()
    ensures AfterPrune(s).Inv()
  {
    var t := AfterPrune(s);
    KeptAt(s, []);
    forall k | k in t.upper && k != []
      ensures Parent(k) in t.upper && t.upper[Parent(k)].UDir? && PlainPath(Parent(k))
    {
      KeptAt(s, k);
      KeptParent(s, k);
      KeptAt(s, Parent(k));
    }
    forall q | q in t.lower && q != []
      ensures !t.Hidden(Parent(q)) && (Parent(q) in t.upper ==> t.upper[Parent(q)].UDir?)
    {
      PruneKeepsHidden(s, Parent(q));
      KeptAt(s, Parent(q));
    }
  }

  /** What `stat` answers after pruning. */
  lemma LookupAfterPrune(s: State, p: Path)
    requires s.Inv() && PlainLeaves(s) && PlainPath(p)
    ensures AfterPrune(s).Lookup(p) ==
            if p !in s.upper || p == [] || !s.upper[p].UDir? || Kept(s, p) then s.Lookup(p)
            else if p in s.lower then Some(SeeLower(s.lower[p])) else None
  {
    PruneKeepsHidden(s, p);
    KeptAt(s, p);
    PlainIsNotMarker(p);
    if p in s.upper && s.Hidden(p) { HiddenIsLowerOnly(s, p); }
    if p in s.upper && p != [] && !s.upper[p].UDir? && !Significant(s, p) {
      RepeatsIsSame(s.upper[p], s.lower[p]);
    }
  }

  /** An upper directory over a lower leaf that pruning would remove, uncovering the leaf. */
  predicate Resurfaces(s: State, p: Path)
    requires s.Inv()
  {
    Shadowed(s, p) && p != [] && forall d :: d in s.upper && Below(p, d) ==> !Significant(s, d)
  }

  lemma PruneKeepsFilesAt(s: State, p: Path)
    requires s.Inv() && PlainLeaves(s) && PlainPath(p)
    ensures var t := AfterPrune(s);
            (IsFileNode(t.Lookup(p)) || IsFileNode(s.Lookup(p))) && t.Lookup(p) != s.Lookup(p) <==> Resurfaces(s, p)
  {
    LookupAfterPrune(s, p);
    if p in s.upper && s.Hidden(p) { HiddenIsLowerOnly(s, p); }
  }

  /** Pruning leaves every file and link of the view as it was, if and only if no leaf of the
      lower tree resurfaces from under a directory with nothing to report. */
  lemma PruneKeepsFilesExactly(s: State)
    requires s.Inv() && PlainLeaves(s)
    ensures Files(AfterPrune(s).View()) == Files(s.View()) <==> forall p :: !Resurfaces(s, p)
  {
    var t := AfterPrune(s);
    var a, b := Files(t.View()), Files(s.View());
    if p :| Resurfaces(s, p) {
      assert PlainPath(p);
      FilesAt(s, p);
      FilesAt(t, p);
      PruneKeepsFilesAt(s, p);
    } else {
      forall p
        ensures p in a <==> p in b
        ensures p in a ==> a[p] == b[p]
      {
        FilesAt(s, p);
        FilesAt(t, p);
        if PlainPath(p) { PruneKeepsFilesAt(s, p); }
      }
    }
  }

  lemma FilesAt(s: State, p: Path)
    ensures p in Files(s.View()) <==> PlainPath(p) && IsFileNode(s.Lookup(p))
    ensures p in Files(s.View()) ==> s.Lookup(p) == Some(Files(s.View())[p])
  {
    if PlainPath(p) { ViewAt(s, p); }
  }

  lemma SignificantAfterPrune(s: State, d: Path)
    requires s.Inv()
    ensures Significant(AfterPrune(s), d) == Significant(s, d)
    ensures Significant(s, d) ==> ChangeOf(AfterPrune(s), d) == ChangeOf(s, d)
  {
    KeptAt(s, d);
  }

  /** A second walk finds the same changes and prunes nothing more. */
  lemma PruneTwiceIsOnce(s: State, list: seq<FileChange>)
    requires s.Inv()
    ensures AfterPrune(AfterPrune(s)).upper == AfterPrune(s).upper
    ensures Reports(AfterPrune(s), Subtree([]), list) <==> Reports(s, Subtree([]), list)
  {
    var t := AfterPrune(s);
    forall d
      ensures Significant(t, d) == Significant(s, d)
      ensures Significant(s, d) ==> ChangeOf(t, d) == ChangeOf(s, d)
    {
      SignificantAfterPrune(s, d);
    }
    PruneKeepsInv(s);
    forall k
      ensures k in AfterPrune(t).upper <==> k in t.upper
    {
      KeptAt(s, k);
      KeptAt(t, k);
    }
  }
}
