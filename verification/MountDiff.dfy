/** What a mount's upper directory changes relative to its lower tree, and pruning what it
    merely repeats. */
module MountDiff {
  import opened Paths
  import opened Entries
  import opened UnionState

  datatype ChangeKind = Added | Modified | Removed

  datatype FileChange = FileChange(path: Path, kind: ChangeKind, delta: int)

  // ---------------------------------------------------------------- one upper entry

  /** The upper entry repeats the lower one: the same link, or the same bytes and mode. */
  predicate Repeats(e: UpperEntry, l: LowerEntry) {
    l.LLeaf? &&
    match e
    case UDir => false
    case ULink(target) => l.link != "" && target == l.link
    case UFile(perm, data) => l.link == "" && perm == l.mode && data == l.data
  }

  predicate Unchanged(s: State, p: Path) {
    p in s.upper && p in s.lower && Repeats(s.upper[p], s.lower[p])
  }

  /** An upper entry that is reported: a marker, or a non-directory that repeats nothing. */
  predicate Significant(s: State, d: Path) {
    d in s.upper && d != [] && !s.upper[d].UDir? && (IsMarker(d) || !Unchanged(s, d))
  }

  /** The path a significant entry speaks of. */
  function Subject(d: Path): Path {
    if IsMarker(d) then Target(d) else d
  }

  function LowerSize(s: State, p: Path): nat {
    if p in s.lower then SizeLower(s.lower[p]) else 0
  }

  function ChangeOf(s: State, d: Path): FileChange
    requires d in s.upper
  {
    var p := Subject(d);
    if IsMarker(d) then FileChange(p, Removed, 0 - LowerSize(s, p))
    else if p !in s.lower then FileChange(p, Added, SizeUpper(s.upper[d]))
    else FileChange(p, Modified, SizeUpper(s.upper[d]) - LowerSize(s, p))
  }

  lemma SubjectsDiffer(s: State, d: Path, e: Path)
    requires s.Inv() && Significant(s, d) && Significant(s, e) && d != e
    ensures Subject(d) != Subject(e)
  {
    if IsMarker(d) { MarkerOfTarget(d); }
    if IsMarker(e) { MarkerOfTarget(e); }
  }

  // ---------------------------------------------------------------- regions of the upper directory

  /** The list reports each significant entry of the region once, and nothing else. */
  ghost predicate Reports(s: State, region: iset<Path>, list: seq<FileChange>) {
    && (forall c :: c in list <==> exists d :: d in region && Significant(s, d) && c == ChangeOf(s, d))
    && (forall i, j :: 0 <= i < j < |list| ==> list[i].path != list[j].path)
  }

  /** A directory is worth keeping while something significant lies below it. */
  ghost predicate Kept(s: State, k: Path)
    requires k in s.upper
  {
    if s.upper[k].UDir? then exists d :: Below(k, d) && Significant(s, d) else Significant(s, k)
  }

  /** The upper directory after pruning a region. */
  ghost function Pruned(s: State, region: iset<Path>): map<Path, UpperEntry> {
    map k | k in s.upper && (k in region ==> Kept(s, k)) :: s.upper[k]
  }

  ghost function Subtree(p: Path): iset<Path> {
    iset k | Below(p, k)
  }

  ghost function Branch(p: Path): iset<Path> {
    iset k | AtOrBelow(p, k)
  }

  /** The part of the subtree below rel that lies under the given names. */
  ghost function Under(rel: Path, names: set<Name>): iset<Path> {
    iset k | Below(rel, k) && k[|rel|] in names
  }

  lemma UnderOneMore(rel: Path, names: set<Name>, name: Name)
    ensures Under(rel, names + {name}) == Under(rel, names) + Branch(rel + [name])
  {
    forall k
      ensures rel + [name] <= k <==> Below(rel, k) && k[|rel|] == name
    {
      if Below(rel, k) { assert k[..|rel| + 1] == rel + [k[|rel|]]; }
    }
  }

  lemma ReportsNothing(s: State)
    ensures Reports(s, iset{}, [])
  {
  }

  /** Reports of disjoint regions are put together by concatenation. */
  lemma ReportsJoin(s: State, a: iset<Path>, b: iset<Path>, la: seq<FileChange>, lb: seq<FileChange>)
    requires s.Inv() && Reports(s, a, la) && Reports(s, b, lb) && a !! b
    ensures Reports(s, a + b, la + lb)
  {
    var l := la + lb;
    forall c
      ensures c in l <==> exists d :: d in a + b && Significant(s, d) && c == ChangeOf(s, d)
    {
      if c in la { var d :| d in a && Significant(s, d) && c == ChangeOf(s, d); assert d in a + b; }
      if c in lb { var d :| d in b && Significant(s, d) && c == ChangeOf(s, d); assert d in a + b; }
    }
    forall i, j | 0 <= i < j < |l|
      ensures l[i].path != l[j].path
    {
      if i < |la| <= j {
        assert l[i] in la && l[j] in lb;
        var d :| d in a && Significant(s, d) && l[i] == ChangeOf(s, d);
        var e :| e in b && Significant(s, e) && l[j] == ChangeOf(s, e);
        SubjectsDiffer(s, d, e);
      }
    }
  }

  /** Two states that agree on a region's upper entries report the same for it. */
  lemma ReportsSame(s: State, t: State, region: iset<Path>, list: seq<FileChange>)
    requires s.lower == t.lower && Reports(t, region, list)
    requires forall d :: d in region ==> (d in s.upper <==> d in t.upper) && (d in s.upper ==> s.upper[d] == t.upper[d])
    ensures Reports(s, region, list)
  {
    forall d | d in region
      ensures Significant(s, d) == Significant(t, d)
      ensures d in s.upper ==> ChangeOf(s, d) == ChangeOf(t, d)
    {
    }
  }

  lemma SignificantSame(s: State, t: State, d: Path)
    requires s.lower == t.lower && (d in s.upper <==> d in t.upper) && (d in s.upper ==> s.upper[d] == t.upper[d])
    ensures Significant(s, d) == Significant(t, d)
  {
  }

  ghost predicate DownClosed(region: iset<Path>) {
    forall k, d :: k in region && Below(k, d) ==> d in region
  }

  /** Pruning one region and then another is pruning both, when the second is closed downwards. */
  lemma PrunedTwice(s: State, a: iset<Path>, b: iset<Path>)
    requires a !! b && DownClosed(b)
    ensures Pruned(s.With(Pruned(s, a)), b) == Pruned(s, a + b)
    ensures forall d :: d in b ==> (d in Pruned(s, a) <==> d in s.upper)
  {
    var t := s.With(Pruned(s, a));
    forall k | k in t.upper && k in b
      ensures Kept(t, k) == Kept(s, k)
    {
      forall d | d in b
        ensures Significant(s, d) == Significant(t, d)
      {
        SignificantSame(s, t, d);
      }
    }
  }

  lemma BranchIsRootAndSubtree(p: Path)
    ensures Branch(p) == iset{p} + Subtree(p)
    ensures DownClosed(Branch(p)) && DownClosed(Subtree(p))
  {
    forall k | p <= k && k != p ensures Below(p, k) {}
    forall k, d | p <= k && Below(k, d)
      ensures Below(p, d)
    {
      assert k == d[..|k|];
    }
  }

  /** A branch that consists of one upper entry which is no directory. */
  lemma LeafBranch(s: State, a: iset<Path>, p: Path)
    requires s.UpperOk() && p in s.upper && p != [] && !s.upper[p].UDir? && a !! Branch(p)
    ensures Pruned(s, a + Branch(p)) == if Significant(s, p) then Pruned(s, a) else Pruned(s, a) - {p}
    ensures Reports(s, Branch(p), if Significant(s, p) then [ChangeOf(s, p)] else [])
  {
    BranchIsRootAndSubtree(p);
    forall k | Below(p, k)
      ensures k !in s.upper
    {
      NothingUpperBelow(s, p, k);
    }
    assert p in Branch(p);
  }

  /** Some child remains in a pruned directory exactly when something significant lies below it. */
  lemma ChildRemains(s: State, region: iset<Path>, c: Path)
    requires s.UpperOk() && c in s.upper && s.upper[c].UDir? && Subtree(c) <= region
    ensures s.With(Pruned(s, region)).NoUpperKids(c) <==> !exists d :: Below(c, d) && Significant(s, d)
  {
    var t := s.With(Pruned(s, region));
    if d :| Below(c, d) && Significant(s, d) {
      var q := d[..|c| + 1];
      UpperAncestors(s, q, d);
      assert Parent(q) == c && Below(c, q);
      if q != d { assert Below(q, d); }
      assert q in t.upper;
    }
    if !t.NoUpperKids(c) {
      var q :| q in t.upper && q != [] && Parent(q) == c;
      assert Below(c, q) && q in region && Kept(s, q);
      if s.upper[q].UDir? {
        var d :| Below(q, d) && Significant(s, d);
        assert q == d[..|q|];
        assert Below(c, d);
      }
    }
  }

  /** A directory's branch: prune below it, then drop it if nothing is left. */
  lemma DirBranch(s: State, a: iset<Path>, c: Path, list: seq<FileChange>)
    requires s.UpperOk() && c in s.upper && s.upper[c].UDir? && c != [] && a !! Branch(c)
    requires Reports(s, Subtree(c), list)
    ensures Reports(s, Branch(c), list)
    ensures var below := Pruned(s, a + Subtree(c));
            && c in below && below[c].UDir?
            && Pruned(s, a + Branch(c)) == if s.With(below).NoUpperKids(c) then below - {c} else below
  {
    BranchIsRootAndSubtree(c);
    ChildRemains(s, a + Subtree(c), c);
    assert c in Branch(c) && c !in a;
    assert !Significant(s, c);
  }
}
