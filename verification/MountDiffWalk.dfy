/** The recursive walk over the upper directory that reports changes and, if asked, prunes. */
module MountDiffWalk {
  import opened Wrappers
  import opened Paths
  import opened Ordering
  import opened Entries
  import opened TreeData
  import opened Streaming
  import opened InodeTree
  import opened LowerView
  import opened UnionState
  import opened MountDiff
  import opened Rendering
  import Proofs = MountDiffProofs
  import Fs = UnionFs

  /** How many upper entries lie below a path, or at it. */
  function BelowKeys(u: map<Path, UpperEntry>, p: Path): set<Path> {
    set k | k in u && Below(p, k)
  }

  function BranchKeys(u: map<Path, UpperEntry>, p: Path): set<Path> {
    set k | k in u && p <= k
  }

  lemma BranchIsMore(u: map<Path, UpperEntry>, p: Path)
    requires p in u
    ensures |BelowKeys(u, p)| < |BranchKeys(u, p)|
  {
    assert BranchKeys(u, p) == BelowKeys(u, p) + {p} by {
      forall k | k in u && p <= k && k != p ensures Below(p, k) {}
    }
  }

  lemma ChildBranchIsNoMore(u: map<Path, UpperEntry>, v: map<Path, UpperEntry>, rel: Path, name: Name)
    requires v.Keys <= u.Keys
    ensures |BranchKeys(v, rel + [name])| <= |BelowKeys(u, rel)|
  {
    SubsetSize(BranchKeys(v, rel + [name]), BelowKeys(u, rel));
  }

  lemma {:induction false} SubsetSize(a: set<Path>, b: set<Path>)
    requires a <= b
    ensures |a| <= |b|
  {
    if a != {} {
      var x :| x in a;
      SubsetSize(a - {x}, b - {x});
    }
  }

  /** A lower node's recorded size is the size the changes are computed with. */
  lemma NodeSize(fs: Fs.UnionFs, p: Path, n: FileNode)
    requires fs.Valid() && p in fs.lower && Shape(n) == fs.paths[p]
    requires Walk(fs.tree.nodes, p) in fs.tree.nodes && n == fs.tree.nodes[Walk(fs.tree.nodes, p)]
    ensures n.size == LowerSize(fs.S(), p)
  {
    if !n.isDir && n.link == "" {
      NodeIsWellFormed(fs.full, fs.tree.blockSize, n);
    }
  }

  /** Compares an upper file or link with the lower node at its path. */
  method EntryUnchanged(fs: Fs.UnionFs, p: Path, lower: Option<FileNode>) returns (r: Result<bool, CompareError>)
    requires fs.Valid() && p in fs.upper && !fs.upper[p].UDir?
    requires lower.Some? <==> p in fs.lower
    requires lower.Some? ==> Shape(lower.value) == fs.paths[p]
    ensures r.Ok? ==> r.value == Unchanged(fs.S(), p)
    ensures fs.BlocksAtHand(p) ==> r.Ok?
  {
    if lower.None? || lower.value.isDir {
      return Ok(false);
    }
    var n := lower.value;
    assert fs.lower[p] == EntryOf(fs.full, Shape(n));
    match fs.upper[p]
    case ULink(target) =>
      if n.link == "" {
        return Ok(false);
      }
      r := Ok(target == n.link);
    case UFile(perm, data) =>
      if n.link != "" {
        return Ok(false);
      }
      NodeIsWellFormed(fs.full, fs.tree.blockSize, n);
      if |data| != n.size || perm != n.mode {
        return Ok(false);
      }
      r := SameContent(fs.tree, n, data, fs.full);
  }

  method RemoveUpperEntry(fs: Fs.UnionFs, p: Path, faults: Fs.Faults) returns (ok: bool)
    requires fs.Valid() && fs.writable && PlainPath(p) && p != [] && p in fs.upper && fs.S().NoUpperKids(p)
    modifies fs`upper
    ensures fs.Valid()
    ensures fs.upper == if ok then old(fs.upper) - {p} else old(fs.upper)
    ensures faults == {} ==> ok
  {
    DropEntry(fs.S(), p);
    ok := fs.RemoveUpper(p, faults);
  }

  /** A marker: always reported, never removed. */
  method DiffMarker(fs: Fs.UnionFs, rel: Path, name: Name) returns (list: seq<FileChange>)
    requires fs.Valid() && rel + [name] in fs.upper && IsMarkerName(name)
    ensures list == [ChangeOf(fs.S(), rel + [name])]
  {
    assert Parent(rel + [name]) == rel && Base(rel + [name]) == name;
    var hiddenPath := rel + [Strip(name)];
    var delta := 0;
    var lower := fs.LowerNode(hiddenPath);
    if lower.Some? {
      NodeSize(fs, hiddenPath, lower.value);
      delta := 0 - lower.value.size;
    }
    list := [FileChange(hiddenPath, Removed, delta)];
  }

  /** A file or link: reported unless it repeats the lower entry, in which case it may be pruned. */
  method DiffFile(fs: Fs.UnionFs, p: Path, prune: bool, faults: Fs.Faults) returns (list: seq<FileChange>, ok: bool)
    requires fs.Valid() && fs.writable && PlainPath(p) && p != [] && p in fs.upper && !fs.upper[p].UDir?
    modifies fs`upper
    ensures fs.Valid()
    ensures ok ==> list == if old(Significant(fs.S(), p)) then [old(ChangeOf(fs.S(), p))] else []
    ensures ok ==> fs.upper == if prune && !old(Significant(fs.S(), p)) then old(fs.upper) - {p} else old(fs.upper)
    ensures faults == {} && fs.BlocksAtHand(p) ==> ok
  {
    PlainIsNotMarker(p);
    var lower := fs.LowerNode(p);
    var same := EntryUnchanged(fs, p, lower);
    if same.Err? {
      return [], false;
    }
    if same.value {
      ok := true;
      if prune {
        LeafHasNoUpperKids(fs.S(), p);
        ok := RemoveUpperEntry(fs, p, faults);
      }
      return [], ok;
    }
    if lower.None? {
      list := [FileChange(p, Added, SizeUpper(fs.upper[p]))];
    } else {
      NodeSize(fs, p, lower.value);
      list := [FileChange(p, Modified, SizeUpper(fs.upper[p]) - lower.value.size)];
    }
    ok := true;
  }

  lemma LeafHasNoUpperKids(s: State, p: Path)
    requires s.UpperOk() && p in s.upper && !s.upper[p].UDir?
    ensures s.NoUpperKids(p)
  {
  }

  // ---------------------------------------------------------------- the recursion

  /** What pruning has made of the upper directory once a region has been visited. */
  ghost function Visited(s: State, region: iset<Path>, prune: bool): map<Path, UpperEntry> {
    if prune then Pruned(s, region) else s.upper
  }

  /** Where the walk has not been yet, the upper directory is as it was. */
  lemma NotVisited(s: State, region: iset<Path>, prune: bool, k: Path)
    requires k !in region
    ensures k in Visited(s, region, prune) <==> k in s.upper
    ensures k in s.upper ==> Visited(s, region, prune)[k] == s.upper[k]
  {
  }

  /** Visiting a marker, a file or a link. */
  lemma LeafVisited(s: State, region: iset<Path>, p: Path, prune: bool)
    requires s.Inv() && p in s.upper && p != [] && !s.upper[p].UDir? && region !! Branch(p)
    ensures var t := s.With(Visited(s, region, prune));
            && p in t.upper && t.upper[p] == s.upper[p]
            && Significant(t, p) == Significant(s, p) && ChangeOf(t, p) == ChangeOf(s, p)
            && Visited(s, region + Branch(p), prune) == (if prune && !Significant(s, p) then t.upper - {p} else t.upper)
    ensures Reports(s, Branch(p), if Significant(s, p) then [ChangeOf(s, p)] else [])
  {
    assert AtOrBelow(p, p);
    NotVisited(s, region, prune, p);
    LeafBranch(s, region, p);
  }

  /** Visiting a directory: what is below it first, then the directory itself. */
  lemma DirVisited(s: State, region: iset<Path>, c: Path, prune: bool, list: seq<FileChange>)
    requires s.Inv() && c in s.upper && c != [] && s.upper[c].UDir? && region !! Branch(c)
    requires Reports(s.With(Visited(s, region, prune)), Subtree(c), list)
    ensures Reports(s, Branch(c), list)
    ensures var t := s.With(Visited(s, region, prune));
            var below := Visited(t, Subtree(c), prune);
            && c in below
            && Visited(s, region + Branch(c), prune) ==
               if prune && s.With(below).NoUpperKids(c) then below - {c} else below
  {
    var t := s.With(Visited(s, region, prune));
    BranchIsRootAndSubtree(c);
    SubtreeUnvisited(s, region, c, prune);
    ReportsSame(s, t, Subtree(c), list);
    PrunedTwice(s, region, Subtree(c));
    DirBranch(s, region, c, list);
  }

  lemma SubtreeUnvisited(s: State, region: iset<Path>, c: Path, prune: bool)
    requires region !! Branch(c)
    ensures var u := Visited(s, region, prune);
            forall d :: d in Subtree(c) ==> (d in s.upper <==> d in u) && (d in s.upper ==> s.upper[d] == u[d])
  {
    BranchIsRootAndSubtree(c);
    forall d | d in Subtree(c)
      ensures var u := Visited(s, region, prune); (d in s.upper <==> d in u) && (d in s.upper ==> s.upper[d] == u[d])
    {
      assert d in Branch(c);
      NotVisited(s, region, prune, d);
    }
  }

  method DiffEntry(fs: Fs.UnionFs, rel: Path, name: Name, prune: bool, faults: Fs.Faults,
                   ghost s: State, ghost region: iset<Path>)
    returns (list: seq<FileChange>, ok: bool)
    requires fs.Valid() && fs.writable && s.Inv() && fs.S() == s.With(Visited(s, region, prune))
    requires PlainPath(rel) && rel + [name] in s.upper && rel + [name] in fs.upper
    requires fs.upper[rel + [name]] == s.upper[rel + [name]] && region !! Branch(rel + [name])
    modifies fs`upper
    ensures fs.Valid()
    ensures ok ==> Reports(s, Branch(rel + [name]), list)
    ensures ok ==> fs.upper == Visited(s, region + Branch(rel + [name]), prune)
    ensures faults == {} && (forall p :: fs.BlocksAtHand(p)) ==> ok
    decreases |BranchKeys(fs.upper, rel + [name])|, 1
  {
    var p := rel + [name];
    assert Parent(p) == rel && Base(p) == name;
    if IsMarkerName(name) {
      assert IsMarker(p);
      LeafVisited(s, region, p, prune);
      list := DiffMarker(fs, rel, name);
      return list, true;
    }
    PlainChild(rel, name);
    if fs.upper[p].UDir? {
      list, ok := DiffDirectory(fs, p, prune, faults, s, region);
      return;
    }
    LeafVisited(s, region, p, prune);
    list, ok := DiffFile(fs, p, prune, faults);
  }

  method DiffDirectory(fs: Fs.UnionFs, c: Path, prune: bool, faults: Fs.Faults,
                       ghost s: State, ghost region: iset<Path>)
    returns (list: seq<FileChange>, ok: bool)
    requires fs.Valid() && fs.writable && s.Inv() && fs.S() == s.With(Visited(s, region, prune))
    requires PlainPath(c) && c != [] && c in s.upper && s.upper[c].UDir? && region !! Branch(c)
    requires c in fs.upper && fs.upper[c].UDir?
    modifies fs`upper
    ensures fs.Valid()
    ensures ok ==> Reports(s, Branch(c), list)
    ensures ok ==> fs.upper == Visited(s, region + Branch(c), prune)
    ensures faults == {} && (forall p :: fs.BlocksAtHand(p)) ==> ok
    decreases |BranchKeys(fs.upper, c)|, 0
  {
    BranchIsMore(fs.upper, c);
    list, ok := DiffUpperDir(fs, c, prune, faults);
    if !ok {
      return;
    }
    DirVisited(s, region, c, prune, list);
    if prune {
      var empty, read := IsEmptyUpper(fs, c, faults);
      if !read {
        return [], false;
      }
      if empty {
        ok := RemoveUpperEntry(fs, c, faults);
      }
    }
  }

  method IsEmptyUpper(fs: Fs.UnionFs, c: Path, faults: Fs.Faults) returns (empty: bool, ok: bool)
    ensures ok ==> (empty <==> fs.S().NoUpperKids(c))
    ensures faults == {} ==> ok
  {
    if Fs.CallReadDir(c) in faults {
      return false, false;
    }
    var children := fs.UpperNames(c);
    empty, ok := children == {}, true;
    forall q | q in fs.upper && q != []
      ensures Parent(q) == c ==> Base(q) in children
    {
      assert q == Parent(q) + [Base(q)];
    }
    if !empty {
      var n :| n in children;
      assert Parent(c + [n]) == c;
    }
  }

  /** The branches of distinct children do not meet, and together they are the subtree. */
  lemma NextChild(s: State, rel: Path, names: seq<Name>, k: nat, prune: bool)
    requires s.UpperOk() && k < |names| && StrictlySorted((n: Name) => n, names)
    requires forall n :: n in names <==> rel + [n] in s.upper
    ensures Under(rel, Seen(names[..k])) !! Branch(rel + [names[k]])
    ensures Under(rel, Seen(names[..k + 1])) == Under(rel, Seen(names[..k])) + Branch(rel + [names[k]])
    ensures var p, u := rel + [names[k]], Visited(s, Under(rel, Seen(names[..k])), prune);
            p in s.upper && p in u && u[p] == s.upper[p] && u.Keys <= s.upper.Keys
  {
    var name := names[k];
    var p := rel + [name];
    assert name in names;
    assert name !in names[..k] by {
      if j :| 0 <= j < k && names[..k][j] == name { LessTotal(names[j], name); }
    }
    assert names[..k + 1] == names[..k] + [name];
    assert Seen(names[..k + 1]) == Seen(names[..k]) + {name};
    UnderOneMore(rel, Seen(names[..k]), name);
    forall q | q in Branch(p)
      ensures q !in Under(rel, Seen(names[..k]))
    {
      assert q[|rel|] == name;
    }
    assert p in Branch(p);
    NotVisited(s, Under(rel, Seen(names[..k])), prune, p);
  }

  lemma AllChildren(s: State, rel: Path, names: seq<Name>, list: seq<FileChange>, prune: bool)
    requires s.UpperOk() && forall n :: n in names <==> rel + [n] in s.upper
    requires Reports(s, Under(rel, Seen(names)), list)
    ensures Reports(s, Subtree(rel), list)
    ensures Visited(s, Under(rel, Seen(names)), prune) == Visited(s, Subtree(rel), prune)
  {
    forall q | q in s.upper
      ensures q in Under(rel, Seen(names)) <==> q in Subtree(rel)
    {
      if Below(rel, q) {
        var c := q[..|rel| + 1];
        UpperAncestors(s, c, q);
        assert c == rel + [q[|rel|]];
      }
    }
  }

  /** Reports what lies below a directory of the upper, in name order, recursively. */
  method DiffUpperDir(fs: Fs.UnionFs, rel: Path, prune: bool, faults: Fs.Faults)
    returns (out: seq<FileChange>, ok: bool)
    requires fs.Valid() && fs.writable && PlainPath(rel) && rel in fs.upper && fs.upper[rel].UDir?
    modifies fs`upper
    ensures fs.Valid()
    ensures ok ==> Reports(old(fs.S()), Subtree(rel), out)
    ensures ok ==> fs.upper == Visited(old(fs.S()), Subtree(rel), prune)
    ensures faults == {} && (forall p :: fs.BlocksAtHand(p)) ==> ok
    decreases |BelowKeys(fs.upper, rel)|, 2
  {
    out := [];
    if Fs.CallReadDir(rel) in faults {
      return [], false;
    }
    ghost var s := fs.S();
    var names := SortedNames(fs.UpperNames(rel));
    ReportsNothing(s);
    UnderNothing(s, rel);
    for k := 0 to |names|
      invariant fs.Valid() && fs.S() == s.With(Visited(s, Under(rel, Seen(names[..k])), prune))
      invariant Reports(s, Under(rel, Seen(names[..k])), out)
    {
      NextChild(s, rel, names, k, prune);
      ChildBranchIsNoMore(s.upper, fs.upper, rel, names[k]);
      ghost var region := Under(rel, Seen(names[..k]));
      var list;
      list, ok := DiffEntry(fs, rel, names[k], prune, faults, s, region);
      if !ok {
        return [], false;
      }
      ReportsJoin(s, region, Branch(rel + [names[k]]), out, list);
      out := out + list;
    }
    assert names[..|names|] == names;
    AllChildren(s, rel, names, out, prune);
    ok := true;
  }

  ghost function Seen(names: seq<Name>): set<Name> {
    set n | n in names
  }

  lemma UnderNothing(s: State, rel: Path)
    ensures Under(rel, {}) == iset{} && Pruned(s, iset{}) == s.upper && Seen([]) == {}
  {
  }

  // ---------------------------------------------------------------- the reply

  /** The changes of a mount sorted by path. Pruning changes the upper directory as `AfterPrune`
      says, and nothing in the reply. */
  method DiffMount(fs: Fs.UnionFs, prune: bool, faults: Fs.Faults) returns (changes: seq<FileChange>, ok: bool)
    requires fs.Valid()
    modifies fs`upper
    ensures fs.Valid()
    ensures ok ==> Reports(old(fs.S()), Subtree([]), changes)
    ensures ok ==> StrictlySorted((c: FileChange) => Render(c.path), changes)
    ensures ok ==> fs.S() == if prune && fs.writable then old(Proofs.AfterPrune(fs.S())) else old(fs.S())
    ensures faults == {} && (forall p :: fs.BlocksAtHand(p)) ==> ok
  {
    ghost var s := fs.S();
    var found: seq<FileChange> := [];
    if fs.writable {
      found, ok := DiffUpperDir(fs, [], prune, faults);
      if !ok {
        return [], false;
      }
    } else {
      NothingToReport(s);
    }
    changes := SortBy((c: FileChange) => Render(c.path), found);
    forall c | c in found
      ensures IsSplit(c.path)
    {
      Proofs.ChangeAt(s, found, c);
    }
    SortedPathsAreStrict((c: FileChange) => c.path, found, changes);
    ok := true;
  }

  lemma NothingToReport(s: State)
    requires s.upper == map[[] := UDir]
    ensures Reports(s, Subtree([]), [])
  {
  }

  /** The reply is determined by the state of the mount: with or without pruning, it is the same
      list, and after pruning it stays the same. */
  lemma ReplyIsUnique(s: State, a: seq<FileChange>, b: seq<FileChange>)
    requires s.Inv()
    requires Reports(s, Subtree([]), a) && StrictlySorted((c: FileChange) => Render(c.path), a)
    requires Reports(s, Subtree([]), b) || Reports(Proofs.AfterPrune(s), Subtree([]), b)
    requires StrictlySorted((c: FileChange) => Render(c.path), b)
    ensures a == b
  {
    Proofs.PruneTwiceIsOnce(s, b);
    StrictlySortedUnique((c: FileChange) => Render(c.path), a, b);
  }
}
