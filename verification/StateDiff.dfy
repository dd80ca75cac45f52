/** The difference between two committed states. */
module StateDiff {
  import opened Wrappers
  import opened Paths
  import opened PathSums
  import opened Ordering
  import opened Rendering
  import opened Entries
  import opened TreeData
  import opened LayerMerge
  import opened MergedTree
  import opened LowerTrees = LowerView
  import opened MountDiff
  import opened MountDiffProofs

  /** Entries count as the same by size, mode, link and blocks; kind and layout are not compared. */
  predicate SameEntry(a: FileEntry, b: FileEntry) {
    a.size == b.size && a.mode == b.mode && a.link == b.link && a.blocks == b.blocks
  }

  method SameFileEntry(a: FileEntry, b: FileEntry) returns (same: bool)
    ensures same == SameEntry(a, b)
  {
    if a.size != b.size || a.mode != b.mode || a.link != b.link || |a.blocks| != |b.blocks| {
      return false;
    }
    for i := 0 to |a.blocks|
      invariant a.blocks[..i] == b.blocks[..i]
    {
      if a.blocks[i] != b.blocks[i] {
        return false;
      }
    }
    assert a.blocks[..|a.blocks|] == a.blocks;
    same := true;
  }

  /** The change at one path, if any. */
  function ChangeFor(from: FileMap, to: FileMap, p: Path): Option<FileChange> {
    if p in to then
      if p !in from then Some(FileChange(p, Added, to[p].size))
      else if SameEntry(from[p], to[p]) then None
      else Some(FileChange(p, Modified, to[p].size - from[p].size))
    else if p in from then Some(FileChange(p, Removed, 0 - from[p].size))
    else None
  }

  /** The list holds the change of every path that has one, once. */
  ghost predicate IsDiff(from: FileMap, to: FileMap, list: seq<FileChange>) {
    && (forall c :: c in list <==> ChangeFor(from, to, c.path) == Some(c))
    && (forall i, j :: 0 <= i < j < |list| ==> list[i].path != list[j].path)
  }

  /** The last entry listed for each path. */
  function ByPath(files: seq<FileEntry>): FileMap {
    if files == [] then map[]
    else ByPath(files[..|files| - 1])[files[|files| - 1].path := files[|files| - 1]]
  }

  method CollectByPath(files: seq<FileEntry>) returns (m: FileMap)
    ensures m == ByPath(files)
  {
    m := map[];
    for i := 0 to |files|
      invariant m == ByPath(files[..i])
    {
      assert files[..i + 1][..i] == files[..i];
      m := m[files[i].path := files[i]];
    }
    assert files[..|files|] == files;
  }

  /** The i-th entry is the last one listed for p. */
  predicate LastListed(files: seq<FileEntry>, i: int, p: Path) {
    0 <= i < |files| && files[i].path == p && forall j :: i < j < |files| ==> files[j].path != p
  }

  ghost predicate Unlisted(files: seq<FileEntry>, p: Path) {
    forall f :: f in files ==> f.path != p
  }

  /** A path is known exactly when it is listed, and the entry that counts is the last one listed. */
  lemma {:induction false} LastListedCounts(files: seq<FileEntry>, p: Path) returns (i: nat)
    ensures p in ByPath(files) <==> !Unlisted(files, p)
    ensures p in ByPath(files) ==> LastListed(files, i, p) && ByPath(files)[p] == files[i]
  {
    i := 0;
    if files != [] {
      var last := |files| - 1;
      var front := files[..last];
      assert files == front + [files[last]];
      if files[last].path == p {
        i := last;
      } else {
        i := LastListedCounts(front, p);
        assert forall j :: 0 <= j < last ==> files[j] == front[j];
      }
    }
  }

  lemma OneIsLast(files: seq<FileEntry>, i: int, j: int, p: Path)
    requires LastListed(files, i, p) && LastListed(files, j, p)
    ensures i == j
  {
  }

  /** What a change says of two lists: a path that only one of them lists, with the size last listed; or
      one that both list, when the entries last listed differ in size, mode, link or blocks. */
  ghost predicate TrueOf(fromFiles: seq<FileEntry>, toFiles: seq<FileEntry>, c: FileChange) {
    match c.kind
    case Added =>
      Unlisted(fromFiles, c.path) && exists j :: LastListed(toFiles, j, c.path) && c.delta == toFiles[j].size
    case Removed =>
      Unlisted(toFiles, c.path) && exists i :: LastListed(fromFiles, i, c.path) && c.delta == 0 - fromFiles[i].size
    case Modified =>
      exists i, j :: LastListed(fromFiles, i, c.path) && LastListed(toFiles, j, c.path)
                     && Differ(fromFiles[i], toFiles[j]) && c.delta == toFiles[j].size - fromFiles[i].size
  }

  predicate Differ(a: FileEntry, b: FileEntry) {
    a.size != b.size || a.mode != b.mode || a.link != b.link || a.blocks != b.blocks
  }

  lemma DiffOfLists(fromFiles: seq<FileEntry>, toFiles: seq<FileEntry>, c: FileChange)
    ensures ChangeFor(ByPath(fromFiles), ByPath(toFiles), c.path) == Some(c) <==> TrueOf(fromFiles, toFiles, c)
  {
    var i := LastListedCounts(fromFiles, c.path);
    var j := LastListedCounts(toFiles, c.path);
    forall k | LastListed(fromFiles, k, c.path)
      ensures c.path in ByPath(fromFiles) && k == i
    {
      assert fromFiles[k] in fromFiles;
      OneIsLast(fromFiles, i, k, c.path);
    }
    forall k | LastListed(toFiles, k, c.path)
      ensures c.path in ByPath(toFiles) && k == j
    {
      assert toFiles[k] in toFiles;
      OneIsLast(toFiles, j, k, c.path);
    }
  }

  /** Changes of the paths visited so far. */
  ghost predicate DiffSoFar(from: FileMap, to: FileMap, visited: set<Path>, list: seq<FileChange>) {
    && (forall c :: c in list <==> c.path in visited && ChangeFor(from, to, c.path) == Some(c))
    && (forall i, j :: 0 <= i < j < |list| ==> list[i].path != list[j].path)
  }

  lemma VisitOneMore(from: FileMap, to: FileMap, visited: set<Path>, list: seq<FileChange>, p: Path)
    requires DiffSoFar(from, to, visited, list) && p !in visited
    ensures DiffSoFar(from, to, visited + {p},
                      match ChangeFor(from, to, p) case Some(c) => list + [c] case None => list)
  {
  }

  method ChangesInTo(from: FileMap, to: FileMap) returns (list: seq<FileChange>)
    ensures DiffSoFar(from, to, to.Keys, list)
  {
    list := [];
    var rest := to.Keys;
    while rest != {}
      invariant rest <= to.Keys
      invariant DiffSoFar(from, to, to.Keys - rest, list)
      decreases |rest|
    {
      var p :| p in rest;
      VisitOneMore(from, to, to.Keys - rest, list, p);
      assert to.Keys - rest + {p} == to.Keys - (rest - {p});
      rest := rest - {p};
      if p in from {
        var same := SameFileEntry(from[p], to[p]);
        if !same {
          list := list + [FileChange(p, Modified, to[p].size - from[p].size)];
        }
      } else {
        list := list + [FileChange(p, Added, to[p].size)];
      }
    }
    assert to.Keys - {} == to.Keys;
  }

  /** Once every path of either state is visited, the list is the difference. */
  lemma AllVisited(from: FileMap, to: FileMap, visited: set<Path>, list: seq<FileChange>)
    requires DiffSoFar(from, to, visited, list)
    requires forall p :: p in from || p in to ==> p in visited
    ensures IsDiff(from, to, list)
  {
  }

  method RemovalsFrom(from: FileMap, to: FileMap, changed: seq<FileChange>) returns (list: seq<FileChange>)
    requires DiffSoFar(from, to, to.Keys, changed)
    ensures IsDiff(from, to, list)
  {
    list := changed;
    var rest := from.Keys - to.Keys;
    ghost var visited := to.Keys;
    while rest != {}
      invariant rest <= from.Keys
      invariant forall p :: p in rest ==> p !in visited && p !in to
      invariant forall p :: p in from || p in to ==> p in rest || p in visited
      invariant DiffSoFar(from, to, visited, list)
      decreases |rest|
    {
      var p :| p in rest;
      VisitOneMore(from, to, visited, list, p);
      assert ChangeFor(from, to, p) == Some(FileChange(p, Removed, 0 - from[p].size));
      list := list + [FileChange(p, Removed, 0 - from[p].size)];
      visited := visited + {p};
      rest := rest - {p};
    }
    AllVisited(from, to, visited, list);
  }

  method ChangesOf(from: FileMap, to: FileMap) returns (list: seq<FileChange>)
    ensures IsDiff(from, to, list)
  {
    var changed := ChangesInTo(from, to);
    list := RemovalsFrom(from, to, changed);
  }

  /** The reply: every change between two states, in path order. */
  method Diff(fromFiles: seq<FileEntry>, toFiles: seq<FileEntry>) returns (changes: seq<FileChange>)
    requires forall f :: f in fromFiles + toFiles ==> IsSplit(f.path)  // so is every string
    ensures forall c :: c in changes <==> TrueOf(fromFiles, toFiles, c)
    ensures IsDiff(ByPath(fromFiles), ByPath(toFiles), changes)
    ensures StrictlySorted((c: FileChange) => Render(c.path), changes)
  {
    var from := CollectByPath(fromFiles);
    var to := CollectByPath(toFiles);
    var found := ChangesOf(from, to);
    changes := SortBy((c: FileChange) => Render(c.path), found);
    forall c | c in found
      ensures IsSplit(c.path)
    {
      var _ := LastListedCounts(fromFiles, c.path);
      var _ := LastListedCounts(toFiles, c.path);
    }
    SortedPathsAreStrict((c: FileChange) => c.path, found, changes);
    forall c
      ensures c in changes <==> TrueOf(fromFiles, toFiles, c)
    {
      DiffOfLists(fromFiles, toFiles, c);
    }
  }

  // ---------------------------------------------------------------- what the diff means

  /** The kinds of two entries that agree in link and blocks mean the same: a directory is told from
      everything else, and without a link target the recorded kind decides. */
  predicate KindsAgree(a: FileEntry, b: FileEntry) {
    a.kind == b.kind || (a.kind != DirKind && b.kind != DirKind && a.link != "")
  }

  /** A path both states have and the diff does not list: its two entries look alike, mounted, if and
      only if their kinds agree. */
  lemma UnlistedLooksAlikeExactly(full: BlockStore, from: FileMap, to: FileMap, list: seq<FileChange>, p: Path)
    requires IsDiff(from, to, list) && p in from && p in to && p !in PathsOf(list)
    ensures SeeLower(EntryOf(full, EntryNode(from[p]))) == SeeLower(EntryOf(full, EntryNode(to[p]))) <==>
            KindsAgree(from[p], to[p])
  {
    ListedExactly(from, to, list, p);
  }

  /** A path both states have is listed if and only if its entries differ in size, mode, link or blocks. */
  lemma ListedExactly(from: FileMap, to: FileMap, list: seq<FileChange>, p: Path)
    requires IsDiff(from, to, list) && p in from && p in to
    ensures p in PathsOf(list) <==>
            !(from[p].size == to[p].size && from[p].mode == to[p].mode && from[p].link == to[p].link
              && from[p].blocks == to[p].blocks)
  {
    if ChangeFor(from, to, p).Some? {
      assert ChangeFor(from, to, p).value in list;
    }
  }

  function PathsWith(list: seq<FileChange>, kind: ChangeKind): set<Path> {
    set c | c in list && c.kind == kind :: c.path
  }

  /** Taking the removed paths away and putting the added ones in leads from one state's paths to the other's. */
  lemma DiffLeadsFromTo(from: FileMap, to: FileMap, list: seq<FileChange>)
    requires IsDiff(from, to, list)
    ensures from.Keys - PathsWith(list, Removed) + PathsWith(list, Added) == to.Keys
    ensures PathsWith(list, Modified) <= from.Keys * to.Keys
  {
    forall p
      ensures p in PathsWith(list, Removed) <==> p in from && p !in to
      ensures p in PathsWith(list, Added) <==> p in to && p !in from
    {
      if p in from && p !in to { assert FileChange(p, Removed, 0 - from[p].size) in list; }
      if p in to && p !in from { assert FileChange(p, Added, to[p].size) in list; }
    }
  }

  function SizeIn(m: FileMap): Path -> int {
    p => if p in m then m[p].size else 0
  }

  ghost function TotalSize(m: FileMap): int {
    SumOver(m.Keys, SizeIn(m))
  }

  /** How much larger p is in the second state; a path without a change is no larger. */
  function Grown(from: FileMap, to: FileMap): Path -> int {
    p => SizeIn(to)(p) - SizeIn(from)(p)
  }

  lemma GrownAt(from: FileMap, to: FileMap, p: Path)
    ensures Grown(from, to)(p) == (if p in to then to[p].size else 0) - (if p in from then from[p].size else 0)
    ensures match ChangeFor(from, to, p) case Some(c) => c.path == p && c.delta == Grown(from, to)(p)
            case None => Grown(from, to)(p) == 0
  {
    assert SizeIn(to)(p) == if p in to then to[p].size else 0;
    assert SizeIn(from)(p) == if p in from then from[p].size else 0;
  }

  /** The deltas add up to the difference of the total sizes. */
  lemma DiffDeltasAddUp(from: FileMap, to: FileMap, list: seq<FileChange>)
    requires IsDiff(from, to, list)
    ensures SumDelta(list) == TotalSize(to) - TotalSize(from)
  {
    var all := from.Keys + to.Keys;
    var gain := Grown(from, to);
    forall c | c in list
      ensures c.delta == gain(c.path) && c.path in all
    {
      GrownAt(from, to, c.path);
    }
    DeltaIsSum(list, gain);
    forall p | p in all
      ensures gain(p) == 0 || p in PathsOf(list)
    {
      GrownAt(from, to, p);
      if ChangeFor(from, to, p).Some? {
        assert ChangeFor(from, to, p).value in list;
      }
    }
    SumWhereNonzero(all, PathsOf(list), gain, gain);
    SumOfDifference(all, SizeIn(to), SizeIn(from), gain);
    SumWhereNonzero(all, to.Keys, SizeIn(to), SizeIn(to));
    SumWhereNonzero(all, from.Keys, SizeIn(from), SizeIn(from));
  }

  function Swapped(c: FileChange): FileChange {
    FileChange(c.path, match c.kind case Added => Removed case Removed => Added case Modified => Modified, 0 - c.delta)
  }

  function SwapAll(list: seq<FileChange>): seq<FileChange> {
    seq(|list|, i requires 0 <= i < |list| => Swapped(list[i]))
  }

  lemma SwapIsDiff(from: FileMap, to: FileMap, list: seq<FileChange>)
    requires IsDiff(from, to, list)
    ensures IsDiff(to, from, SwapAll(list))
  {
    var swapped := SwapAll(list);
    forall c
      ensures c in swapped <==> ChangeFor(to, from, c.path) == Some(c)
    {
      assert Swapped(Swapped(c)) == c;
      assert ChangeFor(to, from, c.path) == Some(c) <==> ChangeFor(from, to, c.path) == Some(Swapped(c));
      if Swapped(c) in list {
        var i :| 0 <= i < |list| && list[i] == Swapped(c);
        assert swapped[i] == c;
      }
      if c in swapped {
        var i :| 0 <= i < |swapped| && swapped[i] == c;
        assert list[i] == Swapped(c);
      }
    }
  }

  /** Swapping the states swaps ADDED with REMOVED and negates every delta, in the same order. */
  lemma DiffIsAntisymmetric(from: FileMap, to: FileMap, list: seq<FileChange>, back: seq<FileChange>)
    requires IsDiff(from, to, list) && StrictlySorted((c: FileChange) => Render(c.path), list)
    requires IsDiff(to, from, back) && StrictlySorted((c: FileChange) => Render(c.path), back)
    ensures back == SwapAll(list)
  {
    SwapIsDiff(from, to, list);
    StrictlySortedUnique((c: FileChange) => Render(c.path), back, SwapAll(list));
  }
}
