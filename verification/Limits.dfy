/** Where the source departs from what its documentation or common practice leads one to expect:
    one small state for each, next to the exact conditions proved elsewhere. */
module Limits {
  import opened Wrappers
  import opened Paths
  import opened Entries
  import opened TreeData
  import opened BlockReads
  import opened InodeTree
  import opened LayerMerge
  import opened MergedTree
  import Tree = LowerView
  import Files = CommittedFiles
  import opened UnionState
  import opened UnionMoves
  import opened MountDiff
  import opened MountDiffProofs
  import opened StateDiff
  import Fs = UnionFs
  import Runs = MountRuns

  const MARK := UFile(0x1A4, [])

  function Leaf(data: Bytes): LowerEntry {
    LLeaf(RegularKind, "", 0x1A4, data)
  }

  /** A lower directory d with one file x, under any upper directory. */
  function OneFile(d: Name, x: Name, upper: map<Path, UpperEntry>): State {
    State(map[[] := LDir, [d] := LDir, [d, x] := Leaf([])], upper)
  }

  lemma ShortPaths(d: Name, x: Name)
    ensures Parent([d]) == [] && Base([d]) == d && Parent([d, x]) == [d] && Base([d, x]) == x
    ensures Marker([d]) == [MarkerName(d)] && Marker([d, x]) == [d, MarkerName(x)]
    ensures Plain(x) ==> IsMarker([d, MarkerName(x)]) && Target([d, MarkerName(x)]) == [d, x]
  {
    TargetOfMarker([d, x]);
  }

  /** Once its only file has been unlinked, a lower directory lists as empty, yet `Rmdir` finds
      the marker in it and refuses. */
  lemma EmptiedDirStays(d: Name, x: Name)
    requires Plain(d) && Plain(x)
    ensures var s := OneFile(d, x, map[[] := UDir, [d] := UDir, [d, MarkerName(x)] := MARK]);
            s.Inv() && s.IsDir([d]) && LooksEmpty(s, [d]) && !s.NoUpperKids([d])
  {
    var s := OneFile(d, x, map[[] := UDir, [d] := UDir, [d, MarkerName(x)] := MARK]);
    ShortPaths(d, x);
    PlainIsNotMarker([d]);
    PlainIsNotMarker([]);
    assert s.IsDir([d]);
  }

  lemma FreshIsOk(d: Name, x: Name)
    requires Plain(d) && Plain(x)
    ensures var s := OneFile(d, x, map[[] := UDir]);
            && s.Inv() && s.Lookup([d, x]) == Some(File([])) && s.IsDir([d]) && s.NoLowerKids([d, x])
            && [d, x] in s.lower && [d, x] !in s.upper
  {
    ShortPaths(d, x);
    EmptyUpperIsOk(OneFile(d, x, map[[] := UDir]));
  }

  /** A visible lower file without children, once the marker over it has been left behind. */
  lemma MarkerHides(s: State, parent: Path, p: Path)
    requires s.Inv() && PlainPath(p) && p != [] && Parent(p) == parent && s.IsDir(parent) && s.Lookup(p).Some?
    requires p in s.lower && p !in s.upper && s.NoLowerKids(p)
    ensures var t := s.With(WithDirs(s.upper, parent, |parent|)[Marker(p) := MARK]);
            t.Inv() && t.Lookup(p).None? && t.View() == s.View() - {p}
  {
    PlainParent(p);
    WithDirsIsInvisible(s, parent, |parent|);
    WithDirsAdds(s.upper, parent, |parent|);
    var w := s.With(WithDirs(s.upper, parent, |parent|));
    ViewAt(s, p);
    ViewAt(w, p);
    assert parent[..|parent|] == parent;
    Fs.MarkerLeftBehind(w, p, MARK);
  }

  /** Unlinking a lower file when the closing of its marker file fails: the call meets the condition
      under which `Remove` reports an error and leaves the marker, which hides the file. */
  lemma FailedUnlinkHides(d: Name, x: Name)
    requires Plain(d) && Plain(x)
    ensures var s, p := OneFile(d, x, map[[] := UDir]), [d, x];
            var faults := {Fs.CallCloseMarker(Marker(p))};
            var t := s.With(WithDirs(s.upper, [d], 1)[Marker(p) := MARK]);
            && s.Inv() && p in s.lower
            && Fs.MayRemove(s, p, false, faults) && Fs.LeavesMarker(s, p, faults, {})
            && t.Inv() && t.Lookup(p).None? && t.View() == s.View() - {p}
  {
    ShortPaths(d, x);
    FreshIsOk(d, x);
    MarkerHides(OneFile(d, x, map[[] := UDir]), [d], [d, x]);
  }

  /** Making a directory where a lower file was removed, when the call fails and so does setting the
      marker again: the condition under which a failing `Mkdir` shows the file once more. */
  lemma FailedMkdirUncovers(d: Name, x: Name)
    requires Plain(d) && Plain(x)
    ensures var s, p := OneFile(d, x, map[[] := UDir, [d] := UDir, [d, MarkerName(x)] := MARK]), [d, x];
            var faults, undo := {Fs.CallMkdir(p)}, {Fs.CallOpen(Marker(p))};
            var t := s.With(s.upper - {Marker(p)});
            && s.Inv() && s.Lookup(p).None? && Fs.EntryCanBeMade(s.upper, [d], x, faults) && Marker(p) in s.upper
            && t.Inv() && t.Lookup(p) == Some(File([]))
  {
    var s, p := OneFile(d, x, map[[] := UDir, [d] := UDir, [d, MarkerName(x)] := MARK]), [d, x];
    ShortPaths(d, x);
    EmptiedDirStays(d, x);
    Fs.MarkerUncovers(s, p);
    assert [d] + [x] == p && s.lower[p] == Leaf([]);
    ViewAt(s.With(s.upper - {Marker(p)}), p);
  }

  /** One directory in the upper half, over d or beside it, makes a good state. */
  lemma OneDirIsOk(d: Name, x: Name, c: Name)
    requires Plain(d) && Plain(x) && Plain(c)
    ensures var s := OneFile(d, x, map[[] := UDir, [c] := UDir]);
            s.Inv() && s.Lookup([c]) == Some(Dir) && s.Lookup([d, x]) == Some(File([]))
  {
    ShortPaths(d, x);
    ShortPaths(c, x);
    PlainIsNotMarker([c]);
    PlainIsNotMarker([]);
  }

  /** A rename of a directory with a lower child q leaves q behind, where `stat`, which looks at
      the last component's marker only, still finds it and a walk from the root does not. */
  lemma RenamedDirLeavesLower(s: State, src: Path, dst: Path, q: Path)
    requires s.Inv() && CanMove(s, src, dst) && q in s.lower && q != [] && Parent(q) == src
    ensures var t := Renamed(s, src, dst, MARK);
            !t.Inv() && t.Lookup(q).Some? && t.Walk(q).None?
  {
    var t := Renamed(s, src, dst, MARK);
    LookupAfterRename(s, src, dst, MARK, q);
    LookupAfterRename(s, src, dst, MARK, src);
    if t.Inv() { StatIsWalk(t, q); }
  }

  /** Such renames are accepted. */
  lemma RenamedDirExample(d: Name, x: Name, e: Name)
    requires Plain(d) && Plain(x) && Plain(e) && d != e
    ensures var s := OneFile(d, x, map[[] := UDir, [d] := UDir]);
            && s.Inv() && CanMove(s, [d], [e]) && [d, x] in s.lower && Parent([d, x]) == [d]
            && Fs.RenameAccepted(s, [], d, [], e, 0, true, true)
  {
    OneDirIsOk(d, x, d);
    ShortPaths(d, x);
    ShortPaths(e, x);
    assert [] + [d] == [d] && [] + [e] == [e];
  }

  /** Renaming an upper directory over a lower one goes through even if that one is not empty, and
      merges the two: what was below the destination is still there, so it is no move. */
  lemma RenameOverLowerMerges(s: State, src: Path, dst: Path, q: Path)
    requires s.Inv() && CanMove(s, src, dst) && src !in s.lower && s.IsDir(dst)
    requires PlainPath(q) && q != [] && Parent(q) == dst && s.Lookup(q).Some? && src + [Base(q)] !in s.upper
    ensures var t := Renamed(s, src, dst, MARK);
            t.Lookup(q) == s.Lookup(q) && t.View() != MoveSubtree(s.View(), src, dst)
  {
    MovesApart(s, src, dst);
    assert dst < q && q[|dst|..] == [Base(q)];
    assert src <= q ==> src == q || src <= dst;
    var r := src + [Base(q)];
    assert r !in s.lower by { assert Parent(r) == src; }
    PlainRebase(dst, src, q);
    if s.Hidden(r) { HiddenIsLowerOnly(s, r); }
    LookupAfterRename(s, src, dst, MARK, q);
    assert [Base(q)] == q[|dst|..] && src + q[|dst|..] !in s.upper;
    assert !MoveExact(s, src, dst);
    RenameIsMoveExactly(s, src, dst, MARK);
  }

  lemma RenameOverLowerExample(d: Name, x: Name, e: Name)
    requires Plain(d) && Plain(x) && Plain(e) && d != e
    ensures var s := OneFile(d, x, map[[] := UDir, [e] := UDir]);
            && s.Inv() && CanMove(s, [e], [d]) && [e] !in s.lower && s.IsDir([d])
            && s.Lookup([d, x]).Some? && Parent([d, x]) == [d] && [e] + [Base([d, x])] !in s.upper
            && Fs.RenameAccepted(s, [], e, [], d, 0, true, true)
  {
    OneDirIsOk(d, x, e);
    ShortPaths(d, x);
    ShortPaths(e, x);
    assert [] + [d] == [d] && [] + [e] == [e];
  }

  /** Two empty directories in the upper directory: a flat file system renames one over the other, the
      mount refuses to. */
  lemma NotOverEmptyDir(d: Name, e: Name)
    requires Plain(d) && Plain(e) && d != e
    ensures var s := State(map[[] := LDir], map[[] := UDir, [d] := UDir, [e] := UDir]);
            var r := Runs.Rename([], d, [], e);
            && s.Inv() && Runs.Sent(s, r) && Runs.FlatAccepts(s.View(), r) && !Runs.Acceptable(s, true, r)
  {
    var s := State(map[[] := LDir], map[[] := UDir, [d] := UDir, [e] := UDir]);
    var r := Runs.Rename([], d, [], e);
    ShortPaths(d, e);
    ShortPaths(e, d);
    PlainIsNotMarker([d]);
    PlainIsNotMarker([e]);
    PlainIsNotMarker([]);
    assert [] + [d] == [d] && [] + [e] == [e];
    assert s.Inv();
    ViewAt(s, []);
    ViewAt(s, [d]);
    ViewAt(s, [e]);
    forall n | Plain(n)
      ensures [e] + [n] !in s.View()
    {
      PlainChild([e], n);
      ViewAt(s, [e] + [n]);
      assert Parent([e, n]) == [e] && [e] + [n] == [e, n];
    }
    Runs.RenameOfDirsExactly(s, r);
  }

  // ---------------------------------------------------------------- layers

  /** A layer that holds one opaque marker. */
  function OpaqueLayer(dir: Path): Layer {
    [FileEntry(dir + [".wh..wh..opq"], RegularKind, 0x1A4, 0, "", [], [])]
  }

  /** By the OCI image format an opaque marker hides everything the lower layers have below its
      directory. The merge does that at every directory but the root, where it hides nothing. */
  lemma OpaqueHidesBelowExactly(m: FileMap, dir: Path)
    requires ProperPath(dir) && forall q :: q in m ==> !IsMarker(q) && q != [] && ProperPath(q)
    ensures dir == [] ==> MergeStep(m, OpaqueLayer(dir)) == m
    ensures MergeStep(m, OpaqueLayer(dir)) == (map q | q in m && !Below(dir, q) :: m[q]) <==> dir != [] || m == map[]
  {
    var layer, f := OpaqueLayer(dir), OpaqueLayer(dir)[0];
    var t := MergeStep(m, layer);
    assert Base(f.path) == OPAQUE_NAME && Parent(f.path) == dir && IsMarkerName(OPAQUE_NAME);
    ProperIsResolved(dir);
    forall q
      ensures q in t <==> q in m && !(dir != [] && Below(dir, q))
      ensures q in t ==> t[q] == m[q]
    {
      MergeStepAt(m, layer, q);
      assert !Lists(layer, q);
      assert Hides(layer, q) <==> HiddenBy(f, q) by { assert f in layer; }
      if q in m { assert Proper(q[0]); }
    }
    if dir == [] && m != map[] {
      var q :| q in m;
      assert Below([], q) && q in t;
    }
  }

  function Listed(p: Path, kind: Kind): FileEntry {
    FileEntry(p, kind, 0x1A4, 0, "", [], [])
  }

  /** A layer with a directory a and a file b in it, under a layer with a file a. */
  function FileOverDir(a: Name, b: Name): seq<Layer> {
    [[Listed([a], DirKind), Listed([a, b], RegularKind)], [Listed([a], RegularKind)]]
  }

  lemma NothingHidden(m: FileMap, layer: Layer)
    requires forall f :: f in layer ==> !IsMarker(f.path)
    ensures Unhidden(m, layer) == m
  {
  }

  /** A layer of two plain entries lists both, in their order. */
  lemma TwoEntries(f: FileEntry, g: FileEntry)
    requires f.path != [] && g.path != [] && f.path != g.path && !IsMarker(f.path) && !IsMarker(g.path)
    ensures MergeAll([[f, g]]).Keys == {f.path, g.path} && OrderAll([[f, g]]) == [f.path, g.path]
  {
    var layer: Layer := [f, g];
    var layers: seq<Layer> := [layer];
    assert layers[..0] == [] && layer[..1] == [f] && layer[..1][..0] == [];
    forall q
      ensures q in MergeAll([layer]) <==> q == f.path || q == g.path
    {
      MergeStepAt(map[], layer, q);
      if q == f.path { assert ListsAt(layer, 0, q); }
      if q == g.path { assert ListsAt(layer, 1, q); }
    }
    assert Restrict([], Unhidden(map[], layer).Keys) == [];
    var first: Layer := [f];
    assert Appended([], first) == [f.path] by { assert first[..0] == []; }
    assert Appended([], layer) == [f.path, g.path];
  }

  lemma FileOverDirOrder(a: Name, b: Name)
    requires Plain(a) && Plain(b)
    ensures OrderAll(FileOverDir(a, b)) == [[a], [a, b]]
    ensures [a] in MergeAll(FileOverDir(a, b)) && MergeAll(FileOverDir(a, b))[[a]] == Listed([a], RegularKind)
  {
    ShortPaths(a, b);
    var layers := FileOverDir(a, b);
    var low, top, f := layers[0], layers[1], Listed([a], RegularKind);
    var m := MergeAll([low]);
    TwoEntries(low[0], low[1]);
    assert layers[..1] == [low] && top[..0] == [];
    NothingHidden(m, top);
    RestrictAll([[a], [a, b]], m.Keys);
    assert Appended([[a], [a, b]], top) == [[a], [a, b]];
    MergeStepAt(m, top, [a]);
    assert ListsAt(top, 0, [a]);
    assert Listing(top, [a]) == f;
  }

  /** A file of a higher layer does not override a lower directory that is listed with its content:
      the file takes the directory's place in the list, and the content, listed later, turns it into
      a directory again. */
  lemma FileOverDirIsLost(a: Name, b: Name)
    requires Plain(a) && Plain(b)
    ensures var m, t := MergeAll(FileOverDir(a, b)), Fold(ListAll(FileOverDir(a, b)));
            [a] in m && m[[a]] == Listed([a], RegularKind) && !([a] in t && t[[a]] == LeafOf(m[[a]]))
  {
    var listed := ListAll(FileOverDir(a, b));
    FileOverDirOrder(a, b);
    ListAllEnumerates(FileOverDir(a, b));
    assert PathsIn(listed)[0] == [a] && PathsIn(listed)[1] == [a, b];
    assert listed[0] in listed;
    assert Overrides(listed[1], [a]);
    LeafStaysExactly(listed, 0);
  }

  // ---------------------------------------------------------------- reads

  /** A file of two bytes with an empty block between them. */
  function Gapped(): FileNode {
    FileNode(2, "f", false, RegularKind, "", 0x1A4, 2, ["x", "gap", "y"], Some([0, 1, 1]), map[], [])
  }

  function GappedBlocks(x: Byte, y: Byte): BlockStore {
    map["x" := [x], "gap" := [], "y" := [y]]
  }

  lemma GappedStarts(x: Byte, y: Byte)
    ensures var n, full := Gapped(), GappedBlocks(x, y);
            && HasBlocks(full, n) && Content(full, n) == [x, y]
            && Start(full, n, 0) == 0 && Start(full, n, 1) == 1 && Start(full, n, 2) == 1 && Start(full, n, 3) == 2
  {
    var n, full := Gapped(), GappedBlocks(x, y);
    assert Joined(full, n.blocks, 1) == [x];
    assert Joined(full, n.blocks, 2) == [x];
    assert Joined(full, n.blocks, 3) == [x, y];
  }

  /** Without its empty block the file can be read in two parts and not in one. */
  lemma ReadInPartsOnly(x: Byte, y: Byte)
    ensures var n, full := Gapped(), GappedBlocks(x, y);
            var store := full - {"gap"};
            && WellFormed(full, 0, n) && PartOf(store, full) && Allocatable(n, 0, 2)
            && ReadResult(store, full, n, 0, 1) == Ok([x])
            && ReadResult(store, full, n, 1, 1) == Ok([y])
            && ReadResult(store, full, n, 0, 2) == Err(BlockMissing)
  {
    var n, full := Gapped(), GappedBlocks(x, y);
    var store := full - {"gap"};
    GappedStarts(x, y);
    assert Available(store, full, n, 0, 1) && Available(store, full, n, 1, 2);
    assert Slice([x, y], 0, 1) == [x] && Slice([x, y], 1, 1) == [y];
    assert Readable(store, full, n, 0, 1) && Readable(store, full, n, 1, 1);
    AdjacentReadsJoin(store, full, n, 0, 1, 1);
  }

  /** A file of two blocks of one byte each, whose sizes are not recorded. */
  function TwoBytes(name: Name): FileEntry {
    FileEntry([name], RegularKind, 0x1A4, 2, "", ["x", "y"], [])
  }

  /** It is listed by a commit with blocks of one byte, below a commit with blocks of two. */
  function MixedBlockSizes(name: Name, x: Byte, y: Byte): seq<ResolvedCommit> {
    [ResolvedCommit("", "", Some(map["x" := [x], "y" := [y]]), 1, [TwoBytes(name)]),
     ResolvedCommit("", "", Some(map[]), 2, [])]
  }

  /** Such a stack is mounted with blocks of two bytes, and reading the whole file gives its first half. */
  lemma MixedBlockSizesMisread(name: Name, x: Byte, y: Byte)
    ensures var commits, n := MixedBlockSizes(name, x, y), Tree.AsNode(LeafOf(TwoBytes(name)));
            var full := commits[0].store.value;
            && Files.FileOk(full, commits[0].blockSize, TwoBytes(name)) && MountBlockSize(commits) == 2
            && Content(full, n) == [x, y] && FixedResult(full, n, MountBlockSize(commits), 0, 2) == Ok([x])
            && !FixedLayout(full, n, 2)
  {
    var commits, n := MixedBlockSizes(name, x, y), Tree.AsNode(LeafOf(TwoBytes(name)));
    var full := commits[0].store.value;
    assert Joined(full, n.blocks, 0) == [] && Joined(full, n.blocks, 1) == [x] && Joined(full, n.blocks, 2) == [x, y];
    assert commits[..1][..0] == [];
    assert FixedRead(full, n, 2, 0, 2, 1) == Ok([]);
    assert full["x"] == [x] && [x][0..1] == [x] && [x] + [] == [x];
    assert FixedRead(full, n, 2, 0, 2, 0) == Prepended([x], Ok([]));
    assert !StartsFixed(full, n, 2, 1);
  }

  // ---------------------------------------------------------------- differences

  function Replaced(d: Name, data: Bytes): State {
    State(map[[] := LDir, [d] := Leaf(data)], map[[] := UDir, [d] := UDir])
  }

  lemma ReplacedIsOk(d: Name, data: Bytes)
    requires Plain(d)
    ensures Replaced(d, data).Inv() && PlainLeaves(Replaced(d, data))
    ensures Replaced(d, data).Lookup([d]) == Some(Dir)
    ensures Shadowed(Replaced(d, data), [d])
    ensures forall k :: !Significant(Replaced(d, data), k)
  {
    ShortPaths(d, d);
    PlainIsNotMarker([d]);
    PlainIsNotMarker([]);
  }

  /** A file replaced by a directory of the same name: the diff of the mount lists nothing, its
      deltas miss the file's bytes, and pruning brings the file back. */
  lemma ReplacedByDirUnreported(d: Name, data: Bytes)
    requires Plain(d) && data != []
    ensures var s := Replaced(d, data);
            && s.Inv() && s.Lookup([d]) == Some(Dir)
            && Reports(s, Subtree([]), []) && TotalBytes(s.View()) != TotalBytes(LowerView(s))
            && AfterPrune(s).Lookup([d]) == Some(File(data))
  {
    var s := Replaced(d, data);
    ReplacedIsOk(d, data);
    assert Reports(s, Subtree([]), []);
    DeltasConserveBytesExactly(s, []);
    LookupAfterPrune(s, [d]);
  }

  /** An entry whose kind alone changed is no change to `Diff`. */
  lemma KindChangeUnreported(p: Path)
    ensures var file := FileEntry(p, RegularKind, 0x1ED, 0, "", [], []);
            var dir := file.(kind := DirKind);
            IsDiff(map[p := file], map[p := dir], []) && IsDiff(map[p := dir], map[p := file], [])
  {
  }
}
