/** What a listed entry becomes: which paths a list gives the built tree, and what stands at them, for
    any list; and what the mount diff makes of files that repeat their entry. */
module BuiltTrees {
  import opened Paths
  import opened Entries
  import opened TreeData
  import opened InodeTree
  import opened MergedTree
  import opened UnionState
  import opened MountDiff
  import Lower = LowerView
  import Reads = BlockReads
  import Proofs = MountDiffProofs
  import Fs = UnionFs

  // ---------------------------------------------------------------- which paths there are

  /** A leaf strictly above p: with it, p is gone. */
  predicate Removes(f: FileEntry, p: Path) {
    [] < f.path < p && f.kind != DirKind
  }

  ghost predicate StaysAfter(files: seq<FileEntry>, i: nat, p: Path) {
    forall k :: i < k < |files| ==> !Removes(files[k], p)
  }

  /** p or something below it is listed, and no leaf above it after that. */
  ghost predicate PresentBy(files: seq<FileEntry>, p: Path) {
    exists j :: 0 <= j < |files| && p <= files[j].path && StaysAfter(files, j, p)
  }

  lemma PresentStep(m: PathMap, f: FileEntry, p: Path)
    requires p != []
    ensures p in AddEntry(m, f) <==> p <= f.path || (p in m && !Removes(f, p))
  {
    if f.path != [] {
      EnsureDirsAt(m, f.path, |f.path|, p);
      EnsureDirsAt(m, f.path, |f.path| - 1, p);
      assert p <= f.path && |p| == |f.path| ==> p == f.path;
      assert f.path <= p && f.path != p ==> f.path < p;
    }
  }

  /** Exactly these paths are in the built tree. */
  lemma {:induction false} PresentExactly(files: seq<FileEntry>, p: Path)
    requires p != []
    ensures p in Fold(files) <==> PresentBy(files, p)
  {
    if files != [] {
      var last := |files| - 1;
      var front, f := files[..last], files[last];
      PresentExactly(front, p);
      PresentStep(Fold(front), f, p);
      PresentOneMore(front, f, p);
      assert files == front + [f];
    }
  }

  lemma PresentOneMore(front: seq<FileEntry>, f: FileEntry, p: Path)
    ensures PresentBy(front + [f], p) <==> p <= f.path || (PresentBy(front, p) && !Removes(f, p))
  {
    var files, last := front + [f], |front|;
    assert StaysAfter(files, last, p);
    forall j | 0 <= j < last
      ensures StaysAfter(files, j, p) <==> StaysAfter(front, j, p) && !Removes(f, p)
    {
      StaysOneMore(front, f, j, p);
    }
    if p <= f.path {
      assert files[last].path == f.path;
    } else {
      if j :| 0 <= j < last && p <= front[j].path && StaysAfter(front, j, p) {
        assert p <= files[j].path;
      }
      if j :| 0 <= j < |files| && p <= files[j].path && StaysAfter(files, j, p) {
        assert p <= front[j].path;
      }
    }
  }

  lemma StaysOneMore(front: seq<FileEntry>, f: FileEntry, j: nat, p: Path)
    requires j < |front|
    ensures StaysAfter(front + [f], j, p) <==> StaysAfter(front, j, p) && !Removes(f, p)
  {
    var files := front + [f];
    assert files[|front|] == f;
    assert forall k :: j < k < |front| ==> files[k] == front[k];
  }

  // ---------------------------------------------------------------- what stands there

  /** The last entry for a path, where nothing later overrides it, if it is a leaf: the tree has a leaf
      there with the kind, the link, the mode and the blocks listed. Its size is the one listed, or the
      length of the link; and it has the starts of its blocks if all their sizes are listed. */
  lemma LeafIsAsListed(files: seq<FileEntry>, i: nat)
    requires i < |files| && LastOfItsPath(files, i) && files[i].kind != DirKind && files[i].path != []
    requires forall j :: i < j < |files| ==> !Overrides(files[j], files[i].path)
    ensures var f, t := files[i], Fold(files);
            && f.path in t && t[f.path].PLeaf?
            && t[f.path].kind == f.kind && t[f.path].link == f.link && t[f.path].mode == f.mode
            && t[f.path].blocks == f.blocks && t[f.path].size == (if f.link != "" then |f.link| else f.size)
            && (t[f.path].offsets.Some? <==> |f.blockSizes| == |f.blocks| && f.blocks != [])
            && (t[f.path].offsets.Some? ==> StartsOf(t[f.path].offsets.value, f.blockSizes))
  {
    var f := files[i];
    LeafStaysExactly(files, i);
    if |f.blockSizes| == |f.blocks| && f.blocks != [] {
      forall k: nat | k + 1 < |f.blockSizes|
        ensures OffsetsOf(f).value[k + 1] == OffsetsOf(f).value[k] + f.blockSizes[k]
      {
        assert f.blockSizes[..k + 1] == f.blockSizes[..k] + [f.blockSizes[k]];
      }
    }
  }

  /** Each block starts where the one before it ends. */
  predicate StartsOf(offsets: seq<nat>, sizes: seq<nat>) {
    && |offsets| == |sizes| && (offsets != [] ==> offsets[0] == 0)
    && forall k | 0 < k < |offsets| :: offsets[k] == offsets[k - 1] + sizes[k - 1]
  }

  /** The node the path leads to says the same. */
  lemma NodeIsAsListed(nodes: map<nat, FileNode>, files: seq<FileEntry>, i: nat)
    requires Presents(nodes, Fold(files))
    requires i < |files| && LastOfItsPath(files, i) && files[i].kind != DirKind && files[i].path != []
    requires forall j :: i < j < |files| ==> !Overrides(files[j], files[i].path)
    ensures var f, ino := files[i], Walk(nodes, files[i].path);
            && ino in nodes && !nodes[ino].isDir
            && nodes[ino].kind == f.kind && nodes[ino].link == f.link && nodes[ino].mode == f.mode
            && nodes[ino].blocks == f.blocks && nodes[ino].size == (if f.link != "" then |f.link| else f.size)
  {
    LeafIsAsListed(files, i);
    assert PresentsAt(nodes, Fold(files), files[i].path);
  }

  /** The last entry for a path, if it is a directory: the tree has a directory there with the mode
      listed, 0o755 for none; unless a leaf above it is listed later. */
  lemma {:induction false} DirIsAsListed(files: seq<FileEntry>, i: nat)
    requires i < |files| && LastOfItsPath(files, i) && files[i].kind == DirKind && files[i].path != []
    ensures var f, t := files[i], Fold(files);
            && (StaysAfter(files, i, f.path) ==>
                  f.path in t && t[f.path] == PDir(if f.mode == 0 then 0x1ED else f.mode))
            && (!StaysAfter(files, i, f.path) && f.path in t ==> t[f.path] == PDir(0x1ED))
  {
    var last, p := |files| - 1, files[i].path;
    var front, g := files[..last], files[last];
    if i == last {
      assert StaysAfter(files, i, p);
    } else {
      assert g.path != p;
      assert StaysAfter(files, i, p) <==> StaysAfter(front, i, p) && !Removes(g, p);
      DirIsAsListed(front, i);
      PresentStep(Fold(front), g, p);
      DirStep(Fold(front), g, p);
    }
  }

  /** What an entry for another path does to a directory. */
  lemma DirStep(m: PathMap, f: FileEntry, p: Path)
    requires p != [] && f.path != p
    ensures var t := AddEntry(m, f);
            p in t ==> t[p] == if p in m && (m[p].PDir? || !(p < f.path)) then m[p] else PDir(0x1ED)
  {
    if f.path != [] {
      EnsureDirsAt(m, f.path, |f.path|, p);
      EnsureDirsAt(m, f.path, |f.path| - 1, p);
    }
  }

  /** A path that is not listed itself is a directory with mode 0o755, if something below it is listed. */
  lemma {:induction false} UnlistedIsDir(files: seq<FileEntry>, p: Path)
    requires forall f :: f in files ==> f.path == [] || f.path != p
    ensures p in Fold(files) ==> Fold(files)[p] == PDir(0x1ED)
  {
    if files != [] {
      var last := |files| - 1;
      assert files[last] in files;
      UnlistedIsDir(files[..last], p);
      if p != [] {
        DirStep(Fold(files[..last]), files[last], p);
      } else {
        Lower.FoldIsTree(files[..last]);
        RootStays(Fold(files[..last]), files[last]);
      }
    }
  }

  lemma RootStays(m: PathMap, f: FileEntry)
    requires [] in m && m[[]].PDir?
    ensures [] in AddEntry(m, f) && AddEntry(m, f)[[]] == m[[]]
  {
    if f.path != [] {
      EnsureDirsAt(m, f.path, |f.path|, []);
      EnsureDirsAt(m, f.path, |f.path| - 1, []);
    }
  }

  // ---------------------------------------------------------------- files that repeat their entry

  /** A mount of a tree built from a list: an upper file at the path of a listed file is reported unless
      it has the mode and the bytes listed; an upper link at that of a listed link unless it has its
      target. */
  lemma ReportedUnlessAsListed(full: BlockStore, files: seq<FileEntry>, i: nat, s: State, list: seq<FileChange>)
    requires i < |files| && LastOfItsPath(files, i) && files[i].kind != DirKind && files[i].path != []
    requires forall j :: i < j < |files| ==> !Overrides(files[j], files[i].path)
    requires forall b :: b in files[i].blocks ==> b in full
    requires s.Inv() && s.lower == Lower.LowerOf(full, Fold(files)) && Reports(s, Subtree([]), list)
    requires files[i].path in s.upper && !s.upper[files[i].path].UDir?
    ensures var f := files[i];
            (exists c :: c in list && c.path == f.path) <==>
            !(match s.upper[f.path]
              case UFile(perm, data) =>
                f.link == "" && perm == f.mode && data == Reads.Joined(full, f.blocks, |f.blocks|)
              case ULink(target) => f.link != "" && target == f.link
              case UDir => false)
  {
    var f := files[i];
    LeafIsAsListed(files, i);
    assert s.lower[f.path] == Lower.EntryOf(full, Fold(files)[f.path]);
    assert PlainPath(f.path);
    Fs.UpperIsShown(s, f.path);
    Proofs.ReportedAt(s, list, f.path);
  }

  /** A file that was opened for writing and left as it is, is reported exactly when the umask has taken
      something from its mode. A link is not. */
  lemma CopyReportedExactly(fs: Fs.UnionFs, p: Path, list: seq<FileChange>)
    requires fs.Valid() && PlainPath(p) && p != [] && p in fs.upper && p in fs.lower && fs.lower[p].LLeaf?
    requires fs.upper[p] == fs.CopyEntry(p) && Reports(fs.S(), Subtree([]), list)
    ensures (exists c :: c in list && c.path == p) <==>
            fs.lower[p].link == "" && fs.kept(fs.lower[p].mode % 0x200) != fs.lower[p].mode
  {
    Fs.UpperIsShown(fs.S(), p);
    Proofs.ReportedAt(fs.S(), list, p);
  }
}
