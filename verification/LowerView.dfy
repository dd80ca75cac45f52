/** How a built tree looks from above: kind, link target and bytes at each path. */
module LowerView {
  import opened Paths
  import opened Entries
  import opened TreeData
  import opened BlockReads
  import opened InodeTree
  import opened UnionState

  /** The bytes of a list of blocks; a list with unknown blocks counts as empty. */
  function BytesOf(full: BlockStore, blocks: seq<BlockId>): Bytes {
    if forall b :: b in blocks ==> b in full then Joined(full, blocks, |blocks|) else []
  }

  function EntryOf(full: BlockStore, n: PathNode): LowerEntry {
    match n
    case PDir(_) => LDir
    case PLeaf(kind, link, mode, _, blocks, _) =>
      LLeaf(kind, link, mode, if link != "" then [] else BytesOf(full, blocks))
  }

  function LowerOf(full: BlockStore, m: PathMap): map<Path, LowerEntry> {
    map p | p in m :: EntryOf(full, m[p])
  }

  ghost predicate AllPlain(m: PathMap) {
    forall p :: p in m ==> PlainPath(p)
  }

  /** Any plain directory tree can serve as the lower tree of a mount. */
  lemma TreeIsLowerOk(full: BlockStore, m: PathMap, upper: map<Path, UpperEntry>)
    requires IsTree(m) && AllPlain(m)
    ensures State(LowerOf(full, m), upper).LowerOk()
  {
  }

  // ---------------------------------------------------------------- built trees are directory trees

  lemma {:induction false} EnsureDirsIsTree(m: PathMap, p: Path, k: nat)
    requires IsTree(m) && k <= |p|
    ensures IsTree(EnsureDirs(m, p, k))
    ensures p[..k] in EnsureDirs(m, p, k) && EnsureDirs(m, p, k)[p[..k]].PDir?
  {
    if k > 0 {
      EnsureDirsIsTree(m, p, k - 1);
      assert Parent(p[..k]) == p[..k - 1];
    } else {
      assert p[..k] == [];
    }
  }

  lemma AddEntryKeepsTree(m: PathMap, f: FileEntry)
    requires IsTree(m)
    ensures IsTree(AddEntry(m, f))
  {
    if f.path != [] {
      if f.kind == DirKind {
        EnsureDirsIsTree(m, f.path, |f.path|);
        assert f.path[..|f.path|] == f.path;
      } else {
        EnsureDirsIsTree(m, f.path, |f.path| - 1);
        var d := EnsureDirs(m, f.path, |f.path| - 1);
        var t := PutLeaf(d, f.path, LeafOf(f));
        forall p | p in t && p != []
          ensures Parent(p) in t && t[Parent(p)].PDir?
        {
          assert f.path <= Parent(p) ==> f.path <= p;
          assert Parent(f.path) == f.path[..|f.path| - 1];
        }
      }
    }
  }

  /** Whatever list it is built from, the tree is a directory tree. */
  lemma {:induction false} FoldIsTree(files: seq<FileEntry>)
    ensures IsTree(Fold(files))
  {
    if files != [] {
      FoldIsTree(files[..|files| - 1]);
      AddEntryKeepsTree(Fold(files[..|files| - 1]), files[|files| - 1]);
    }
  }

  /** From plain listed paths a plain tree is built. */
  lemma {:induction false} FoldIsPlain(files: seq<FileEntry>)
    requires forall f :: f in files ==> PlainPath(f.path)
    ensures AllPlain(Fold(files))
  {
    if files != [] {
      var f := files[|files| - 1];
      FoldIsPlain(files[..|files| - 1]);
      EnsureDirsIsPlain(Fold(files[..|files| - 1]), f.path, |f.path|);
      if f.path != [] { EnsureDirsIsPlain(Fold(files[..|files| - 1]), f.path, |f.path| - 1); }
    }
  }

  lemma {:induction false} EnsureDirsIsPlain(m: PathMap, p: Path, k: nat)
    requires AllPlain(m) && PlainPath(p) && k <= |p|
    ensures AllPlain(EnsureDirs(m, p, k))
  {
    if k > 0 { EnsureDirsIsPlain(m, p, k - 1); }
  }

  // ---------------------------------------------------------------- leaves as committed files

  function AsNode(x: PathNode): FileNode
    requires x.PLeaf?
  {
    FileNode(0, "", false, x.kind, x.link, x.mode, x.size, x.blocks, x.offsets, map[], [])
  }

  /** Leaves without a link target are committed files; a symlink's size is the length of its target. */
  ghost predicate LeavesOk(full: BlockStore, blockSize: int, paths: PathMap) {
    forall p :: p in paths && paths[p].PLeaf? ==>
      if paths[p].link != "" then paths[p].size == |paths[p].link|
      else WellFormed(full, blockSize, AsNode(paths[p]))
  }

  lemma NodeIsWellFormed(full: BlockStore, blockSize: int, n: FileNode)
    requires !n.isDir && WellFormed(full, blockSize, AsNode(Shape(n)))
    ensures WellFormed(full, blockSize, n)
    ensures Content(full, n) == BytesOf(full, n.blocks)
  {
    var a := AsNode(Shape(n));
    forall k | 0 <= k <= |n.blocks|
      ensures Start(full, n, k) == Start(full, a, k)
      ensures n.offsets.None? ==> StartsFixed(full, n, EffectiveBlockSize(blockSize), k)
    {
      assert n.offsets.None? ==> StartsFixed(full, a, EffectiveBlockSize(blockSize), k);
    }
  }
}
