/** What a commit promises of the files it lists, and that merging and building keep it. */
module CommittedFiles {
  import opened Paths
  import opened Entries
  import opened TreeData
  import opened BlockReads
  import opened InodeTree
  import opened LayerMerge
  import opened MergedTree
  import opened LowerView

  /** The recorded sizes are those of the blocks, or all blocks but the last have the block size. */
  predicate BlocksFit(full: BlockStore, blockSize: int, f: FileEntry)
    requires forall b :: b in f.blocks ==> b in full
  {
    if |f.blockSizes| == |f.blocks| && |f.blocks| > 0
    then forall k :: 0 <= k < |f.blocks| ==> f.blockSizes[k] == |full[f.blocks[k]]|
    else forall k :: 0 <= k < |f.blocks| ==>
           if k + 1 < |f.blocks| then |full[f.blocks[k]]| == EffectiveBlockSize(blockSize)
           else |full[f.blocks[k]]| <= EffectiveBlockSize(blockSize)
  }

  /** A file whose blocks are known, fit the layout, and add up to its size. */
  predicate FileOk(full: BlockStore, blockSize: int, f: FileEntry) {
    f.kind == DirKind || f.link != "" ||
    ((forall b :: b in f.blocks ==> b in full)
     && f.size == |Joined(full, f.blocks, |f.blocks|)| <= MAX_INT64
     && BlocksFit(full, blockSize, f))
  }

  lemma {:induction false} TotalIsStart(full: BlockStore, f: FileEntry, k: nat)
    requires (forall b :: b in f.blocks ==> b in full) && |f.blockSizes| == |f.blocks| && k <= |f.blocks|
    requires forall i :: 0 <= i < |f.blocks| ==> f.blockSizes[i] == |full[f.blocks[i]]|
    ensures Total(f.blockSizes[..k]) == |Joined(full, f.blocks, k)|
  {
    if k > 0 {
      TotalIsStart(full, f, k - 1);
      assert f.blockSizes[..k] == f.blockSizes[..k - 1] + [f.blockSizes[k - 1]];
    }
  }

  lemma {:induction false} FullBlocksStart(full: BlockStore, blockSize: int, f: FileEntry, k: nat)
    requires (forall b :: b in f.blocks ==> b in full) && k <= |f.blocks|
    requires forall i :: 0 <= i < k ==> |full[f.blocks[i]]| == EffectiveBlockSize(blockSize)
    ensures |Joined(full, f.blocks, k)| == k * EffectiveBlockSize(blockSize)
  {
    if k > 0 { FullBlocksStart(full, blockSize, f, k - 1); }
  }

  /** Such an entry becomes a leaf that can be read. */
  lemma LeafIsWellFormed(full: BlockStore, blockSize: int, f: FileEntry)
    requires FileOk(full, blockSize, f) && f.kind != DirKind && f.link == ""
    ensures WellFormed(full, blockSize, AsNode(LeafOf(f)))
  {
    var n, bs := AsNode(LeafOf(f)), EffectiveBlockSize(blockSize);
    if n.offsets.Some? {
      forall k | 0 <= k < |n.blocks|
        ensures n.offsets.value[k] == Start(full, n, k)
      {
        TotalIsStart(full, f, k);
      }
    } else {
      forall k | 0 <= k <= |n.blocks|
        ensures StartsFixed(full, n, bs, k)
      {
        StartsAscend(full, n, k, |n.blocks|);
        if k < |n.blocks| {
          FullBlocksStart(full, blockSize, f, k);
        } else if k > 0 {
          FullBlocksStart(full, blockSize, f, k - 1);
          TimesPlusOne(k - 1, bs);
        }
      }
    }
  }

  lemma TimesPlusOne(a: nat, b: nat)
    ensures (a + 1) * b == a * b + b
  {
  }

  /** Whatever the list, the leaves of the built tree are listed files. */
  lemma ListedLeavesOk(full: BlockStore, blockSize: int, files: seq<FileEntry>)
    requires forall f :: f in files ==> FileOk(full, blockSize, f)
    ensures LeavesOk(full, blockSize, Fold(files))
  {
    forall p | p in Fold(files) && Fold(files)[p].PLeaf?
      ensures if Fold(files)[p].link != "" then Fold(files)[p].size == |Fold(files)[p].link|
              else WellFormed(full, blockSize, AsNode(Fold(files)[p]))
    {
      LeavesAreListed(files, p);
      var f :| f in files && f.path == p && f.kind != DirKind && Fold(files)[p] == LeafOf(f);
      if f.link == "" { LeafIsWellFormed(full, blockSize, f); }
    }
  }

  /** A merged file is an entry of some layer. */
  lemma {:induction false} MergedFromLayers(layers: seq<Layer>, q: Path)
    requires q in MergeAll(layers)
    ensures exists i :: 0 <= i < |layers| && MergeAll(layers)[q] in layers[i]
  {
    if layers != [] {
      var last := |layers| - 1;
      MergeStepAt(MergeAll(layers[..last]), layers[last], q);
      if !Lists(layers[last], q) {
        MergedFromLayers(layers[..last], q);
        var i :| 0 <= i < last && MergeAll(layers[..last])[q] in layers[..last][i];
        assert layers[i] == layers[..last][i];
      }
    }
  }

  /** The commits of a stack list files that can be read at the stack's block size. */
  ghost predicate CommitsOk(full: BlockStore, commits: seq<ResolvedCommit>, blockSize: int) {
    forall c, f :: c in commits && f in c.files ==> FileOk(full, blockSize, f)
  }

  /** The tree merged and built from such commits has leaves that can be read. */
  lemma StackLeavesOk(full: BlockStore, commits: seq<ResolvedCommit>)
    requires CommitsOk(full, commits, MountBlockSize(commits))
    ensures LeavesOk(full, MountBlockSize(commits), Fold(ListAll(Layers(commits))))
  {
    var layers := Layers(commits);
    ListAllEnumerates(layers);
    forall f | f in ListAll(layers)
      ensures FileOk(full, MountBlockSize(commits), f)
    {
      MergedFromLayers(layers, f.path);
      var i :| 0 <= i < |layers| && MergeAll(layers)[f.path] in layers[i];
      assert commits[i] in commits;
    }
    ListedLeavesOk(full, MountBlockSize(commits), ListAll(layers));
  }
}
