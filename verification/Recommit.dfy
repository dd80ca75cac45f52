/** Committing a mount's upper directory as one more layer and building the longer stack. */
module Recommit {
  import opened Paths
  import opened TreeData
  import opened BlockReads
  import opened InodeTree
  import opened LayerMerge
  import opened MergedTree
  import opened LowerView
  import opened UnionState
  import opened Capture
  import opened Commit
  import opened CommittedFiles

  /** A captured upper directory lists proper paths, which the merge cleans to themselves. */
  lemma CaptureIsProper(full: BlockStore, s: State, cap: Layer)
    requires s.Inv() && Captures(full, cap, s.upper)
    ensures forall f :: f in cap ==> ProperPath(f.path) && (f.path != [] ==> Clean(f.path) == f.path)
  {
    forall f | f in cap
      ensures ProperPath(f.path) && (f.path != [] ==> Clean(f.path) == f.path)
    {
      UpperIsProper(s, f.path);
      ProperIsResolved(f.path);
    }
  }

  lemma UpperIsProper(s: State, p: Path)
    requires s.Inv() && p in s.upper
    ensures ProperPath(p)
  {
    if IsMarker(p) {
      MarkerOfTarget(p);
      PlainParent(Target(p));
      MarkerIsProper(Base(Target(p)));
    }
    if p != [] { assert p == Parent(p) + [Base(p)]; }
  }

  lemma MarkerIsProper(n: Name)
    requires Plain(n)
    ensures Proper(MarkerName(n))
  {
  }

  /** The tree of the captured mount can be mounted, and shows what the mount shows. */
  lemma CapturedTreeMounts(full: BlockStore, s: State, m: FileMap, cap: Layer)
    requires s.Inv() && MountedOn(full, s, m) && Captures(full, cap, s.upper)
    ensures ConflictFree(MergeStep(m, cap))
    ensures AllPlain(TreeOf(MergeStep(m, cap))) && IsTree(TreeOf(MergeStep(m, cap)))
    ensures TreeView(LowerOf(full, TreeOf(MergeStep(m, cap)))) == s.View()
  {
    CaptureTheorem(full, s, m, cap);
    CaptureIsConflictFree(full, s, m, cap);
    forall q | q in MergeStep(m, cap)
      ensures PlainPath(q)
    {
      AncestryAt(MergeStep(m, cap), q);
      MergedPathsArePlain(full, s, m, cap, q);
    }
    TreeOfIsLowerOk(full, MergeStep(m, cap), s.upper);
    var t, l := TreeOf(MergeStep(m, cap)), LowerOf(full, TreeOf(MergeStep(m, cap)));
    forall p {:trigger Parent(p)} | p in t && p != []
      ensures Parent(p) in t && t[Parent(p)].PDir?
    {
      assert p in l;
    }
  }

  lemma StackIsMergeStep(commits: seq<ResolvedCommit>, cap: ResolvedCommit)
    ensures MergeAll(Layers(commits + [cap])) == MergeStep(MergeAll(Layers(commits)), cap.files)
  {
    var layers := Layers(commits + [cap]);
    assert layers[..|commits|] == Layers(commits) && layers[|commits|] == cap.files;
  }

  lemma StoresAgree(stack: seq<ResolvedCommit>, full: BlockStore)
    requires forall c :: c in stack ==> c.store.Some? && PartOf(c.store.value, full)
    ensures PartOf(MultiStore(Stores(stack)), full)
  {
    forall s | s in Stores(stack)
      ensures PartOf(s, full)
    {
      var i :| 0 <= i < |stack| && Stores(stack)[i] == s;
      assert stack[i] in stack;
    }
    MultiStoreAgrees(Stores(stack), full);
  }

  /** The longer stack can be merged, built and mounted, and shows what s shows. */
  lemma StackIsReady(full: BlockStore, s: State, commits: seq<ResolvedCommit>, cap: ResolvedCommit)
    requires s.Inv() && MountedOn(full, s, MergeAll(Layers(commits))) && Captures(full, cap.files, s.upper)
    ensures var m := MergeAll(Layers(commits + [cap]));
            && ConflictFree(m) && AllPlain(TreeOf(m)) && IsTree(TreeOf(m))
            && TreeView(LowerOf(full, TreeOf(m))) == s.View()
  {
    StackIsMergeStep(commits, cap);
    CapturedTreeMounts(full, s, MergeAll(Layers(commits)), cap.files);
  }

  /** With the committed upper directory on top, the stack can be mounted again, and shows what the
      mount shows. */
  lemma LongerStackReady(full: BlockStore, more: BlockStore, s: State, commits: seq<ResolvedCommit>,
                         cap: ResolvedCommit)
    requires s.Inv() && MountedOn(full, s, MergeAll(Layers(commits))) && PartOf(full, more)
    requires LeavesOk(full, MountBlockSize(commits), TreeOf(MergeAll(Layers(commits))))
    requires Captures(more, cap.files, s.upper)
    ensures var m := MergeAll(Layers(commits + [cap]));
            && ConflictFree(m) && (forall q :: q in m ==> PlainPath(q))
            && TreeView(LowerOf(more, TreeOf(m))) == s.View()
  {
    LowerStays(full, more, MountBlockSize(commits), TreeOf(MergeAll(Layers(commits))));
    StackIsReady(more, s, commits, cap);
    MergedFilesArePlain(MergeAll(Layers(commits + [cap])));
  }

  lemma MergedFilesArePlain(m: FileMap)
    requires AllPlain(TreeOf(m))
    ensures forall q :: q in m ==> PlainPath(q)
  {
    forall q | q in m
      ensures PlainPath(q)
    {
      AncestryAt(m, q);
    }
  }

  /** A commit that states no block size leaves the stack's as it is. */
  lemma SameBlockSize(commits: seq<ResolvedCommit>, cap: ResolvedCommit)
    requires cap.blockSize == 0
    ensures MountBlockSize(commits + [cap]) == MountBlockSize(commits)
  {
    assert (commits + [cap])[..|commits|] == commits;
  }

  lemma LongerStackFiles(full: BlockStore, more: BlockStore, commits: seq<ResolvedCommit>, cap: ResolvedCommit)
    requires PartOf(full, more) && CommitsOk(full, commits, MountBlockSize(commits)) && cap.blockSize == 0
    requires forall f, blockSize :: f in cap.files ==> FileOk(more, blockSize, f)
    ensures CommitsOk(more, commits + [cap], MountBlockSize(commits + [cap]))
  {
    SameBlockSize(commits, cap);
    forall c, f | c in commits + [cap] && f in c.files
      ensures FileOk(more, MountBlockSize(commits), f)
    {
      if c in commits { FileStaysOk(full, more, MountBlockSize(commits), f); }
    }
  }
}
