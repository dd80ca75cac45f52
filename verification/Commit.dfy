/** A commit of an upper directory: one layer that captures it, with a block for each file. The
    repository's own commits are made elsewhere; any layer that captures the directory will do. */
module Commit {
  import opened Wrappers
  import opened Paths
  import opened Entries
  import opened TreeData
  import opened BlockReads
  import opened InodeTree
  import opened LayerMerge
  import opened MergedTree
  import opened LowerView
  import opened CommittedFiles
  import opened Capture

  /** Block ids are content addresses: the hash tells contents apart, and names the blocks of a store. */
  ghost predicate Addressed(hash: Bytes -> BlockId, store: BlockStore) {
    && (forall a, b :: hash(a) == hash(b) ==> a == b)
    && (forall id :: id in store ==> hash(store[id]) == id)
  }

  lemma AddressesAgree(hash: Bytes -> BlockId, a: BlockStore, b: BlockStore)
    requires Addressed(hash, a) && Addressed(hash, b)
    ensures PartOf(a, a + b) && PartOf(b, a + b) && Addressed(hash, a + b)
  {
    forall id | id in a && id in b
      ensures a[id] == b[id]
    {
      assert hash(a[id]) == hash(b[id]);
    }
  }

  /** The entry that records an upper entry; a marker's content does not matter. */
  function FileFor(hash: Bytes -> BlockId, p: Path, e: UpperEntry): FileEntry {
    if IsMarker(p) then FileEntry(p, RegularKind, 0x1A4, 0, "", [], [])
    else
      match e
      case UDir => FileEntry(p, DirKind, 0x1ED, 0, "", [], [])
      case ULink(target) => FileEntry(p, SymlinkKind, 0x1FF, |target|, target, [], [])
      case UFile(perm, data) => FileEntry(p, RegularKind, perm, |data|, "", [hash(data)], [|data|])
  }

  /** Sizes of files are 64-bit numbers. */
  ghost predicate UpperFits(upper: map<Path, UpperEntry>) {
    forall p :: p in upper && !IsMarker(p) && upper[p].UFile? ==> |upper[p].data| <= MAX_INT64
  }

  /** The paths visited so far are listed, and the blocks of their files stored. */
  ghost predicate Committing(hash: Bytes -> BlockId, upper: map<Path, UpperEntry>, visited: set<Path>, files: Layer,
                             store: BlockStore)
  {
    && (forall f :: f in files <==> f.path in visited && f.path in upper && f == FileFor(hash, f.path, upper[f.path]))
    && (forall p :: p in visited && p in upper && upper[p].UFile? ==>
          hash(upper[p].data) in store && store[hash(upper[p].data)] == upper[p].data)
    && Addressed(hash, store)
  }

  lemma CommitOneMore(hash: Bytes -> BlockId, upper: map<Path, UpperEntry>, visited: set<Path>, files: Layer,
                      store: BlockStore, p: Path)
    requires Committing(hash, upper, visited, files, store) && p in upper
    ensures var e := upper[p];
            Committing(hash, upper, visited + {p}, files + [FileFor(hash, p, e)],
                       if e.UFile? then store[hash(e.data) := e.data] else store)
  {
  }

  lemma OneBlock(full: BlockStore, id: BlockId)
    requires id in full
    ensures BytesOf(full, [id]) == full[id] && Joined(full, [id], 1) == full[id]
  {
    assert Joined(full, [id], 1) == Joined(full, [id], 0) + full[[id][0]];
  }

  /** Each entry records its upper entry, and lists a file that can be read. */
  lemma FileForRecords(hash: Bytes -> BlockId, full: BlockStore, p: Path, e: UpperEntry, blockSize: int)
    requires e.UFile? && !IsMarker(p) ==>
               hash(e.data) in full && full[hash(e.data)] == e.data && |e.data| <= MAX_INT64
    ensures IsMarker(p) || Records(full, FileFor(hash, p, e), e)
    ensures FileOk(full, blockSize, FileFor(hash, p, e))
  {
    if e.UFile? && !IsMarker(p) { OneBlock(full, hash(e.data)); }
  }

  lemma AllCommitted(hash: Bytes -> BlockId, full: BlockStore, upper: map<Path, UpperEntry>, visited: set<Path>,
                     files: Layer, store: BlockStore)
    requires Committing(hash, upper, visited, files, store) && PartOf(store, full) && UpperFits(upper)
    requires forall p :: p in visited <==> p in upper && p != []
    ensures Captures(full, files, upper)
    ensures forall f, blockSize :: f in files ==> FileOk(full, blockSize, f)
  {
    forall f, blockSize | f in files
      ensures FileOk(full, blockSize, f)
    {
      FileForRecords(hash, full, f.path, upper[f.path], blockSize);
    }
    forall f | f in files
      ensures f.path in upper && f.path != [] && (IsMarker(f.path) || Records(full, f, upper[f.path]))
    {
      FileForRecords(hash, full, f.path, upper[f.path], 0);
    }
    forall p | p in upper && p != []
      ensures exists f :: f in files && f.path == p
    {
      assert FileFor(hash, p, upper[p]) in files;
    }
  }

  /** Commits an upper directory over a store: there is always a layer that captures it, in a store
      that extends the one at hand. */
  method CommitUpper(upper: map<Path, UpperEntry>, hash: Bytes -> BlockId, ghost full: BlockStore)
    returns (cap: ResolvedCommit)
    requires Addressed(hash, full) && UpperFits(upper)
    ensures cap.store.Some? && cap.blockSize == 0
    ensures var more := full + cap.store.value;
            && PartOf(full, more) && PartOf(cap.store.value, more) && Addressed(hash, more)
            && Captures(more, cap.files, upper)
            && (forall f, blockSize :: f in cap.files ==> FileOk(more, blockSize, f))
  {
    var files: Layer := [];
    var store: BlockStore := map[];
    var rest := upper.Keys - {[]};
    ghost var visited: set<Path> := {};
    while rest != {}
      invariant forall p :: p in rest ==> p in upper && p != []
      invariant forall p :: p in visited <==> p in upper && p != [] && p !in rest
      invariant Committing(hash, upper, visited, files, store)
      decreases |rest|
    {
      var p :| p in rest;
      CommitOneMore(hash, upper, visited, files, store, p);
      var e := upper[p];
      files := files + [FileFor(hash, p, e)];
      if e.UFile? {
        store := store[hash(e.data) := e.data];
      }
      rest := rest - {p};
      visited := visited + {p};
    }
    AddressesAgree(hash, full, store);
    AllCommitted(hash, full + store, upper, visited, files, store);
    cap := ResolvedCommit("", "", Some(store), 0, files);
  }

  // ---------------------------------------------------------------- what is known stays known

  lemma {:induction false} JoinedStays(full: BlockStore, more: BlockStore, blocks: seq<BlockId>, k: nat)
    requires PartOf(full, more) && k <= |blocks| && forall b :: b in blocks ==> b in full
    ensures Joined(more, blocks, k) == Joined(full, blocks, k)
  {
    if k > 0 { JoinedStays(full, more, blocks, k - 1); }
  }

  lemma FileStaysOk(full: BlockStore, more: BlockStore, blockSize: int, f: FileEntry)
    requires PartOf(full, more) && FileOk(full, blockSize, f)
    ensures FileOk(more, blockSize, f)
  {
    if f.kind != DirKind && f.link == "" { JoinedStays(full, more, f.blocks, |f.blocks|); }
  }

  /** Learning more blocks does not change what a readable tree shows. */
  lemma LowerStays(full: BlockStore, more: BlockStore, blockSize: int, paths: PathMap)
    requires PartOf(full, more) && LeavesOk(full, blockSize, paths)
    ensures LowerOf(more, paths) == LowerOf(full, paths)
  {
    forall p | p in paths
      ensures EntryOf(more, paths[p]) == EntryOf(full, paths[p])
    {
      if paths[p].PLeaf? && paths[p].link == "" {
        assert HasBlocks(full, AsNode(paths[p]));
        JoinedStays(full, more, paths[p].blocks, |paths[p].blocks|);
      }
    }
  }
}
