/** What the cache holds, in terms of built trees: a tree taken from the cache answers every lookup
    and every read as a fresh merge of the same layers would. */
module CacheContent {
  import opened Wrappers
  import opened Paths
  import opened TreeData
  import opened BlockReads
  import opened InodeTree
  import opened MergedTree
  import opened CacheKey
  import opened TreeCache
  import opened Manager

  /** What a tree has, without its inode numbers. */
  datatype TreeContent = TreeContent(paths: PathMap, blockSize: int, store: BlockStore)

  ghost predicate Shows(t: FsTree, c: TreeContent) {
    Presents(t.nodes, c.paths) && InodesOk(t.nodes) && t.blockSize == c.blockSize && t.store == c.store
  }

  /** Commits do not change: a repository and a state id always resolve to the same commit. */
  type Repositories = LayerRef -> ResolvedCommit

  function Resolved(repos: Repositories, layers: seq<LayerRef>): seq<ResolvedCommit> {
    seq(|layers|, i requires 0 <= i < |layers| => repos(layers[i]))
  }

  ghost predicate CanMerge(repos: Repositories, layers: seq<LayerRef>) {
    layers != [] && forall c :: c in Resolved(repos, layers) ==> c.store.Some?
  }

  /** What merging and building a stack gives. */
  ghost function MergedContent(repos: Repositories, layers: seq<LayerRef>): TreeContent
    requires CanMerge(repos, layers)
  {
    var commits := Resolved(repos, layers);
    TreeContent(Fold(ListAll(MergedTree.Layers(commits))), MountBlockSize(commits), MultiStore(Stores(commits)))
  }

  /** The tree shows what merging the layers gives. */
  ghost predicate IsMergeOf(repos: Repositories, layers: seq<LayerRef>, t: FsTree) {
    CanMerge(repos, layers) && Shows(t, MergedContent(repos, layers))
  }

  /** What the manager is to cache: trees that show the merge of their layers. */
  ghost function Merges(repos: Repositories): (seq<LayerRef>, FsTree) -> bool {
    (layers, t) => IsMergeOf(repos, layers, t)
  }

  /** A fresh merge gives such a tree, exactly for the stacks that can be merged. */
  method FreshMerge(repos: Repositories, layers: seq<LayerRef>) returns (r: Result<FsTree, MergeError>)
    ensures r.Ok? <==> CanMerge(repos, layers)
    ensures r.Ok? ==> IsMergeOf(repos, layers, r.value)
  {
    r := BuildMerged(Resolved(repos, layers));
  }

  /** Nodes that agree in everything but number, name and children read alike. */
  lemma SameReads(store: BlockStore, full: BlockStore, n: FileNode, m: FileNode, off: int, length: int)
    requires Shape(n) == Shape(m) && CanRead(full, n, off, length)
    ensures CanRead(full, m, off, length)
    ensures ReadResult(store, full, n, off, length) == ReadResult(store, full, m, off, length)
  {
    if !n.isDir && HasBlocks(full, n) {
      forall k | 0 <= k <= |n.blocks|
        ensures Start(full, n, k) == Start(full, m, k)
      {
      }
      var size := |Content(full, n)|;
      var end := if off + length > size then size else off + length;
      forall k
        ensures Overlaps(full, n, off, end, k) <==> Overlaps(full, m, off, end, k)
      {
      }
    }
  }

  /** Two trees with the same content answer alike: the same paths are found, what is found agrees in
      kind, link, mode, size and blocks, and reads of it give the same bytes or the same error. */
  ghost predicate AnswerAlike(t: FsTree, u: FsTree, full: BlockStore) {
    && (forall p :: FoundAlike(t, u, p))
    && (forall p, off, length :: ReadAlike(t, u, full, p, off, length))
  }

  predicate FoundAlike(t: FsTree, u: FsTree, p: Path) {
    var i, j := Walk(t.nodes, p), Walk(u.nodes, p);
    && (i == 0 <==> j == 0)
    && (i != 0 ==> i in t.nodes && j in u.nodes && Shape(t.nodes[i]) == Shape(u.nodes[j]))
  }

  predicate CanRead(full: BlockStore, n: FileNode, off: int, length: int) {
    (n.isDir || NoBlocks(n) || HasBlocks(full, n)) && Allocatable(n, off, length)
  }

  ghost predicate ReadAlike(t: FsTree, u: FsTree, full: BlockStore, p: Path, off: int, length: int) {
    var i, j := Walk(t.nodes, p), Walk(u.nodes, p);
    i in t.nodes && CanRead(full, t.nodes[i], off, length) ==>
      && j in u.nodes && CanRead(full, u.nodes[j], off, length)
      && ReadResult(t.store, full, t.nodes[i], off, length) == ReadResult(u.store, full, u.nodes[j], off, length)
  }

  lemma SameContentAnswersAlike(t: FsTree, u: FsTree, c: TreeContent, full: BlockStore)
    requires Shows(t, c) && Shows(u, c)
    ensures AnswerAlike(t, u, full)
  {
    forall p
      ensures FoundAlike(t, u, p)
    {
      assert PresentsAt(t.nodes, c.paths, p) && PresentsAt(u.nodes, c.paths, p);
    }
    forall p, off, length
      ensures ReadAlike(t, u, full, p, off, length)
    {
      var i, j := Walk(t.nodes, p), Walk(u.nodes, p);
      assert FoundAlike(t, u, p);
      if i in t.nodes && CanRead(full, t.nodes[i], off, length) {
        assert 0 !in t.nodes;
        SameReads(t.store, full, t.nodes[i], u.nodes[j], off, length);
      }
    }
  }

  /** Whoever holds a tree from the cache, the loser of a double build included, holds one that
      answers as any fresh merge of its layers. */
  lemma AcquiredIsFresh(s: Sys<FsTree>, repos: Repositories, h: Holder, anew: FsTree, full: BlockStore)
    requires Inv(s, Merges(repos)) && IsHolder(s, h) && IsMergeOf(repos, Held(s, h).layers, anew)
    ensures AnswerAlike(Held(s, h).tree.content, anew, full)
  {
    HoldersShare(s, h, h, Merges(repos));
    SameContentAnswersAlike(Held(s, h).tree.content, anew, MergedContent(repos, Held(s, h).layers), full);
  }

  /** `acquireTree`. Other calls run before the build ends, and again before it is joined or cached.
      Whatever they do, the call ends with a tree exactly if the layers can be merged; it then holds the
      tree, and the tree shows the merge of the layers. */
  method AcquireTree(mgr: MountManager<FsTree>, repos: Repositories, layers: seq<LayerRef>, ghost t: ThreadId)
    returns (key: Key, r: Result<Built<FsTree>, MergeError>)
    requires mgr.Valid() && mgr.good == Merges(repos) && t !in mgr.sys.threads && LayersOk(layers)
    modifies mgr
    ensures mgr.Valid() && key == KeyOf(layers)
    ensures r.Ok? <==> CanMerge(repos, layers)
    ensures r.Ok? ==> mgr.HoldsGood(t, layers, key, r.value) && IsMergeOf(repos, layers, r.value.content)
    ensures r.Err? ==> t !in mgr.sys.threads
  {
    key := BuildKey(layers);
    var cached := mgr.TryAcquire(layers, key, t);
    if cached.Some? {
      return key, Ok(cached.value);
    }
    var built := BuildUnlocked(mgr, repos, layers, t);
    if built.Err? {
      return key, Err(built.error);
    }
    mgr.Unlocked(t);
    var joined := mgr.JoinOrInstall(layers, key, built.value, t);
    r := Ok(joined);
  }

  /** The build, without the lock, when no tree was found. */
  method BuildUnlocked(mgr: MountManager<FsTree>, repos: Repositories, layers: seq<LayerRef>, ghost t: ThreadId)
    returns (r: Result<Built<FsTree>, MergeError>)
    requires mgr.Valid() && mgr.good == Merges(repos)
    requires t in mgr.sys.threads && mgr.sys.threads[t] == Building(layers)
    modifies mgr
    ensures mgr.Valid() && (r.Ok? <==> CanMerge(repos, layers))
    ensures r.Ok? ==> t in mgr.sys.threads && mgr.sys.threads[t] == Finished(layers, r.value)
    ensures r.Err? ==> t !in mgr.sys.threads
  {
    var tree := FreshMerge(repos, layers);
    mgr.Unlocked(t);
    if tree.Err? {
      mgr.FailBuild(t);
      return Err(tree.error);
    }
    assert mgr.good(layers, tree.value);
    var built := mgr.FinishBuild(tree.value, t);
    r := Ok(built);
  }
}
