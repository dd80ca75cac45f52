/** The tree of a stack of layers: merging, then building, gives one tree that does not depend
    on list order when no listed non-directory stands above another listed path. */
module MergedTree {
  import opened Wrappers
  import opened Paths
  import opened Entries
  import opened TreeData
  import opened InodeTree
  import opened LayerMerge
  import opened BlockReads

  /** No listed non-directory is a proper ancestor of another listed path. */
  ghost predicate ConflictFree(m: FileMap) {
    forall p, q :: p in m && q in m && Below(p, q) ==> m[p].kind == DirKind
  }

  function EntryNode(f: FileEntry): PathNode {
    if f.kind == DirKind then PDir(DirMode(f)) else LeafOf(f)
  }

  /** The listed paths and everything above them. */
  ghost function Ancestry(m: FileMap): set<Path> {
    {[]} + set q, k | q in m && 0 <= k <= |q| :: q[..k]
  }

  /** The tree a conflict-free set of files stands for, without reference to any order. */
  ghost function TreeOf(m: FileMap): PathMap {
    map p | p in Ancestry(m) :: if p in m then EntryNode(m[p]) else PDir(DEFAULT_DIR_MODE)
  }

  lemma AncestryAt(m: FileMap, p: Path)
    ensures p in Ancestry(m) <==> p == [] || exists q :: q in m && p <= q
  {
    if q :| q in m && p <= q {
      assert q[..|p|] == p;
    }
  }

  lemma AncestryOneMore(m: FileMap, f: FileEntry, p: Path)
    ensures p in Ancestry(m[f.path := f]) <==> p in Ancestry(m) || p <= f.path
  {
    var m' := m[f.path := f];
    AncestryAt(m, p);
    AncestryAt(m', p);
    if p <= f.path { assert f.path in m'; }
    if q :| q in m && p <= q { assert q in m'; }
  }

  lemma {:induction false} EnsureDirsAt(m: PathMap, p: Path, k: nat, q: Path)
    requires k <= |p|
    ensures q in EnsureDirs(m, p, k) <==> q in m || (q <= p && 0 < |q| <= k)
    ensures q in EnsureDirs(m, p, k) ==>
              EnsureDirs(m, p, k)[q] ==
              if q <= p && 0 < |q| <= k && !(q in m && m[q].PDir?) then PDir(DEFAULT_DIR_MODE) else m[q]
  {
    if k > 0 {
      EnsureDirsAt(m, p, k - 1, q);
      EnsureDirsAt(m, p, k - 1, p[..k]);
      assert q <= p && |q| == k ==> q == p[..k];
    }
  }

  ghost predicate CanAdd(m: FileMap, f: FileEntry) {
    && f.path != [] && f.path !in m && [] !in m
    && ConflictFree(m[f.path := f])
  }

  /** Above the new path the tree has directories or nothing, and below a new leaf, nothing. */
  lemma RoomForEntry(m: FileMap, f: FileEntry, q: Path)
    requires CanAdd(m, f) && q in TreeOf(m)
    ensures Below(q, f.path) ==> TreeOf(m)[q].PDir?
    ensures f.path <= q ==> f.kind == DirKind && (q == f.path ==> TreeOf(m)[q] == PDir(DEFAULT_DIR_MODE))
  {
    var m' := m[f.path := f];
    AncestryAt(m, q);
    if Below(q, f.path) && q in m {
      assert q in m' && m'[q] == m[q];
    }
    if f.path <= q {
      var r :| r in m && q <= r;
      assert f.path == q[..|f.path|] == r[..|f.path|];
      assert r[..|r|] == r;
      assert r in m' && Below(f.path, r);
    }
  }

  lemma AddEntryAt(m: FileMap, f: FileEntry, q: Path)
    requires CanAdd(m, f)
    ensures var a, b := AddEntry(TreeOf(m), f), TreeOf(m[f.path := f]);
            && (q in a <==> q in b)
            && (q in a ==> a[q] == b[q])
  {
    var limit := if f.kind == DirKind then |f.path| else |f.path| - 1;
    EnsureDirsAt(TreeOf(m), f.path, limit, q);
    AncestryOneMore(m, f, q);
    if q in TreeOf(m) { RoomForEntry(m, f, q); }
    AncestryAt(m, q);
    assert q <= f.path && |q| == |f.path| ==> q == f.path;
    assert [] in TreeOf(m);
  }

  /** One entry applied to the tree of m gives the tree of m with that entry. */
  lemma AddEntryIsTree(m: FileMap, f: FileEntry)
    requires CanAdd(m, f)
    ensures AddEntry(TreeOf(m), f) == TreeOf(m[f.path := f])
  {
    forall q
      ensures q in AddEntry(TreeOf(m), f) <==> q in TreeOf(m[f.path := f])
      ensures q in AddEntry(TreeOf(m), f) ==> AddEntry(TreeOf(m), f)[q] == TreeOf(m[f.path := f])[q]
    {
      AddEntryAt(m, f, q);
    }
  }

  /** The list holds the map's files, each once. */
  ghost predicate Enumerates(files: seq<FileEntry>, m: FileMap) {
    && (forall i, j :: 0 <= i < j < |files| ==> files[i].path != files[j].path)
    && (forall f :: f in files ==> f.path in m && m[f.path] == f)
    && (forall p :: p in m ==> m[p] in files && m[p].path == p)
  }

  lemma EnumeratesFront(files: seq<FileEntry>, m: FileMap)
    requires Enumerates(files, m) && files != []
    ensures var f := files[|files| - 1];
            && f.path in m && m[f.path] == f
            && Enumerates(files[..|files| - 1], m - {f.path})
            && (m - {f.path})[f.path := f] == m
  {
    var last := |files| - 1;
    var f := files[last];
    assert f in files;
    assert files == files[..last] + [f];
    forall g | g in files[..last]
      ensures g.path != f.path && g in files
    {
      var i :| 0 <= i < last && files[i] == g;
    }
    forall p | p in m - {f.path}
      ensures m[p] in files[..last]
    {
      assert m[p] in files && m[p] != f;
    }
  }

  /** Whatever the order, building a conflict-free list gives the tree of its files. */
  lemma {:induction false} FoldIsTreeOf(files: seq<FileEntry>, m: FileMap)
    requires Enumerates(files, m) && ConflictFree(m) && [] !in m
    ensures Fold(files) == TreeOf(m)
  {
    if files == [] {
      assert forall p :: p !in m;
      assert m == map[];
      assert Ancestry(m) == {[]};
    } else {
      var f := files[|files| - 1];
      EnumeratesFront(files, m);
      var rest := m - {f.path};
      FoldIsTreeOf(files[..|files| - 1], rest);
      AddEntryIsTree(rest, f);
    }
  }

  // ---------------------------------------------------------------- conflicting lists

  /** An entry listed after the leaf at p takes it away: it lies below p, so p must be a directory,
      or it is a leaf above p. */
  predicate Overrides(f: FileEntry, p: Path) {
    p < f.path || ([] < f.path < p && f.kind != DirKind)
  }

  lemma OverridingEntry(m: PathMap, f: FileEntry, p: Path)
    requires p != [] && f.path != p
    ensures var t := AddEntry(m, f);
            if Overrides(f, p) then !(p in t && t[p].PLeaf?)
            else (p in t <==> p in m) && (p in t ==> t[p] == m[p])
  {
    if f.path != [] {
      EnsureDirsAt(m, f.path, |f.path|, p);
      EnsureDirsAt(m, f.path, |f.path| - 1, p);
    }
  }

  /** The last entry of its path. */
  predicate LastOfItsPath(files: seq<FileEntry>, i: nat)
    requires i < |files|
  {
    forall j :: i < j < |files| ==> files[j].path != files[i].path
  }

  /** In any list, conflicting or not: the last entry for a path, if it is a leaf, is in the tree
      exactly when no later entry overrides it. */
  lemma {:induction false} LeafStaysExactly(files: seq<FileEntry>, i: nat)
    requires i < |files| && files[i].kind != DirKind && files[i].path != [] && LastOfItsPath(files, i)
    ensures var p := files[i].path;
            p in Fold(files) && Fold(files)[p] == LeafOf(files[i]) <==>
            forall j :: i < j < |files| ==> !Overrides(files[j], p)
  {
    var last, p := |files| - 1, files[i].path;
    var front := files[..last];
    assert Fold(files) == AddEntry(Fold(front), files[last]);
    if i == last {
      assert p in Fold(files) && Fold(files)[p] == LeafOf(files[i]);
    } else {
      assert files[last].path != p;
      LeafStaysExactly(front, i);
      OverridingEntry(Fold(front), files[last], p);
      assert (forall j :: i < j < |files| ==> !Overrides(files[j], p)) <==>
             (forall j :: i < j < last ==> !Overrides(front[j], p)) && !Overrides(files[last], p);
    }
  }

  /** Every leaf of a built tree comes from some listed entry. */
  lemma {:induction false} LeavesAreListed(files: seq<FileEntry>, p: Path)
    requires p in Fold(files) && Fold(files)[p].PLeaf?
    ensures exists f :: f in files && f.path == p && f.kind != DirKind && Fold(files)[p] == LeafOf(f)
  {
    if files != [] {
      var last := |files| - 1;
      var front, f := files[..last], files[last];
      if f.path != [] {
        EnsureDirsAt(Fold(front), f.path, |f.path|, p);
        EnsureDirsAt(Fold(front), f.path, |f.path| - 1, p);
      }
      if f.path == p && f.path != [] {
        assert f in files;
      } else {
        LeavesAreListed(front, p);
        var g :| g in front && g.path == p && g.kind != DirKind && Fold(front)[p] == LeafOf(g);
        assert g in files;
      }
    }
  }

  // ---------------------------------------------------------------- building a stack of layers

  /** A layer resolved to one commit; its store is None when it cannot be opened. */
  datatype ResolvedCommit = ResolvedCommit(repo: string, stateId: string, store: Option<BlockStore>,
                                           blockSize: int, files: Layer)

  datatype MergeError = NoLayers | StoreUnavailable

  function Layers(commits: seq<ResolvedCommit>): (layers: seq<Layer>)
    ensures |layers| == |commits| && forall i :: 0 <= i < |commits| ==> layers[i] == commits[i].files
  {
    seq(|commits|, i requires 0 <= i < |commits| => commits[i].files)
  }

  /** The block size of the highest layer that states one. */
  function StackBlockSize(commits: seq<ResolvedCommit>): int {
    if commits == [] then 0
    else
      var top := commits[|commits| - 1].blockSize;
      if top > 0 then top else StackBlockSize(commits[..|commits| - 1])
  }

  function Stores(commits: seq<ResolvedCommit>): seq<BlockStore>
    requires forall c :: c in commits ==> c.store.Some?
  {
    seq(|commits|, i requires 0 <= i < |commits| => assert commits[i] in commits; commits[i].store.value)
  }

  /** The files of a map, in a given order of paths. */
  function FilesOf(order: seq<Path>, m: FileMap): seq<FileEntry> {
    if order == [] then []
    else
      var last := |order| - 1;
      var front := FilesOf(order[..last], m);
      if order[last] in m then front + [m[order[last]]] else front
  }

  /** The merged list: what the tree of a stack is built from. */
  ghost function ListAll(layers: seq<Layer>): seq<FileEntry> {
    FilesOf(OrderAll(layers), MergeAll(layers))
  }

  method FilesInOrder(m: Merger) returns (out: seq<FileEntry>)
    requires m.Valid()
    ensures out == FilesOf(m.buf[..m.n], m.files)
  {
    out := [];
    for i := 0 to m.n
      invariant out == FilesOf(m.buf[..i], m.files)
    {
      assert m.buf[..i + 1][..i] == m.buf[..i];
      assert m.buf[i] in m.buf[..m.n];
      out := out + [m.files[m.buf[i]]];
    }
  }

  // ---------------------------------------------------------------- the merged list holds the merged files

  /** The order enumerates the files, which lie under their own paths. */
  ghost predicate InStep(order: seq<Path>, m: FileMap) {
    && NoRepeats(order)
    && (forall q :: q in order <==> q in m)
    && (forall q :: q in m ==> q != [] && m[q].path == q)
  }

  lemma {:induction false} RestrictHas(order: seq<Path>, left: set<Path>)
    requires NoRepeats(order)
    ensures NoRepeats(Restrict(order, left)) && forall q :: q in Restrict(order, left) <==> q in order && q in left
  {
    if order != [] {
      var last := |order| - 1;
      assert order == order[..last] + [order[last]];
      RestrictHas(order[..last], left);
      assert order[last] !in order[..last];
    }
  }

  lemma {:induction false} AppendedHas(order: seq<Path>, layer: Layer, q: Path)
    ensures q in Appended(order, layer) <==> q in order || Lists(layer, q)
  {
    if layer != [] {
      var last := |layer| - 1;
      assert layer == layer[..last] + [layer[last]];
      AppendedHas(order, layer[..last], q);
      ListsOneMore(layer[..last], layer[last], q);
    }
  }

  lemma {:induction false} AppendedNoRepeats(order: seq<Path>, layer: Layer)
    requires NoRepeats(order)
    ensures NoRepeats(Appended(order, layer))
  {
    if layer != [] { AppendedNoRepeats(order, layer[..|layer| - 1]); }
  }

  lemma {:induction false} StackInStep(layers: seq<Layer>)
    ensures InStep(OrderAll(layers), MergeAll(layers))
  {
    if layers != [] {
      var below, layer := layers[..|layers| - 1], layers[|layers| - 1];
      StackInStep(below);
      var m, left := MergeAll(below), Unhidden(MergeAll(below), layer).Keys;
      var kept := Restrict(OrderAll(below), left);
      RestrictHas(OrderAll(below), left);
      AppendedNoRepeats(kept, layer);
      forall q
        ensures q in OrderAll(layers) <==> q in MergeAll(layers)
        ensures q in MergeAll(layers) ==> q != [] && MergeAll(layers)[q].path == q
      {
        AppendedHas(kept, layer, q);
        MergeStepAt(m, layer, q);
      }
    }
  }

  lemma {:induction false} FilesOfEnumerates(order: seq<Path>, m: FileMap)
    requires NoRepeats(order) && forall q :: q in order ==> q in m && m[q].path == q
    ensures PathsIn(FilesOf(order, m)) == order
    ensures forall f :: f in FilesOf(order, m) <==> f.path in order && m[f.path] == f
  {
    if order != [] {
      var last := |order| - 1;
      assert order == order[..last] + [order[last]];
      assert order[last] in order;
      FilesOfEnumerates(order[..last], m);
      assert PathsIn(FilesOf(order, m)) == PathsIn(FilesOf(order[..last], m)) + [order[last]];
    }
  }

  function PathsIn(files: seq<FileEntry>): seq<Path> {
    seq(|files|, i requires 0 <= i < |files| => files[i].path)
  }

  lemma FilesOfInStep(order: seq<Path>, m: FileMap)
    requires InStep(order, m)
    ensures Enumerates(FilesOf(order, m), m) && PathsIn(FilesOf(order, m)) == order && [] !in m
  {
    FilesOfEnumerates(order, m);
    var files := FilesOf(order, m);
    assert forall i :: 0 <= i < |files| ==> files[i].path == PathsIn(files)[i] == order[i];
  }

  /** The merged list holds every merged file once, in the order of the merge. */
  lemma ListAllEnumerates(layers: seq<Layer>)
    ensures Enumerates(ListAll(layers), MergeAll(layers)) && PathsIn(ListAll(layers)) == OrderAll(layers)
    ensures [] !in MergeAll(layers)
  {
    StackInStep(layers);
    FilesOfInStep(OrderAll(layers), MergeAll(layers));
  }

  /** For a conflict-free stack the built tree is the one the files stand for. */
  lemma ConflictFreeFold(layers: seq<Layer>)
    requires ConflictFree(MergeAll(layers))
    ensures Fold(ListAll(layers)) == TreeOf(MergeAll(layers))
  {
    ListAllEnumerates(layers);
    FoldIsTreeOf(ListAll(layers), MergeAll(layers));
  }

  // ---------------------------------------------------------------- the whole build

  /** The block size a stack is mounted with. */
  function MountBlockSize(commits: seq<ResolvedCommit>): int {
    if StackBlockSize(commits) > 0 then StackBlockSize(commits) else DEFAULT_BLOCK_SIZE
  }

  /** That is the block size of the highest commit that states one, or 4096 if none does. */
  lemma {:induction false} MountBlockSizeExactly(commits: seq<ResolvedCommit>, i: nat)
    requires i < |commits| ==> commits[i].blockSize > 0
    requires i <= |commits| && forall j :: i < j < |commits| ==> commits[j].blockSize <= 0
    requires i == |commits| ==> forall c :: c in commits ==> c.blockSize <= 0
    ensures MountBlockSize(commits) == if i < |commits| then commits[i].blockSize else 4096
  {
    if commits != [] {
      var last := |commits| - 1;
      var front := commits[..last];
      assert commits[last] in commits;
      if i != last {
        assert forall c :: c in front ==> c in commits;
        MountBlockSizeExactly(front, if i == |commits| then last else i);
      }
    }
  }

  /** The stores and the block size of the commits read so far. */
  predicate Opened(commits: seq<ResolvedCommit>, stores: seq<BlockStore>, blockSize: int) {
    && (forall c :: c in commits ==> c.store.Some?)
    && stores == Stores(commits) && blockSize == StackBlockSize(commits)
  }

  /** The files of the commits merged so far. */
  ghost predicate Merged(commits: seq<ResolvedCommit>, files: FileMap, order: seq<Path>) {
    files == MergeAll(Layers(commits)) && order == OrderAll(Layers(commits))
  }

  lemma OpenOneMore(done: seq<ResolvedCommit>, rc: ResolvedCommit, stores: seq<BlockStore>, blockSize: int)
    requires Opened(done, stores, blockSize) && rc.store.Some?
    ensures Opened(done + [rc], stores + [rc.store.value], if rc.blockSize > 0 then rc.blockSize else blockSize)
  {
    assert (done + [rc])[..|done|] == done;
    assert Stores(done + [rc]) == stores + [rc.store.value];
  }

  lemma MergeOneMore(done: seq<ResolvedCommit>, rc: ResolvedCommit, files: FileMap, order: seq<Path>)
    requires Merged(done, files, order)
    ensures Merged(done + [rc], MergeStep(files, rc.files),
                   Appended(Restrict(order, Unhidden(files, rc.files).Keys), rc.files))
  {
    var layers := Layers(done + [rc]);
    assert layers[..|done|] == Layers(done) && layers[|done|] == rc.files;
  }

  /** Merges the layers and builds their tree: the fold of the merged list. */
  method BuildMerged(commits: seq<ResolvedCommit>) returns (r: Result<FsTree, MergeError>)
    ensures commits == [] ==> r == Err(NoLayers)
    ensures commits != [] && (exists c :: c in commits && c.store.None?) ==> r == Err(StoreUnavailable)
    ensures commits != [] && (forall c :: c in commits ==> c.store.Some?) ==>
              && r.Ok?
              && r.value.store == MultiStore(Stores(commits))
              && r.value.blockSize == MountBlockSize(commits)
              && InodesOk(r.value.nodes)
              && Presents(r.value.nodes, Fold(ListAll(Layers(commits))))
  {
    if |commits| == 0 {
      return Err(NoLayers);
    }
    var m := new Merger();
    var stores: seq<BlockStore> := [];
    var blockSize := 0;
    for i := 0 to |commits|
      invariant fresh(m) && fresh(m.buf) && m.Valid()
      invariant Opened(commits[..i], stores, blockSize)
      invariant Merged(commits[..i], m.files, m.buf[..m.n])
    {
      var rc := commits[i];
      if rc.blockSize > 0 {
        blockSize := rc.blockSize;
      }
      if rc.store.None? {
        return Err(StoreUnavailable);
      }
      assert commits[..i + 1] == commits[..i] + [rc];
      OpenOneMore(commits[..i], rc, stores, StackBlockSize(commits[..i]));
      MergeOneMore(commits[..i], rc, m.files, m.buf[..m.n]);
      stores := stores + [rc.store.value];
      m.MergeLayer(rc.files);
    }
    assert commits[..|commits|] == commits;
    if blockSize <= 0 {
      blockSize := DEFAULT_BLOCK_SIZE;
    }
    var out := FilesInOrder(m);
    var t := BuildTree(MultiStore(stores), blockSize, out);
    r := Ok(t);
  }
}
