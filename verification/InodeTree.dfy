/** The inode tree built from a commit's flat list, and the plain map of paths it stands for. */
module InodeTree {
  import opened Wrappers
  import opened Paths
  import opened Entries
  import opened TreeData
  import opened Ordering

  const ROOT: nat := 1
  const DEFAULT_DIR_MODE: nat := 0x1ED  // 0o755

  // ---------------------------------------------------------------- the plain map of paths

  /** What a path stands for, without inode numbers. */
  datatype PathNode =
    | PDir(mode: nat)
    | PLeaf(kind: Kind, link: string, mode: nat, size: nat, blocks: seq<BlockId>, offsets: Option<seq<nat>>)

  type PathMap = map<Path, PathNode>

  function Total(sizes: seq<nat>): nat {
    if sizes == [] then 0 else Total(sizes[..|sizes| - 1]) + sizes[|sizes| - 1]
  }

  function OffsetsOf(f: FileEntry): Option<seq<nat>> {
    if |f.blockSizes| == |f.blocks| && |f.blocks| > 0
    then Some(seq(|f.blockSizes|, i requires 0 <= i < |f.blockSizes| => Total(f.blockSizes[..i])))
    else None
  }

  function LeafOf(f: FileEntry): PathNode {
    PLeaf(f.kind, f.link, f.mode, if f.link != "" then |f.link| else f.size, f.blocks, OffsetsOf(f))
  }

  function DirMode(f: FileEntry): nat {
    if f.mode == 0 then DEFAULT_DIR_MODE else f.mode
  }

  /** One missing directory is created; a leaf in its place gives way to it. */
  function EnsureOne(m: PathMap, p: Path): PathMap {
    if p in m && m[p].PDir? then m else m[p := PDir(DEFAULT_DIR_MODE)]
  }

  function EnsureDirs(m: PathMap, p: Path, k: nat): PathMap
    requires k <= |p|
  {
    if k == 0 then m else EnsureOne(EnsureDirs(m, p, k - 1), p[..k])
  }

  /** A leaf replaces whatever subtree stood at its path. */
  function PutLeaf(m: PathMap, p: Path, leaf: PathNode): PathMap {
    (map q | q in m && !(p <= q) :: m[q])[p := leaf]
  }

  function AddEntry(m: PathMap, f: FileEntry): PathMap {
    if f.path == [] then m
    else if f.kind == DirKind then EnsureDirs(m, f.path, |f.path|)[f.path := PDir(DirMode(f))]
    else PutLeaf(EnsureDirs(m, f.path, |f.path| - 1), f.path, LeafOf(f))
  }

  const ROOT_ONLY: PathMap := map[[] := PDir(DEFAULT_DIR_MODE)]

  /** The entries applied in list order. */
  function Fold(files: seq<FileEntry>): PathMap {
    if files == [] then ROOT_ONLY else AddEntry(Fold(files[..|files| - 1]), files[|files| - 1])
  }

  /** A directory tree: the root is a directory and every other path hangs from one. */
  ghost predicate IsTree(m: PathMap) {
    && [] in m && m[[]].PDir?
    && (forall p {:trigger Parent(p)} :: p in m && p != [] ==> Parent(p) in m && m[Parent(p)].PDir?)
  }

  // ---------------------------------------------------------------- the inode graph

  /** Follows one name; 0 stands for nothing found. */
  function LookupIn(nodes: map<nat, FileNode>, parent: nat, name: Name): nat {
    if parent !in nodes || !nodes[parent].isDir then 0
    else if name in nodes[parent].children then nodes[parent].children[name]
    else 0
  }

  /** Follows a path from the root. */
  function Walk(nodes: map<nat, FileNode>, p: Path): nat {
    if p == [] then ROOT else LookupIn(nodes, Walk(nodes, Parent(p)), Base(p))
  }

  function Shape(n: FileNode): PathNode {
    if n.isDir then PDir(n.mode) else PLeaf(n.kind, n.link, n.mode, n.size, n.blocks, n.offsets)
  }

  /** Walking the graph finds exactly the paths of m, with what m says about them. */
  ghost predicate Presents(nodes: map<nat, FileNode>, m: PathMap) {
    forall p :: PresentsAt(nodes, m, p)
  }

  predicate PresentsAt(nodes: map<nat, FileNode>, m: PathMap, p: Path) {
    var i := Walk(nodes, p);
    && (p in m <==> i != 0)
    && (p in m ==> i in nodes && Shape(nodes[i]) == m[p] && nodes[i].ino == i)
  }

  /** Each path is assigned one node of its own. */
  ghost predicate Assigned(nodes: map<nat, FileNode>, at: map<Path, nat>) {
    && 0 !in nodes
    && [] in at && at[[]] == ROOT && ROOT in nodes && nodes[ROOT].isDir
    && (forall p :: p in at ==> at[p] in nodes && nodes[at[p]].ino == at[p])
    && (forall p, q :: p in at && q in at && at[p] == at[q] ==> p == q)
  }

  /** The graph and the assignment of one inode to each path belong together. */
  ghost predicate Numbered(nodes: map<nat, FileNode>, at: map<Path, nat>) {
    && Assigned(nodes, at)
    && (forall p {:trigger Parent(p)} :: p in at && p != [] ==>
          && Parent(p) in at && nodes[at[Parent(p)]].isDir && at[Parent(p)] < at[p]
          && Base(p) in nodes[at[Parent(p)]].children && nodes[at[Parent(p)]].children[Base(p)] == at[p])
    && (forall p, n {:trigger p + [n]} :: p in at && n in nodes[at[p]].children ==> p + [n] in at)
  }

  /** Every node's children are nodes that carry the names they are filed under. */
  ghost predicate NamesMatch(nodes: map<nat, FileNode>) {
    forall i, n {:trigger n in nodes[i].children} :: i in nodes && n in nodes[i].children ==>
      nodes[i].isDir && nodes[i].children[n] in nodes && nodes[nodes[i].children[n]].name == n
  }

  /** Directories have no size. */
  ghost predicate DirsSizeless(nodes: map<nat, FileNode>) {
    forall i :: i in nodes && nodes[i].isDir ==> nodes[i].size == 0
  }

  function Abs(nodes: map<nat, FileNode>, at: map<Path, nat>): PathMap
    requires forall p :: p in at ==> at[p] in nodes
  {
    map p | p in at :: Shape(nodes[at[p]])
  }

  lemma {:induction false} WalkIsAt(nodes: map<nat, FileNode>, at: map<Path, nat>, p: Path)
    requires Numbered(nodes, at)
    ensures Walk(nodes, p) == if p in at then at[p] else 0
    decreases |p|
  {
    if p != [] {
      WalkIsAt(nodes, at, Parent(p));
      var parent := Parent(p);
      assert p == parent + [Base(p)];
      if p !in at && parent in at {
        assert Base(p) !in nodes[at[parent]].children;
      }
    }
  }

  lemma NumberedPresents(nodes: map<nat, FileNode>, at: map<Path, nat>)
    requires Numbered(nodes, at)
    ensures Presents(nodes, Abs(nodes, at))
  {
    forall p
      ensures PresentsAt(nodes, Abs(nodes, at), p)
    {
      WalkIsAt(nodes, at, p);
    }
  }

  // ---------------------------------------------------------------- filing a new node

  /** The graph after node n has been filed in a directory under its name. */
  function Filed(nodes: map<nat, FileNode>, parent: nat, n: FileNode): map<nat, FileNode>
    requires parent in nodes
  {
    nodes[n.ino := n][parent := nodes[parent].(children := nodes[parent].children[n.name := n.ino])]
  }

  /** The new node takes its path; whatever was at or below that path is no longer reached. */
  function Relinked(at: map<Path, nat>, p: Path, ino: nat): map<Path, nat> {
    (map q | q in at && !(p <= q) :: at[q])[p := ino]
  }

  ghost predicate CanFile(nodes: map<nat, FileNode>, at: map<Path, nat>, dir: Path, n: FileNode) {
    && Numbered(nodes, at) && NamesMatch(nodes)
    && (forall i :: i in nodes ==> i < n.ino)
    && dir in at && nodes[at[dir]].isDir
    && n.children == map[]
  }

  lemma FiledAt(nodes: map<nat, FileNode>, at: map<Path, nat>, dir: Path, n: FileNode, q: Path)
    requires CanFile(nodes, at, dir, n)
    ensures var p, nodes', at' := dir + [n.name], Filed(nodes, at[dir], n), Relinked(at, dir + [n.name], n.ino);
            && (q in at' <==> q == p || (q in at && !(p <= q)))
            && (q in at' ==> at'[q] == if q == p then n.ino else at[q])
            && (q in at' && q != p ==> at[q] < n.ino && at[q] in nodes')
            && (q in at' && q != p && q != dir ==> nodes'[at[q]] == nodes[at[q]])
            && dir in at' && nodes'[n.ino] == n
            && nodes'[at[dir]] == nodes[at[dir]].(children := nodes[at[dir]].children[n.name := n.ino])
  {
    assert !(dir + [n.name] <= dir);
  }

  /** The new node hangs from its directory. */
  lemma FiledTreeNew(nodes: map<nat, FileNode>, at: map<Path, nat>, dir: Path, n: FileNode)
    requires CanFile(nodes, at, dir, n)
    ensures var p, nodes', at' := dir + [n.name], Filed(nodes, at[dir], n), Relinked(at, dir + [n.name], n.ino);
            && Parent(p) == dir && Base(p) == n.name && dir in at' && at'[dir] == at[dir] && at[dir] in nodes'
            && nodes'[at[dir]].isDir && at[dir] < at'[p] == n.ino
            && n.name in nodes'[at[dir]].children && nodes'[at[dir]].children[n.name] == n.ino
  {
    FiledAt(nodes, at, dir, n, dir);
    FiledAt(nodes, at, dir, n, dir + [n.name]);
  }

  lemma FiledTree(nodes: map<nat, FileNode>, at: map<Path, nat>, dir: Path, n: FileNode, q: Path)
    requires CanFile(nodes, at, dir, n) && q in Relinked(at, dir + [n.name], n.ino) && q != []
    ensures var nodes', at' := Filed(nodes, at[dir], n), Relinked(at, dir + [n.name], n.ino);
            && Parent(q) in at' && at'[Parent(q)] in nodes' && nodes'[at'[Parent(q)]].isDir && at'[Parent(q)] < at'[q]
            && Base(q) in nodes'[at'[Parent(q)]].children && nodes'[at'[Parent(q)]].children[Base(q)] == at'[q]
  {
    FiledTreeNew(nodes, at, dir, n);
    if q != dir + [n.name] { FiledTreeOld(nodes, at, dir, n, q); }
  }

  lemma FiledTreeOld(nodes: map<nat, FileNode>, at: map<Path, nat>, dir: Path, n: FileNode, q: Path)
    requires CanFile(nodes, at, dir, n) && q in Relinked(at, dir + [n.name], n.ino) && q != []
    requires q != dir + [n.name]
    ensures var nodes', at' := Filed(nodes, at[dir], n), Relinked(at, dir + [n.name], n.ino);
            && Parent(q) in at' && at'[Parent(q)] in nodes' && nodes'[at'[Parent(q)]].isDir && at'[Parent(q)] < at'[q]
            && Base(q) in nodes'[at'[Parent(q)]].children && nodes'[at'[Parent(q)]].children[Base(q)] == at'[q]
  {
    assert q == Parent(q) + [Base(q)];
    assert dir + [n.name] <= Parent(q) ==> dir + [n.name] <= q;
    FiledAt(nodes, at, dir, n, q);
    FiledAt(nodes, at, dir, n, Parent(q));
  }

  lemma FiledChildren(nodes: map<nat, FileNode>, at: map<Path, nat>, dir: Path, n: FileNode, q: Path, name: Name)
    requires CanFile(nodes, at, dir, n) && q in Relinked(at, dir + [n.name], n.ino)
    requires Relinked(at, dir + [n.name], n.ino)[q] in Filed(nodes, at[dir], n)
    requires name in Filed(nodes, at[dir], n)[Relinked(at, dir + [n.name], n.ino)[q]].children
    ensures q + [name] in Relinked(at, dir + [n.name], n.ino)
  {
    var p := dir + [n.name];
    FiledAt(nodes, at, dir, n, q);
    FiledAt(nodes, at, dir, n, q + [name]);
    if p <= q + [name] && !(p <= q) {
      assert p == q + [name];
    }
    if !(q == dir && name == n.name) {
      assert q in at && name in nodes[at[q]].children;
    }
  }

  lemma FileNamesMatch(nodes: map<nat, FileNode>, at: map<Path, nat>, dir: Path, n: FileNode)
    requires CanFile(nodes, at, dir, n)
    ensures NamesMatch(Filed(nodes, at[dir], n))
  {
    var nodes' := Filed(nodes, at[dir], n);
    forall i, name | i in nodes' && name in nodes'[i].children
      ensures nodes'[i].isDir && nodes'[i].children[name] in nodes' && nodes'[nodes'[i].children[name]].name == name
    {
      if i in nodes && name in nodes[i].children {
        var c := nodes[i].children[name];
        assert c in nodes && nodes[c].name == name && nodes'[c].name == name;
      }
    }
  }

  lemma FileAssigned(nodes: map<nat, FileNode>, at: map<Path, nat>, dir: Path, n: FileNode)
    requires CanFile(nodes, at, dir, n)
    ensures Assigned(Filed(nodes, at[dir], n), Relinked(at, dir + [n.name], n.ino))
  {
    var p, nodes', at' := dir + [n.name], Filed(nodes, at[dir], n), Relinked(at, dir + [n.name], n.ino);
    FiledAt(nodes, at, dir, n, []);
    forall q | q in at'
      ensures at'[q] in nodes' && nodes'[at'[q]].ino == at'[q]
      ensures q != p ==> at'[q] < n.ino && at'[q] == at[q] && q in at
      ensures q == p ==> at'[q] == n.ino
    {
      FiledAt(nodes, at, dir, n, q);
    }
  }

  lemma FileKeepsSizes(nodes: map<nat, FileNode>, parent: nat, n: FileNode)
    requires DirsSizeless(nodes) && parent in nodes && (n.isDir ==> n.size == 0)
    requires forall i :: i in nodes ==> i < n.ino
    ensures DirsSizeless(Filed(nodes, parent, n))
    ensures forall i :: i in Filed(nodes, parent, n) ==> i <= n.ino
  {
  }

  lemma FileNumbered(nodes: map<nat, FileNode>, at: map<Path, nat>, dir: Path, n: FileNode)
    requires CanFile(nodes, at, dir, n)
    ensures Numbered(Filed(nodes, at[dir], n), Relinked(at, dir + [n.name], n.ino))
  {
    var nodes', at' := Filed(nodes, at[dir], n), Relinked(at, dir + [n.name], n.ino);
    FileAssigned(nodes, at, dir, n);
    forall q {:trigger Parent(q)} | q in at' && q != []
      ensures Parent(q) in at' && nodes'[at'[Parent(q)]].isDir && at'[Parent(q)] < at'[q]
      ensures Base(q) in nodes'[at'[Parent(q)]].children && nodes'[at'[Parent(q)]].children[Base(q)] == at'[q]
    {
      FiledTree(nodes, at, dir, n, q);
    }
    forall q, name {:trigger q + [name]} | q in at' && name in nodes'[at'[q]].children
      ensures q + [name] in at'
    {
      FiledChildren(nodes, at, dir, n, q, name);
    }
  }

  /** What the new assignment says of one path, in the map of paths. */
  lemma FiledShape(nodes: map<nat, FileNode>, at: map<Path, nat>, dir: Path, n: FileNode, q: Path)
    requires CanFile(nodes, at, dir, n)
    ensures var p, nodes', at' := dir + [n.name], Filed(nodes, at[dir], n), Relinked(at, dir + [n.name], n.ino);
            && (q in at' <==> q == p || (q in at && !(p <= q)))
            && (q in at' ==>
                  at'[q] in nodes' && Shape(nodes'[at'[q]]) == if q == p then Shape(n) else Shape(nodes[at[q]]))
  {
    FiledAt(nodes, at, dir, n, q);
  }

  /** Filing a node replaces the subtree at its path by that node, in the map of paths too. */
  lemma FileNodeRefines(nodes: map<nat, FileNode>, at: map<Path, nat>, dir: Path, n: FileNode)
    requires CanFile(nodes, at, dir, n)
    ensures Assigned(Filed(nodes, at[dir], n), Relinked(at, dir + [n.name], n.ino))
    ensures Abs(Filed(nodes, at[dir], n), Relinked(at, dir + [n.name], n.ino)) ==
            PutLeaf(Abs(nodes, at), dir + [n.name], Shape(n))
  {
    var p, nodes', at' := dir + [n.name], Filed(nodes, at[dir], n), Relinked(at, dir + [n.name], n.ino);
    FileAssigned(nodes, at, dir, n);
    var m, m' := Abs(nodes', at'), PutLeaf(Abs(nodes, at), p, Shape(n));
    forall q
      ensures q in m <==> q in m'
      ensures q in m ==> m[q] == m'[q]
    {
      FiledShape(nodes, at, dir, n, q);
    }
  }

  /** No path continues below one that has no children. */
  lemma {:induction false} NothingUnderLeaf(nodes: map<nat, FileNode>, at: map<Path, nat>, p: Path, q: Path)
    requires Numbered(nodes, at) && p < q
    requires p !in at || nodes[at[p]].children == map[]
    ensures q !in at
    decreases |q|
  {
    if q in at {
      BelowParent(p, q);
      if Parent(q) != p {
        NothingUnderLeaf(nodes, at, p, Parent(q));
      }
    }
  }

  /** Where nothing lies below p, replacing its subtree is a single-path update. */
  lemma PutOverNothing(nodes: map<nat, FileNode>, at: map<Path, nat>, p: Path, leaf: PathNode)
    requires Numbered(nodes, at) && (p !in at || nodes[at[p]].children == map[])
    ensures PutLeaf(Abs(nodes, at), p, leaf) == Abs(nodes, at)[p := leaf]
  {
    forall q {:trigger q in at} | p <= q && q != p
      ensures q !in at
    {
      NothingUnderLeaf(nodes, at, p, q);
    }
  }

  /** A directory lists a name exactly when the path through it is known, under the same inode. */
  lemma ChildIsPath(nodes: map<nat, FileNode>, at: map<Path, nat>, dir: Path, name: Name)
    requires Numbered(nodes, at) && dir in at
    ensures name in nodes[at[dir]].children <==> dir + [name] in at
    ensures dir + [name] in at ==> nodes[at[dir]].children[name] == at[dir + [name]]
  {
    assert Parent(dir + [name]) == dir && Base(dir + [name]) == name;
  }

  lemma LeafHasNoChildren(nodes: map<nat, FileNode>, i: nat)
    requires NamesMatch(nodes) && i in nodes && !nodes[i].isDir
    ensures nodes[i].children == map[]
  {
    assert forall name :: name !in nodes[i].children;
  }

  /** Creating a directory where there is none, or in place of a leaf, is a single-path update. */
  lemma EnsureMissing(nodes: map<nat, FileNode>, at: map<Path, nat>, dir: Path, n: FileNode)
    requires Numbered(nodes, at) && NamesMatch(nodes) && Shape(n) == PDir(DEFAULT_DIR_MODE)
    requires dir + [n.name] in at ==> !nodes[at[dir + [n.name]]].isDir
    ensures PutLeaf(Abs(nodes, at), dir + [n.name], Shape(n)) == EnsureOne(Abs(nodes, at), dir + [n.name])
  {
    var p := dir + [n.name];
    if p in at {
      LeafHasNoChildren(nodes, at[p]);
    }
    PutOverNothing(nodes, at, p, Shape(n));
  }

  /** Changing a directory's mode changes what its path stands for, and nothing else. */
  lemma RemodeDir(nodes: map<nat, FileNode>, at: map<Path, nat>, dir: Path, mode: nat)
    requires Numbered(nodes, at) && NamesMatch(nodes) && DirsSizeless(nodes) && dir in at && nodes[at[dir]].isDir
    ensures var nodes' := nodes[at[dir] := nodes[at[dir]].(mode := mode)];
            && Numbered(nodes', at) && NamesMatch(nodes') && DirsSizeless(nodes')
            && Abs(nodes', at) == Abs(nodes, at)[dir := PDir(mode)]
  {
    var nodes' := nodes[at[dir] := nodes[at[dir]].(mode := mode)];
    forall i | i in nodes
      ensures nodes'[i].children == nodes[i].children && nodes'[i].isDir == nodes[i].isDir
      ensures nodes'[i].name == nodes[i].name && nodes'[i].ino == nodes[i].ino && nodes'[i].size == nodes[i].size
    {
    }
    forall q | q in at
      ensures Shape(nodes'[at[q]]) == if q == dir then PDir(mode) else Shape(nodes[at[q]])
    {
    }
  }

  // ---------------------------------------------------------------- building the graph

  class TreeBuilder {
    var nodes: map<nat, FileNode>
    var next: nat
    ghost var at: map<Path, nat>

    ghost predicate Valid()
      reads this
    {
      && Numbered(nodes, at) && NamesMatch(nodes) && DirsSizeless(nodes)
      && (forall i :: i in nodes ==> i < next)
    }

    ghost function Paths(): PathMap
      requires Valid()
      reads this
    {
      Abs(nodes, at)
    }

    constructor ()
      ensures Valid() && Paths() == ROOT_ONLY
    {
      nodes := map[ROOT := FileNode(ROOT, "", true, RegularKind, "", DEFAULT_DIR_MODE, 0, [], None, map[], [])];
      next := 2;
      at := map[[] := ROOT];
    }

    /** Files a fresh node under a directory; both kinds of entry end with this step. */
    method Attach(parent: nat, n: FileNode, ghost dir: Path)
      requires Valid() && dir in at && at[dir] == parent && nodes[parent].isDir
      requires n.ino == next && n.children == map[] && (n.isDir ==> n.size == 0)
      modifies this
      ensures Valid()
      ensures Paths() == PutLeaf(old(Paths()), dir + [n.name], Shape(n))
      ensures at == Relinked(old(at), dir + [n.name], n.ino) && n.ino in nodes && nodes[n.ino] == n
    {
      FileNumbered(nodes, at, dir, n);
      FileNodeRefines(nodes, at, dir, n);
      FileNamesMatch(nodes, at, dir, n);
      FileKeepsSizes(nodes, parent, n);
      ghost var filed := Filed(nodes, parent, n);
      nodes := nodes[next := n];
      var d := nodes[parent];
      nodes := nodes[parent := d.(children := d.children[n.name := next])];
      assert nodes == filed;
      at := Relinked(at, dir + [n.name], next);
      next := next + 1;
    }

    method EnsureDir(parent: nat, name: Name, ghost dir: Path) returns (ino: nat)
      requires Valid() && dir in at && at[dir] == parent && nodes[parent].isDir
      modifies this
      ensures Valid()
      ensures Paths() == EnsureOne(old(Paths()), dir + [name])
      ensures dir + [name] in at && at[dir + [name]] == ino && nodes[ino].isDir
    {
      ChildIsPath(nodes, at, dir, name);
      var d := nodes[parent];
      if name in d.children {
        var ci := d.children[name];
        if ci in nodes && nodes[ci].isDir {
          return ci;
        }
      }
      var n := FileNode(next, name, true, RegularKind, "", DEFAULT_DIR_MODE, 0, [], None, map[], []);
      EnsureMissing(nodes, at, dir, n);
      Attach(parent, n, dir);
      ino := n.ino;
    }

    /** Offsets where variable-size blocks start; None when the sizes do not fit the blocks. */
    static method BlockOffsets(f: FileEntry) returns (r: Option<seq<nat>>)
      ensures r == OffsetsOf(f)
    {
      r := None;
      if |f.blockSizes| == |f.blocks| && |f.blocks| > 0 {
        var offsets: seq<nat> := [];
        var pos := 0;
        for i := 0 to |f.blockSizes|
          invariant pos == Total(f.blockSizes[..i])
          invariant offsets == seq(i, j requires 0 <= j < |f.blockSizes| => Total(f.blockSizes[..j]))
        {
          offsets := offsets + [pos];
          assert f.blockSizes[..i + 1] == f.blockSizes[..i] + [f.blockSizes[i]];
          pos := pos + f.blockSizes[i];
        }
        r := Some(offsets);
      }
    }

    method SetDirMode(ino: nat, mode: nat, ghost dir: Path)
      requires Valid() && dir in at && at[dir] == ino && nodes[ino].isDir
      modifies this
      ensures Valid()
      ensures Paths() == old(Paths())[dir := PDir(mode)]
    {
      RemodeDir(nodes, at, dir, mode);
      nodes := nodes[ino := nodes[ino].(mode := mode)];
    }

    method AddDir(f: FileEntry, ino: nat)
      requires Valid() && f.path in at && at[f.path] == ino && nodes[ino].isDir
      modifies this
      ensures Valid()
      ensures Paths() == old(Paths())[f.path := PDir(DirMode(f))]
    {
      var mode := f.mode;
      if mode == 0 {
        mode := DEFAULT_DIR_MODE;
      }
      SetDirMode(ino, mode, f.path);
    }

    /** Makes directories of the first `limit` components and returns the innermost. */
    method EnsurePath(path: Path, limit: nat) returns (parent: nat)
      requires Valid() && limit <= |path|
      modifies this
      ensures Valid()
      ensures Paths() == EnsureDirs(old(Paths()), path, limit)
      ensures path[..limit] in at && at[path[..limit]] == parent && nodes[parent].isDir
    {
      parent := ROOT;
      for i := 0 to limit
        invariant Valid()
        invariant path[..i] in at && at[path[..i]] == parent && nodes[parent].isDir
        invariant Paths() == EnsureDirs(old(Paths()), path, i)
      {
        assert path[..i] + [path[i]] == path[..i + 1];
        parent := EnsureDir(parent, path[i], path[..i]);
      }
    }

    method AddLeaf(f: FileEntry, parent: nat)
      requires Valid() && f.path != []
      requires Parent(f.path) in at && at[Parent(f.path)] == parent && nodes[parent].isDir
      modifies this
      ensures Valid()
      ensures Paths() == PutLeaf(old(Paths()), f.path, LeafOf(f))
    {
      var leaf := f.path[|f.path| - 1];
      var offsets := BlockOffsets(f);
      var size := f.size;
      if f.link != "" {
        size := |f.link|;
      }
      var n := FileNode(next, leaf, false, f.kind, f.link, f.mode, size, f.blocks, offsets, map[], []);
      assert Parent(f.path) + [leaf] == f.path;
      Attach(parent, n, Parent(f.path));
    }

    /** Applies one listed entry to the graph. */
    method Add(f: FileEntry)
      requires Valid()
      modifies this
      ensures Valid()
      ensures Paths() == AddEntry(old(Paths()), f)
    {
      if f.path == [] {
        return;
      }
      var limit := |f.path| - 1;
      if f.kind == DirKind {
        limit := |f.path|;
      }
      var parent := EnsurePath(f.path, limit);
      assert f.path[..|f.path|] == f.path;
      if f.kind == DirKind {
        AddDir(f, parent);
        return;
      }
      AddLeaf(f, parent);
    }
  }

  // ---------------------------------------------------------------- readdir order

  function NameOf(nodes: map<nat, FileNode>): nat -> Name {
    i => if i in nodes then nodes[i].name else ""
  }

  /** `childOrder` enumerates the children, each once, in strictly increasing name order. */
  ghost predicate InNameOrder(nodes: map<nat, FileNode>, n: FileNode) {
    && StrictlySorted(NameOf(nodes), n.childOrder)
    && (forall c :: c in n.childOrder <==> c in n.children.Values)
  }

  method ChildrenByName(nodes: map<nat, FileNode>, i: nat) returns (order: seq<nat>)
    requires NamesMatch(nodes) && i in nodes
    ensures InNameOrder(nodes, nodes[i].(childOrder := order))
  {
    var children := nodes[i].children;
    var names := SortedNames(children.Keys);
    order := [];
    for k := 0 to |names|
      invariant |order| == k
      invariant forall j :: 0 <= j < k ==> names[j] in children && order[j] == children[names[j]]
    {
      assert names[k] in names;
      order := order + [children[names[k]]];
    }
    forall j | 0 <= j < |order|
      ensures NameOf(nodes)(order[j]) == names[j] && order[j] in children.Values
    {
      assert names[j] in nodes[i].children;
    }
    forall c | c in children.Values
      ensures c in order
    {
      var name :| name in children && children[name] == c;
      assert name in names;
      var j :| 0 <= j < |names| && names[j] == name;
      assert order[j] == c;
    }
  }

  /** Nothing but `childOrder` differs. */
  ghost predicate SameButOrder(nodes: map<nat, FileNode>, sorted: map<nat, FileNode>) {
    && sorted.Keys == nodes.Keys
    && (forall i :: i in nodes ==> sorted[i] == nodes[i].(childOrder := sorted[i].childOrder))
  }

  lemma {:induction false} SameWalk(nodes: map<nat, FileNode>, sorted: map<nat, FileNode>, p: Path)
    requires SameButOrder(nodes, sorted)
    ensures Walk(sorted, p) == Walk(nodes, p)
    decreases |p|
  {
    if p != [] {
      SameWalk(nodes, sorted, Parent(p));
    }
  }

  lemma SamePresents(nodes: map<nat, FileNode>, sorted: map<nat, FileNode>, m: PathMap)
    requires SameButOrder(nodes, sorted) && Presents(nodes, m)
    ensures Presents(sorted, m)
  {
    forall p
      ensures PresentsAt(sorted, m, p)
    {
      assert PresentsAt(nodes, m, p);
      SameWalk(nodes, sorted, p);
    }
  }

  method SortChildren(nodes: map<nat, FileNode>) returns (sorted: map<nat, FileNode>)
    requires NamesMatch(nodes)
    ensures SameButOrder(nodes, sorted)
    ensures forall i :: i in sorted && sorted[i].isDir ==> InNameOrder(nodes, sorted[i])
  {
    sorted := nodes;
    var pending := nodes.Keys;
    while pending != {}
      invariant pending <= nodes.Keys
      invariant SameButOrder(nodes, sorted)
      invariant forall i :: i in nodes.Keys - pending && sorted[i].isDir ==> InNameOrder(nodes, sorted[i])
      decreases |pending|
    {
      var i :| i in pending;
      pending := pending - {i};
      if nodes[i].isDir {
        var order := ChildrenByName(nodes, i);
        sorted := sorted[i := sorted[i].(childOrder := order)];
      }
    }
  }

  // ---------------------------------------------------------------- the whole build

  /** Inode numbers grow from parent to child, and no two paths share one. */
  ghost predicate InodesOk(nodes: map<nat, FileNode>) {
    && 0 !in nodes && DirsSizeless(nodes)
    && (forall i, n {:trigger n in nodes[i].children} :: i in nodes && n in nodes[i].children ==>
          nodes[i].children[n] in nodes)
    && (forall p :: p != [] ==> AboveParent(nodes, p))
    && (forall p, q :: OnePath(nodes, p, q))
  }

  predicate AboveParent(nodes: map<nat, FileNode>, p: Path)
    requires p != []
  {
    Walk(nodes, p) != 0 ==> 0 < Walk(nodes, Parent(p)) < Walk(nodes, p)
  }

  predicate OnePath(nodes: map<nat, FileNode>, p: Path, q: Path) {
    Walk(nodes, p) == Walk(nodes, q) != 0 ==> p == q
  }

  lemma NumberedInodes(nodes: map<nat, FileNode>, at: map<Path, nat>, sorted: map<nat, FileNode>)
    requires Numbered(nodes, at) && NamesMatch(nodes) && DirsSizeless(nodes) && SameButOrder(nodes, sorted)
    ensures InodesOk(sorted)
  {
    forall p | p != []
      ensures AboveParent(sorted, p)
    {
      WalkIsAt(nodes, at, p);
      WalkIsAt(nodes, at, Parent(p));
      SameWalk(nodes, sorted, p);
      SameWalk(nodes, sorted, Parent(p));
    }
    forall p, q
      ensures OnePath(sorted, p, q)
    {
      WalkIsAt(nodes, at, p);
      WalkIsAt(nodes, at, q);
      SameWalk(nodes, sorted, p);
      SameWalk(nodes, sorted, q);
    }
  }

  /** The tree built from any list of entries, conflicting ones included, is the fold of the
      list: same paths, same contents, one inode a path, children in name order. */
  method BuildTree(store: BlockStore, blockSize: int, files: seq<FileEntry>) returns (t: FsTree)
    ensures Presents(t.nodes, Fold(files))
    ensures InodesOk(t.nodes)
    ensures forall i :: i in t.nodes && t.nodes[i].isDir ==> InNameOrder(t.nodes, t.nodes[i])
    ensures t.store == store && t.blockSize == blockSize
  {
    var b := new TreeBuilder();
    for k := 0 to |files|
      invariant fresh(b) && b.Valid()
      invariant b.Paths() == Fold(files[..k])
    {
      assert files[..k + 1][..k] == files[..k];
      b.Add(files[k]);
    }
    assert files[..|files|] == files;
    var sorted := SortChildren(b.nodes);
    NumberedPresents(b.nodes, b.at);
    SamePresents(b.nodes, sorted, Fold(files));
    NumberedInodes(b.nodes, b.at, sorted);
    forall i | i in sorted && sorted[i].isDir
      ensures InNameOrder(sorted, sorted[i])
    {
      SameNameOrder(b.nodes, sorted, sorted[i]);
    }
    t := FsTree(sorted, blockSize, store);
  }

  lemma SameNameOrder(nodes: map<nat, FileNode>, sorted: map<nat, FileNode>, n: FileNode)
    requires SameButOrder(nodes, sorted) && InNameOrder(nodes, n)
    ensures InNameOrder(sorted, n)
  {
    forall i
      ensures NameOf(nodes)(i) == NameOf(sorted)(i)
    {
    }
  }

  /** Resolves a path by following one name after the other, as both callers in the source do. */
  method LookupTreePath(t: FsTree, clean: Path, ghost m: PathMap) returns (r: Option<FileNode>)
    requires Presents(t.nodes, m) && InodesOk(t.nodes)
    ensures r.Some? <==> clean in m
    ensures r.Some? ==> Shape(r.value) == m[clean]
                        && Walk(t.nodes, clean) in t.nodes && r.value == t.nodes[Walk(t.nodes, clean)]
  {
    var ino := ROOT;
    assert PresentsAt(t.nodes, m, clean);
    if clean == [] {
      return Some(t.nodes[ino]);
    }
    for i := 0 to |clean|
      invariant ino == Walk(t.nodes, clean[..i]) != 0
    {
      assert clean[..i + 1][..i] == clean[..i];
      ino := LookupIn(t.nodes, ino, clean[i]);
      if ino == 0 {
        NothingBeyond(t.nodes, clean, i + 1);
        return None;
      }
    }
    assert clean[..|clean|] == clean;
    r := Some(t.nodes[ino]);
  }

  /** A directory's children are exactly the paths one name longer. */
  lemma ChildrenArePaths(nodes: map<nat, FileNode>, m: PathMap, p: Path, n: Name)
    requires Presents(nodes, m) && InodesOk(nodes) && p in m
    ensures Walk(nodes, p) in nodes
    ensures nodes[Walk(nodes, p)].isDir ==> (n in nodes[Walk(nodes, p)].children <==> p + [n] in m)
  {
    assert PresentsAt(nodes, m, p) && PresentsAt(nodes, m, p + [n]);
    assert Parent(p + [n]) == p && Base(p + [n]) == n;
  }

  lemma {:induction false} NothingBeyond(nodes: map<nat, FileNode>, p: Path, k: nat)
    requires 0 < k <= |p| && Walk(nodes, p[..k]) == 0 && 0 !in nodes
    ensures Walk(nodes, p) == 0
    decreases |p| - k
  {
    if k < |p| {
      assert p[..k + 1][..k] == p[..k];
      NothingBeyond(nodes, p, k + 1);
    } else {
      assert p[..k] == p;
    }
  }
}
