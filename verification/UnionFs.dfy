/** The live mount: every operation of the FUSE node, step by step on the upper directory,
    with the rollbacks the source performs when a step fails. */
module UnionFs {
  import opened Wrappers
  import opened Paths
  import opened Entries
  import opened Ordering
  import opened TreeData
  import opened BlockReads
  import opened Streaming
  import opened InodeTree
  import opened LowerView
  import opened UnionState
  import opened UnionMoves

  datatype Errno = OK | EINVAL | EROFS | ENOENT | ENOTDIR | EISDIR | ENOTEMPTY | EXDEV | EEXIST | EIO

  /** A primitive call on the upper file system. An operation is given the set of calls that fail, and
      the set of those that fail when it takes back what it has done; a failing call has no effect. */
  datatype Call =
    | CallMkdir(p: Path) | CallOpen(p: Path) | CallSymlink(p: Path) | CallRemove(p: Path)
    | CallRename(src: Path, dst: Path) | CallReadDir(p: Path) | CallWrite(off: nat) | CallClose
    | CallCloseMarker(p: Path) | CallLoopback(p: Path)

  type Faults = set<Call>

  /** The permissions in a mode: its lowest nine bits. */
  function Permissions(mode: nat): nat {
    mode % 0x200
  }

  datatype FileMode = NoMode | DirMode | LinkMode | FifoMode | RegMode

  datatype PathInfo = PathInfo(lower: Option<FileNode>, upper: Option<UpperEntry>) {
    predicate Exists() {
      upper.Some? || lower.Some?
    }

    function Mode(): FileMode {
      if upper.Some? then
        match upper.value
        case UDir => DirMode
        case UFile(_, _) => RegMode
        case ULink(_) => LinkMode
      else if lower.None? then NoMode
      else if lower.value.isDir then DirMode
      else if lower.value.kind == SymlinkKind || lower.value.link != "" then LinkMode
      else if lower.value.kind == FifoKind then FifoMode
      else RegMode
    }

    predicate IsDir() {
      Mode() == DirMode
    }
  }

  datatype DirEntry = DirEntry(name: Name, mode: FileMode)

  function ModeOf(n: Option<Node>): FileMode {
    match n
    case None => NoMode
    case Some(Dir) => DirMode
    case Some(File(_)) => RegMode
    case Some(Link(_)) => LinkMode
    case Some(Fifo) => FifoMode
  }

  /** The kind of file in a mode, said of what the view has. */
  predicate Tells(mode: FileMode, n: Option<Node>) {
    && (mode == NoMode <==> n.None?)
    && (mode == DirMode <==> n == Some(Dir))
    && (mode == RegMode <==> n.Some? && n.value.File?)
    && (mode == LinkMode <==> n.Some? && n.value.Link?)
    && (mode == FifoMode <==> n == Some(Fifo))
  }

  lemma ModeTells(n: Option<Node>)
    ensures Tells(ModeOf(n), n)
  {
  }

  const COPY_CHUNK: nat := 0x10_0000

  /** What copying a lower leaf up writes: the link when there is a target, else the bytes. */
  function CopyOf(l: LowerEntry): Node {
    match l
    case LDir => Dir
    case LLeaf(_, link, _, data) => if link != "" then Link(link) else File(data)
  }

  /** Copies look like the original, except for FIFOs and symlinks without a target. */
  lemma CopyIsFaithfulExactly(l: LowerEntry)
    ensures CopyOf(l) == SeeLower(l) <==> l.LDir? || l.link != "" || (l.kind != FifoKind && l.kind != SymlinkKind)
  {
  }

  /** The two halves of `stat` answer as the view does. At the root both halves are directories,
      so a read-only mount that never looks at the upper directory answers the same. */
  lemma InfoAgrees(full: BlockStore, s: State, p: Path, i: PathInfo)
    requires s.Inv()
    requires i.upper == (if !s.Hidden(p) && p in s.upper then Some(s.upper[p]) else None) || (p == [] && i.upper.None?)
    requires i.lower.Some? <==> !s.Hidden(p) && p in s.lower
    requires i.lower.Some? ==> s.lower[p] == EntryOf(full, Shape(i.lower.value))
    ensures i.Exists() <==> s.Lookup(p).Some?
    ensures i.Mode() == ModeOf(s.Lookup(p))
  {
    if i.upper.None? && i.lower.Some? {
      var l := i.lower.value;
      assert s.lower[p] == EntryOf(full, Shape(l));
    }
  }

  lemma ModeOfDir(n: Option<Node>)
    ensures ModeOf(n) == DirMode <==> n == Some(Dir)
    ensures ModeOf(n) == NoMode <==> n.None?
  {
  }

  /** Entries taken in the order of a sorted name list stay sorted. */
  lemma AppendInOrder(entries: seq<DirEntry>, names: seq<Name>, k: nat, d: DirEntry)
    requires StrictlySorted((n: Name) => n, names) && k < |names| && d.name == names[k]
    requires StrictlySorted((d: DirEntry) => d.name, entries)
    requires forall x :: x in entries ==> x.name in names[..k]
    ensures StrictlySorted((d: DirEntry) => d.name, entries + [d])
  {
    var more := entries + [d];
    forall i, j | 0 <= i < j < |more|
      ensures Less(more[i].name, more[j].name)
    {
      if j == |entries| {
        assert entries[i] in entries;
        var x :| 0 <= x < k && names[..k][x] == entries[i].name;
        assert Less(names[x], names[k]);
      }
    }
  }

  /** The entries list, in name order, what `stat` finds of the given names. */
  ghost predicate Entered(s: State, p: Path, names: seq<Name>, entries: seq<DirEntry>) {
    && StrictlySorted((d: DirEntry) => d.name, entries)
    && (forall d :: d in entries ==>
          d.name in names && s.Lookup(p + [d.name]).Some? && d.mode == ModeOf(s.Lookup(p + [d.name])))
    && (forall n :: n in names && s.Lookup(p + [n]).Some? ==> exists d :: d in entries && d.name == n)
  }

  lemma EnterFound(s: State, p: Path, names: seq<Name>, entries: seq<DirEntry>, d: DirEntry)
    requires Entered(s, p, names, entries) && StrictlySorted((d: DirEntry) => d.name, entries + [d])
    requires s.Lookup(p + [d.name]).Some? && d.mode == ModeOf(s.Lookup(p + [d.name]))
    ensures Entered(s, p, names + [d.name], entries + [d])
  {
    forall n | n in names + [d.name] && s.Lookup(p + [n]).Some?
      ensures exists x :: x in entries + [d] && x.name == n
    {
      if n == d.name {
        assert d in entries + [d];
      } else {
        var x :| x in entries && x.name == n;
        assert x in entries + [d];
      }
    }
  }

  lemma EnterMissing(s: State, p: Path, names: seq<Name>, entries: seq<DirEntry>, name: Name)
    requires Entered(s, p, names, entries) && s.Lookup(p + [name]).None?
    ensures Entered(s, p, names + [name], entries)
  {
  }

  lemma EnterOneMore(s: State, p: Path, sorted: seq<Name>, k: nat, entries: seq<DirEntry>)
    requires StrictlySorted((n: Name) => n, sorted) && k < |sorted| && Entered(s, p, sorted[..k], entries)
    ensures var found := s.Lookup(p + [sorted[k]]);
            Entered(s, p, sorted[..k + 1],
                    if found.Some? then entries + [DirEntry(sorted[k], ModeOf(found))] else entries)
  {
    var d := DirEntry(sorted[k], ModeOf(s.Lookup(p + [sorted[k]])));
    assert sorted[..k + 1] == sorted[..k] + [sorted[k]];
    if s.Lookup(p + [sorted[k]]).Some? {
      AppendInOrder(entries, sorted, k, d);
      EnterFound(s, p, sorted[..k], entries, d);
    } else {
      EnterMissing(s, p, sorted[..k], entries, sorted[k]);
    }
  }

  /** Missing ancestors of a directory are not among the entries of one of its children. */
  lemma AncestorsAreNoKids(s: State, parent: Path, made: nat, p: Path, e: UpperEntry)
    requires made <= |parent| && |p| == |parent| + 1 && p != []
    ensures var w, m := s.With(WithDirs(s.upper, parent, made)), Marker(p);
            && (w.NoUpperKids(p) <==> s.NoUpperKids(p))
            && (p in w.upper <==> p in s.upper) && (m in w.upper <==> m in s.upper)
            && (w.With(w.upper[m := e]).NoUpperKids(p) <==> s.NoUpperKids(p))
  {
    var w, m := s.With(WithDirs(s.upper, parent, made)), Marker(p);
    WithDirsAdds(s.upper, parent, made);
    TargetOfMarker(p);
    assert Parent(m) != p;
    forall q | q in w.upper && q !in s.upper
      ensures q <= parent && |q| <= |parent|
    {
    }
  }

  lemma UpperIsShown(s: State, p: Path)
    requires s.Inv() && PlainPath(p) && p in s.upper
    ensures !s.Hidden(p) && s.Lookup(p) == Some(SeeUpper(s.upper[p]))
  {
    if s.Hidden(p) { HiddenIsLowerOnly(s, p); }
  }

  lemma UpperStaysShown(s: State, p: Path)
    requires s.Inv() && PlainPath(p)
    ensures p in s.upper ==> !s.Hidden(p)
  {
    if p in s.upper { UpperIsShown(s, p); }
  }

  lemma LeafHasNoKids(s: State, p: Path)
    requires s.LowerOk() && p in s.lower && s.lower[p].LLeaf?
    ensures s.NoLowerKids(p)
  {
  }

  /** A read inside a file returns something, and it continues what has been read. */
  lemma SliceExtends(c: Bytes, off: nat, want: nat)
    requires off < |c| && 0 < want
    ensures var piece := Slice(c, off, want);
            0 < |piece| <= |c| - off && c[..off] + piece == c[..off + |piece|]
  {
  }

  lemma PutUndone(u: map<Path, UpperEntry>, m: Path, e: UpperEntry)
    requires m !in u
    ensures u[m := e] - {m} == u
  {
  }

  lemma PutForgotten(u: map<Path, UpperEntry>, p: Path, e: UpperEntry, f: UpperEntry)
    ensures u[p := e][p := f] == u[p := f]
  {
  }

  lemma MarkerAbsent(s: State, p: Path)
    requires s.Inv() && PlainPath(p) && p != [] && s.Lookup(p).Some?
    ensures Marker(p) !in s.upper
  {
  }

  /** Whatever the upper directory had at plain paths it still has. */
  ghost predicate PlainStays(u: map<Path, UpperEntry>, v: map<Path, UpperEntry>) {
    forall q :: q in u && PlainPath(q) ==> q in v
  }

  lemma ClearedStays(u: map<Path, UpperEntry>, v: map<Path, UpperEntry>, m: Path)
    requires PlainStays(u, v) && IsMarker(m)
    ensures PlainStays(u, v - {m})
  {
    forall q | q in u && PlainPath(q)
      ensures q != m
    {
      PlainIsNotMarker(q);
    }
  }

  lemma StaysThrough(u: map<Path, UpperEntry>, v: map<Path, UpperEntry>, w: map<Path, UpperEntry>)
    requires PlainStays(u, v) && PlainStays(v, w)
    ensures PlainStays(u, w)
  {
  }

  /** A marker for p that was not there before. */
  predicate MarkerLeft(u: map<Path, UpperEntry>, v: map<Path, UpperEntry>, p: Path)
    requires p != []
  {
    Marker(p) !in u && Marker(p) in v
  }

  /** No call fails that creates a missing directory on the way to p. */
  ghost predicate DirsMade(u: map<Path, UpperEntry>, p: Path, faults: Faults) {
    forall q {:trigger CallMkdir(q)} :: q <= p && q !in u ==> CallMkdir(q) !in faults
  }

  /** No call fails that leads to the marker for p; the closing of its file still may. */
  ghost predicate MarkerMade(u: map<Path, UpperEntry>, p: Path, faults: Faults)
    requires p != []
  {
    DirsMade(u, Parent(p), faults) && CallOpen(Marker(p)) !in faults
  }

  /** A marker for p is set without a failing call. */
  ghost predicate Hides(u: map<Path, UpperEntry>, p: Path, faults: Faults)
    requires p != []
  {
    MarkerMade(u, p, faults) && CallCloseMarker(Marker(p)) !in faults
  }

  /** Removing p sets a marker and then fails, and the marker is left: the closing of its file fails;
      or the upper entry cannot be removed, and after that the marker neither. */
  ghost predicate LeavesMarker(s: State, p: Path, faults: Faults, undo: Faults)
    requires p != []
  {
    && MarkerMade(s.upper, p, faults)
    && (CallCloseMarker(Marker(p)) in faults ||
        (p in s.upper && !(s.NoLowerKids(p) && CallRemove(p) !in faults) && CallRemove(Marker(p)) in undo))
  }

  lemma DirsMadeOneMore(u: map<Path, UpperEntry>, p: Path, k: nat, faults: Faults)
    requires k < |p| && DirsMade(u, p[..k], faults)
    ensures DirsMade(u, p[..k + 1], faults) <==> p[..k + 1] in u || CallMkdir(p[..k + 1]) !in faults
    ensures p[..k + 1] !in u && CallMkdir(p[..k + 1]) in faults ==> !DirsMade(u, p, faults)
  {
    var dir := p[..k + 1];
    if dir in u || CallMkdir(dir) !in faults {
      forall q {:trigger CallMkdir(q)} | q <= dir && q !in u
        ensures CallMkdir(q) !in faults
      {
        if q != dir { assert q <= p[..k]; }
      }
    }
    assert dir <= p;
  }

  /** The directories on the way to p have been made as far as `made`. */
  ghost predicate MakingDirs(u: map<Path, UpperEntry>, v: map<Path, UpperEntry>, p: Path, made: nat, faults: Faults) {
    made <= |p| && v == WithDirs(u, p, made) && DirsMade(u, p[..made], faults)
  }

  lemma NextDir(u: map<Path, UpperEntry>, v: map<Path, UpperEntry>, p: Path, k: nat, faults: Faults)
    requires MakingDirs(u, v, p, k, faults) && k < |p|
    ensures var dir := p[..k + 1];
            if dir in v then MakingDirs(u, v, p, k + 1, faults)
            else if CallMkdir(dir) in faults then !DirsMade(u, p, faults)
            else MakingDirs(u, v[dir := UDir], p, k + 1, faults)
  {
    WithDirsAdds(u, p, k);
    DirsMadeOneMore(u, p, k, faults);
  }

  lemma MakingIsInvisible(s: State, v: map<Path, UpperEntry>, p: Path, made: nat, faults: Faults)
    requires s.Inv() && PlainPath(p) && s.IsDir(p) && MakingDirs(s.upper, v, p, made, faults)
    ensures s.With(v).Inv() && s.With(v).View() == s.View() && Extends(s.upper, v, p)
    ensures made == |p| ==> p in v && v[p].UDir? && DirsMade(s.upper, p, faults)
  {
    WithDirsIsInvisible(s, p, made);
    WithDirsAdds(s.upper, p, made);
    assert p[..|p|] == p;
  }

  /** Above an upper entry nothing has to be made. */
  lemma NothingToMake(s: State, p: Path, q: Path, faults: Faults)
    requires s.UpperOk() && q in s.upper && p <= q
    ensures DirsMade(s.upper, p, faults)
  {
    forall r | r <= p
      ensures r in s.upper
    {
      UpperAncestors(s, r, q);
    }
  }

  /** Copying a leaf up makes no directory that was not made for it anyway. */
  lemma DirsMadeStable(u: map<Path, UpperEntry>, v: map<Path, UpperEntry>, src: Path, p: Path, faults: Faults)
    requires src != [] && Extends(u, v, src)
    requires u != v ==> !(src <= p) && DirsMade(u, Parent(src), faults)
    ensures DirsMade(v, p, faults) <==> DirsMade(u, p, faults)
  {
    if u != v {
      forall q {:trigger CallMkdir(q)} | q <= p && q !in u && q in v
        ensures CallMkdir(q) !in faults
      {
        assert q <= src && q != src;
        assert q <= Parent(src);
      }
    }
  }

  lemma NotAboveDir(s: State, p: Path, q: Path)
    requires s.Inv() && PlainPath(q) && s.IsDir(q) && !s.IsDir(p)
    ensures !(p <= q)
  {
    assert p <= q ==> q[..|p|] == p;
    if p <= q { PrefixIsDir(s, q, |p|); }
  }

  /** No call fails that removes a marker for p. */
  predicate Uncovered(u: map<Path, UpperEntry>, p: Path, faults: Faults)
    requires p != []
  {
    Marker(p) in u ==> CallRemove(Marker(p)) !in faults
  }

  /** No call fails that prepares a new entry: its directory is made and a marker for it removed. */
  ghost predicate EntryCanBeMade(u: map<Path, UpperEntry>, parent: Path, name: Name, faults: Faults) {
    DirsMade(u, parent, faults) && Uncovered(u, parent + [name], faults)
  }

  /** What `remove` checks of the path itself. */
  ghost predicate MayRemove(s: State, p: Path, dir: bool, faults: Faults) {
    s.Lookup(p).Some? && s.IsDir(p) == dir && (dir ==> LooksEmpty(s, p) && CallReadDir(p) !in faults)
  }

  /** Every read and every write of the copying loop succeeds from `off` on. */
  ghost predicate ChunksCopied(store: BlockStore, full: BlockStore, n: FileNode, off: nat, faults: Faults)
    requires HasBlocks(full, n)
    decreases n.size - off
  {
    off >= n.size ||
    (off + COPY_CHUNK <= MAX_INT64 && Readable(store, full, n, off, COPY_CHUNK) && CallWrite(off) !in faults &&
     ChunksCopied(store, full, n, off + COPY_CHUNK, faults))
  }

  ghost predicate BlocksIn(store: BlockStore, paths: PathMap, p: Path) {
    p in paths && paths[p].PLeaf? ==> forall b :: b in paths[p].blocks ==> b in store
  }

  /** Nothing stands in the way of copying p up: its blocks are at hand, and the last read of the
      loop, which asks for a whole chunk, stays within 64 bits. */
  ghost predicate CanCopy(store: BlockStore, paths: PathMap, p: Path) {
    && BlocksIn(store, paths, p)
    && (p in paths && paths[p].PLeaf? && paths[p].link == "" ==> paths[p].size + COPY_CHUNK <= MAX_INT64)
  }

  /** No call and no read fails that writes the copy of a leaf. */
  ghost predicate LeafCopied(store: BlockStore, full: BlockStore, p: Path, n: FileNode, faults: Faults) {
    if n.link != "" then CallSymlink(p) !in faults
    else CallOpen(p) !in faults && HasBlocks(full, n) && ChunksCopied(store, full, n, 0, faults) &&
         CallClose !in faults
  }

  /** The state of the copying loop: what is written is the file as far as `off`, and whether the copy
      succeeds depends on what comes after. */
  ghost predicate Copying(store: BlockStore, full: BlockStore, n: FileNode, off: nat, written: Bytes, faults: Faults) {
    && HasBlocks(full, n) && off <= n.size == |Content(full, n)| && written == Content(full, n)[..off]
    && (ChunksCopied(store, full, n, 0, faults) <==> ChunksCopied(store, full, n, off, faults))
  }

  /** One turn of the loop: it ends the copy, or the next chunk is added. */
  lemma NextChunk(store: BlockStore, full: BlockStore, blockSize: int, n: FileNode, off: nat, written: Bytes,
                  faults: Faults)
    requires WellFormed(full, blockSize, n) && off < n.size && !NoBlocks(n) && Allocatable(n, off, COPY_CHUNK)
    requires Copying(store, full, n, off, written, faults)
    ensures var r := ReadResult(store, full, n, off, COPY_CHUNK);
            if r.Err? || |r.value| == 0 || CallWrite(off) in faults then !ChunksCopied(store, full, n, 0, faults)
            else Copying(store, full, n, off + |r.value|, written + r.value, faults)
  {
    var r, c := ReadResult(store, full, n, off, COPY_CHUNK), Content(full, n);
    if r.Ok? && |r.value| > 0 && CallWrite(off) !in faults {
      SliceExtends(c, off, COPY_CHUNK);
      ChunkEnds(store, full, n, off, faults);
    }
  }

  /** Past the end of the file there is nothing left to copy. */
  lemma ChunkEnds(store: BlockStore, full: BlockStore, n: FileNode, off: nat, faults: Faults)
    requires HasBlocks(full, n) && off < n.size && off + COPY_CHUNK <= MAX_INT64 && CallWrite(off) !in faults
    requires Readable(store, full, n, off, COPY_CHUNK)
    ensures var end := if off + COPY_CHUNK > n.size then n.size else off + COPY_CHUNK;
            ChunksCopied(store, full, n, off, faults) <==> ChunksCopied(store, full, n, end, faults)
  {
  }

  /** All blocks are at hand, and a chunk that begins inside the file ends within 64 bits. */
  ghost predicate AllReadable(store: BlockStore, n: FileNode) {
    n.size + COPY_CHUNK <= MAX_INT64 && HasBlocks(store, n)
  }

  lemma PieceComes(store: BlockStore, full: BlockStore, blockSize: int, n: FileNode, off: nat)
    requires WellFormed(full, blockSize, n) && off < n.size && !NoBlocks(n) && Allocatable(n, off, COPY_CHUNK)
    requires AllReadable(store, n)
    ensures var r := ReadResult(store, full, n, off, COPY_CHUNK); r.Ok? && |r.value| > 0
  {
    SliceExtends(Content(full, n), off, COPY_CHUNK);
    if !Readable(store, full, n, off, COPY_CHUNK) { UnreadableIsMissing(store, full, n, off, COPY_CHUNK); }
  }

  lemma Copied(store: BlockStore, full: BlockStore, n: FileNode, off: nat, written: Bytes, faults: Faults)
    requires Copying(store, full, n, off, written, faults) && off >= n.size
    ensures written == Content(full, n) && ChunksCopied(store, full, n, 0, faults)
  {
  }

  /** The marker that the source of a rename may need is set without a failing call. */
  predicate SourceMarked(inLower: bool, src: Path, faults: Faults)
    requires src != []
  {
    inLower ==> CallOpen(Marker(src)) !in faults && CallCloseMarker(Marker(src)) !in faults
  }

  /** Of a rename that fails: the marker for its source is set and stays. */
  predicate SourceMarkerLeft(src: Path, faults: Faults, undo: Faults)
    requires src != []
  {
    CallOpen(Marker(src)) !in faults && MarkerStuck(src, faults, undo)
  }

  /** Of a rename that fails: the marker for its destination is cleared, and cannot be set again. */
  predicate LosesMarker(u: map<Path, UpperEntry>, dst: Path, faults: Faults, undo: Faults)
    requires dst != []
  {
    Marker(dst) in u && CallRemove(Marker(dst)) !in faults && CallOpen(Marker(dst)) in undo
  }

  /** What `rename` asks of its arguments. */
  predicate Asked(name: Name, newName: Name, flags: nat, sameMount: bool) {
    Proper(name) && Proper(newName) && sameMount && flags == 0
  }

  /** No call of the move itself fails. */
  predicate MoveMade(u: map<Path, UpperEntry>, src: Path, dst: Path, faults: Faults)
    requires dst != []
  {
    && Uncovered(u, dst, faults) && CallRename(src, dst) !in faults && UpperAccepts(u, src, dst)
  }

  /** A marker for p that was there before and is not any more. */
  predicate MarkerLost(u: map<Path, UpperEntry>, v: map<Path, UpperEntry>, p: Path)
    requires p != []
  {
    Marker(p) in u && Marker(p) !in v
  }

  /** Setting a marker for p and failing after it leaves the marker: its file cannot be closed, or the
      marker cannot be taken back. */
  predicate MarkerStuck(p: Path, faults: Faults, undo: Faults)
    requires p != []
  {
    CallCloseMarker(Marker(p)) in faults || CallRemove(Marker(p)) in undo
  }

  /** What a failing removal leaves: the view as it was; or the marker for p, which hides p. The state
      is then good exactly when the upper has nothing at p and nothing lower lies below. */
  ghost predicate FailedAt(s: State, t: State, p: Path, faults: Faults, undo: Faults)
    requires p != []
  {
    && t.lower == s.lower
    && if MarkerLeft(s.upper, t.upper, p)
       then && MarkerStuck(p, faults, undo) && t.View() == s.View() - {p}
            && (t.Inv() <==> p !in t.upper && t.NoLowerKids(p))
       else t.Inv() && t.View() == s.View()
  }

  /** A view after a rename that failed: a marker left hides the source, and a marker lost uncovers
      what the lower tree has at the destination. */
  function Spoilt(v: View, s: State, src: Path, dst: Path, left: bool, lost: bool): View {
    (if lost && dst in s.lower then v[dst := SeeLower(s.lower[dst])] else v) - (if left then {src} else {})
  }

  /** What a failing rename of an upper entry leaves: the view as it was, but for markers that could
      not be taken back or put back. */
  ghost predicate EntryFailed(s: State, t: State, src: Path, dst: Path, faults: Faults, undo: Faults)
    requires src != [] && dst != []
  {
    var left, lost := MarkerLeft(s.upper, t.upper, src), MarkerLost(s.upper, t.upper, dst);
    && t.lower == s.lower && (left ==> MarkerStuck(src, faults, undo)) && (lost ==> CallOpen(Marker(dst)) in undo)
    && t.View() == Spoilt(s.View(), s, src, dst, left, lost) && (t.Inv() <==> !left)
  }

  /** What a failing rename leaves: the same, but for a copy of the source besides. */
  ghost predicate RenameFailed(s: State, t: State, src: Path, dst: Path, faults: Faults, undo: Faults)
    requires src != [] && dst != []
  {
    var left, lost := MarkerLeft(s.upper, t.upper, src), MarkerLost(s.upper, t.upper, dst);
    && t.lower == s.lower && (left ==> MarkerStuck(src, faults, undo)) && (lost ==> CallOpen(Marker(dst)) in undo)
    && (t.View() == Spoilt(AfterCopyUp(s, src), s, src, dst, left, lost) || (!left && !lost && t.View() == s.View()))
    && (t.Inv() <==> !left)
  }

  ghost predicate EntryOutcome(s: State, t: State, src: Path, dst: Path, e: Errno, faults: Faults, undo: Faults)
    requires src != [] && dst != []
  {
    if e == OK then !(src <= dst) && RenamedAs(s, t, src, dst) else EntryFailed(s, t, src, dst, faults, undo)
  }

  ghost predicate RenameOutcome(s: State, t: State, src: Path, dst: Path, e: Errno, faults: Faults, undo: Faults)
    requires src != [] && dst != []
  {
    if e == OK then RenamedAs(s, t, src, dst) else RenameFailed(s, t, src, dst, faults, undo)
  }

  /** The view after making p has failed: as it was, but that a marker lost uncovers the lower entry. */
  function ViewUnmade(s: State, t: State, p: Path): View
    requires p != []
  {
    if MarkerLost(s.upper, t.upper, p) && p in s.lower then s.View()[p := SeeLower(s.lower[p])] else s.View()
  }

  /** A state that is good again and shows what was shown. */
  lemma RolledBack(s: State, t: State, p: Path, faults: Faults, undo: Faults)
    requires t.Inv() && t.lower == s.lower && t.View() == s.View()
    requires PlainPath(p) && p != [] && s.Lookup(p).Some?
    ensures FailedAt(s, t, p, faults, undo) && !MarkerLeft(s.upper, t.upper, p)
  {
    ViewAt(s, p);
    ViewAt(t, p);
    MarkerAbsent(t, p);
  }

  /** Directories made on the way to p change nothing that making p depends on. */
  lemma DirsUnseen(s: State, w: State, t: State, p: Path, faults: Faults)
    requires PlainPath(p) && p != [] && s.lower == w.lower && s.View() == w.View()
    requires Extends(s.upper, w.upper, Parent(p)) && PlainStays(w.upper, t.upper)
    ensures Marker(p) in w.upper <==> Marker(p) in s.upper
    ensures ViewUnmade(s, t, p) == ViewUnmade(w, t, p)
    ensures MarkerLost(s.upper, t.upper, p) == MarkerLost(w.upper, t.upper, p)
    ensures PlainStays(s.upper, t.upper)
  {
    PlainParent(p);
    NoMarkerAdded(s, w, Parent(p), p);
  }

  /** Writing a marker anew changes nothing. */
  lemma Remarked(w: State, p: Path, mark: UpperEntry)
    requires w.Inv() && PlainPath(p) && p != [] && Marker(p) in w.upper && w.IsDir(Parent(p)) && mark.UFile?
    ensures w.With(w.upper[Marker(p) := mark]).Inv() && w.With(w.upper[Marker(p) := mark]).View() == w.View()
  {
    var c := w.With(w.upper - {Marker(p)});
    Unmarked(w, Parent(p), p);
    TargetOfMarker(p);
    ParentOfUpper(w, Marker(p));
    MarkerRestored(c, p, mark, w.View());
    assert c.upper[Marker(p) := mark] == w.upper[Marker(p) := mark];
  }

  /** What taking back the marker changes of a rename leaves in the upper directory: c is what became of
      the marker for the destination, which was lost, written anew, or not touched. */
  lemma UndoneFails(w: State, c: State, t: State, src: Path, dst: Path, left: bool, lost: bool, mark: UpperEntry,
                    faults: Faults, undo: Faults)
    requires w.Inv() && PlainPath(src) && PlainPath(dst) && src != [] && dst != [] && src != dst && mark.UFile?
    requires src in w.upper && w.IsDir(Parent(dst)) && c.lower == w.lower
    requires left ==> src in w.lower && MarkerStuck(src, faults, undo)
    requires lost ==> Marker(dst) in w.upper && CallOpen(Marker(dst)) in undo
    requires if lost then c.upper == w.upper - {Marker(dst)}
             else c.upper == w.upper || (Marker(dst) in w.upper && c.upper == w.upper[Marker(dst) := mark])
    requires t == if left then c.With(c.upper[Marker(src) := mark]) else c
    ensures EntryFailed(w, t, src, dst, faults, undo)
    ensures MarkerLeft(w.upper, t.upper, src) == left && MarkerLost(w.upper, t.upper, dst) == lost
  {
    DestinationUndone(w, c, src, dst, lost, mark);
    UpperIsShown(w, src);
    MarkerAbsent(w, src);
    assert EntryFailed(w, c, src, dst, faults, undo);
    if left { SourceUndone(w, c, src, dst, mark, faults, undo); }
  }

  /** The marker over the source cannot be taken back. */
  lemma SourceUndone(w: State, c: State, src: Path, dst: Path, mark: UpperEntry, faults: Faults, undo: Faults)
    requires c.Inv() && PlainPath(src) && src != [] && dst != [] && src != dst && mark.UFile?
    requires src in c.upper && src in c.lower && Marker(src) !in w.upper && Marker(src) !in c.upper
    requires EntryFailed(w, c, src, dst, faults, undo) && MarkerStuck(src, faults, undo)
    ensures var t := c.With(c.upper[Marker(src) := mark]);
            && EntryFailed(w, t, src, dst, faults, undo)
            && MarkerLeft(w.upper, t.upper, src)
            && MarkerLost(w.upper, t.upper, dst) == MarkerLost(w.upper, c.upper, dst)
  {
    var t := c.With(c.upper[Marker(src) := mark]);
    MarkersDiffer(src, dst);
    SourceHidden(c, t, src, mark);
    LeftBesides(w, c, t, src, dst, faults, undo);
  }

  lemma SourceHidden(c: State, t: State, src: Path, mark: UpperEntry)
    requires c.Inv() && PlainPath(src) && src != [] && mark.UFile? && src in c.upper && src in c.lower
    requires t == c.With(c.upper[Marker(src) := mark])
    ensures !t.Inv() && t.View() == c.View() - {src}
  {
    UpperIsShown(c, src);
    ParentOfUpper(c, src);
    MarkerLeftBehind(c, src, mark);
  }

  lemma LeftBesides(w: State, c: State, t: State, src: Path, dst: Path, faults: Faults, undo: Faults)
    requires src != [] && dst != [] && Marker(src) !in w.upper && Marker(src) !in c.upper && Marker(src) in t.upper
    requires t.lower == c.lower && !t.Inv() && t.View() == c.View() - {src}
    requires Marker(dst) in t.upper <==> Marker(dst) in c.upper
    requires EntryFailed(w, c, src, dst, faults, undo) && MarkerStuck(src, faults, undo)
    ensures EntryFailed(w, t, src, dst, faults, undo)
  {
  }

  /** The marker for the source could not be set, or its file not be closed. */
  lemma MarkingFails(w: State, t: State, src: Path, dst: Path, faults: Faults, undo: Faults)
    requires w.Inv() && src in w.upper && PlainPath(src) && src != [] && dst != []
    requires FailedAt(w, t, src, faults, {}) && src in t.upper && forall q :: q in w.upper ==> q in t.upper
    ensures EntryFailed(w, t, src, dst, faults, undo) && !MarkerLost(w.upper, t.upper, dst)
    ensures MarkerLeft(w.upper, t.upper, src) ==> CallCloseMarker(Marker(src)) in faults
  {
  }

  lemma ParentOfUpper(s: State, p: Path)
    requires s.UpperOk() && p in s.upper && p != []
    ensures Parent(p) in s.upper && s.upper[Parent(p)].UDir?
  {
  }

  lemma DestinationUndone(w: State, c: State, src: Path, dst: Path, lost: bool, mark: UpperEntry)
    requires w.Inv() && PlainPath(src) && PlainPath(dst) && src != [] && dst != [] && src != dst && mark.UFile?
    requires src in w.upper && w.IsDir(Parent(dst)) && c.lower == w.lower && (lost ==> Marker(dst) in w.upper)
    requires if lost then c.upper == w.upper - {Marker(dst)}
             else c.upper == w.upper || (Marker(dst) in w.upper && c.upper == w.upper[Marker(dst) := mark])
    ensures c.Inv() && c.View() == Spoilt(w.View(), w, src, dst, false, lost)
    ensures src in c.upper && MarkerLost(w.upper, c.upper, dst) == lost
    ensures Marker(src) in c.upper <==> Marker(src) in w.upper
  {
    MarkersDiffer(src, dst);
    TargetOfMarker(dst);
    PlainIsNotMarker(src);
    assert c == w.With(c.upper);
    if lost {
      MarkerUncovers(w, dst);
    } else if c.upper != w.upper {
      Remarked(w, dst, mark);
    }
  }

  lemma StillUncovered(s: State, p: Path, v: View)
    requires PlainPath(p) && !s.Hidden(p) && p in s.lower && p !in s.upper && s.View() - {p} == v
    ensures s.View() == v[p := SeeLower(s.lower[p])]
  {
    ViewAt(s, p);
  }

  /** Without its marker, what it hid is seen again. */
  lemma MarkerUncovers(w: State, dst: Path)
    requires w.Inv() && PlainPath(dst) && dst != [] && Marker(dst) in w.upper && w.IsDir(Parent(dst))
    ensures var c := w.With(w.upper - {Marker(dst)});
            c.Inv() && dst in w.lower && c.View() == w.View()[dst := SeeLower(w.lower[dst])]
  {
    var c := w.With(w.upper - {Marker(dst)});
    Unmarked(w, Parent(dst), dst);
    ViewAt(c, dst);
  }

  lemma MarksCommute(u: map<Path, UpperEntry>, a: Path, b: Path, mark: UpperEntry)
    requires a != b
    ensures u[a := mark] - {b} == (u - {b})[a := mark]
    ensures (u[a := mark] - {b})[b := mark] == u[b := mark][a := mark]
    ensures (u - {b})[b := mark] == u[b := mark]
  {
  }

  /** A rename that fails before anything but directories has been made. */
  lemma NothingSpoilt(s: State, t: State, src: Path, dst: Path, faults: Faults, undo: Faults)
    requires PlainPath(dst) && src != [] && dst != []
    requires t.Inv() && t.lower == s.lower && t.View() == s.View() && Extends(s.upper, t.upper, Parent(dst))
    ensures EntryFailed(s, t, src, dst, faults, undo)
    ensures !MarkerLeft(s.upper, t.upper, src) && !MarkerLost(s.upper, t.upper, dst)
  {
    PlainParent(dst);
    NoMarkerAdded(s, t, Parent(dst), src);
  }

  lemma EntryFailedStable(s: State, w: State, t: State, src: Path, dst: Path, faults: Faults, undo: Faults)
    requires src != [] && dst != [] && s.lower == w.lower && s.View() == w.View()
    requires Marker(src) in s.upper <==> Marker(src) in w.upper
    requires Marker(dst) in s.upper <==> Marker(dst) in w.upper
    requires EntryFailed(w, t, src, dst, faults, undo)
    ensures EntryFailed(s, t, src, dst, faults, undo)
    ensures MarkerLeft(s.upper, t.upper, src) == MarkerLeft(w.upper, t.upper, src)
    ensures MarkerLost(s.upper, t.upper, dst) == MarkerLost(w.upper, t.upper, dst)
  {
  }

  /** A marker set over a visible lower path hides it, whatever the upper has there. The state stays
      good exactly when the upper has nothing there and nothing lower lies below. */
  lemma MarkerLeftBehind(s: State, p: Path, e: UpperEntry)
    requires s.Inv() && PlainPath(p) && p != [] && s.Lookup(p).Some? && p in s.lower && e.UFile?
    requires Parent(p) in s.upper && s.upper[Parent(p)].UDir?
    ensures var t := s.With(s.upper[Marker(p) := e]);
            t.View() == s.View() - {p} && (t.Inv() <==> p !in s.upper && s.NoLowerKids(p))
  {
    var t := s.With(s.upper[Marker(p) := e]);
    TargetOfMarker(p);
    PlainIsNotMarker(p);
    HiddenElsewhere(s, t, p);
    forall q | PlainPath(q)
      ensures t.Lookup(q) == if q in s.View() - {p} then Some((s.View() - {p})[q]) else None
    {
      ViewAt(s, q);
      PlainIsNotMarker(q);
    }
    ViewIs(t, s.View() - {p});
    if p !in s.upper && s.NoLowerKids(p) {
      PutMarkerKeepsInv(s, p, e);
    } else if t.Inv() {
      HiddenIsLowerOnly(t, p);
      assert t.Hidden(p);
    }
  }

  /** What the upper file system's rename refuses by itself. */
  predicate UpperAllows(u: map<Path, UpperEntry>, src: Path, dst: Path)
    requires src in u
  {
    && !(dst in u && u[dst].UDir?)
    && !(u[src].UDir? && (src <= dst || dst in u))
  }

  /** The upper directory with the source of a rename marked, if a lower entry remains there. */
  function Marked(w: State, src: Path, mark: UpperEntry): map<Path, UpperEntry>
    requires src != []
  {
    if src in w.lower then w.upper[Marker(src) := mark] else w.upper
  }

  /** Marking the source changes nothing else the rename looks at, and can be taken back. */
  lemma MarkedAt(w: State, src: Path, dst: Path, mark: UpperEntry)
    requires w.Inv() && PlainPath(src) && PlainPath(dst) && src != [] && dst != [] && src != dst && src in w.upper
    ensures var m := Marked(w, src, mark);
            && (Marker(dst) in m <==> Marker(dst) in w.upper)
            && src in m && m[src] == w.upper[src] && src in m - {Marker(dst)}
            && (dst in m - {Marker(dst)} <==> dst in w.upper) && (dst in w.upper ==> m[dst] == w.upper[dst])
            && UpperAllows(m - {Marker(dst)}, src, dst) == UpperAllows(w.upper, src, dst)
            && (src in w.lower ==> m - {Marker(src)} == w.upper)
            && (src in w.lower ==> m - {Marker(dst)} - {Marker(src)} == w.upper - {Marker(dst)})
            && (Marker(dst) !in w.upper ==> m - {Marker(dst)} == m && w.upper - {Marker(dst)} == w.upper)
  {
    TargetOfMarker(src);
    TargetOfMarker(dst);
    PlainIsNotMarker(src);
    PlainIsNotMarker(dst);
    MarkersDiffer(src, dst);
  }

  /** Without the marker over dst, its directory is still visible and can take the marker back. */
  lemma Unmarked(w: State, newParent: Path, dst: Path)
    requires w.Inv() && PlainPath(dst) && dst != [] && Parent(dst) == newParent && w.Hidden(dst) && w.IsDir(newParent)
    ensures var c := w.With(w.upper - {Marker(dst)});
            && c.Inv() && c.IsDir(newParent) && !c.Hidden(dst)
            && dst in c.lower && dst !in c.upper && c.NoLowerKids(dst) && c.View() - {dst} == w.View()
  {
    var c := w.With(w.upper - {Marker(dst)});
    DropMarker(w, dst);
    ViewAt(w, dst);
    PlainParent(dst);
    ViewAt(w, newParent);
    ViewAt(c, newParent);
  }

  /** A rename the upper file system allows never moves a subtree into itself. */
  lemma NotIntoItself(w: State, src: Path, dst: Path)
    requires w.Inv() && PlainPath(src) && PlainPath(dst) && src != [] && dst != [] && src != dst && src in w.upper
    requires Parent(dst) in w.upper && w.upper[Parent(dst)].UDir? && UpperAllows(w.upper, src, dst)
    ensures CanMove(w, src, dst)
  {
    if src <= dst && !w.upper[src].UDir? {
      BelowParent(src, dst);
      if src != Parent(dst) { NothingUpperBelow(w, src, Parent(dst)); }
    }
  }

  /** The newer upper directory only adds, and only on the way to p. */
  ghost predicate Extends(u: map<Path, UpperEntry>, v: map<Path, UpperEntry>, p: Path) {
    && (forall q :: q in u ==> q in v && v[q] == u[q])
    && (forall q :: q in v && q !in u ==> q <= p && (q != p ==> v[q].UDir?))
  }

  /** Adding entries on the way to either end leaves what a rename depends on as it is. */
  lemma MoveExactStable(s: State, t: State, src: Path, dst: Path, p: Path)
    requires s.lower == t.lower && Extends(s.upper, t.upper, p) && src != [] && dst != []
    requires p == src || p == Parent(dst)
    requires !(src <= dst)
    ensures MoveExact(t, src, dst) <==> MoveExact(s, src, dst)
  {
    forall q | Below(dst, q)
      ensures src + q[|dst|..] in t.upper <==> src + q[|dst|..] in s.upper
    {
      var r := src + q[|dst|..];
      assert src < r;
      assert r <= Parent(dst) ==> src <= dst;
    }
  }

  /** What `stat` answers after a rename, in terms of the state before it, the copy of the source included. */
  function RenamedNode(s: State, src: Path, dst: Path, q: Path): Option<Node> {
    if q == src then None
    else if src <= q then LowerOnly(s, q)
    else if q == dst then
      if src in AfterCopyUp(s, src) then Some(AfterCopyUp(s, src)[src]) else None
    else if dst <= q then
      var r := src + q[|dst|..];
      if s.Hidden(r) then None
      else if r in s.upper then Some(SeeUpper(s.upper[r]))
      else LowerOnly(s, q)
    else s.Lookup(q)
  }

  /** t is s after a rename: at every path what `RenamedNode` says; a move of the whole subtree
      exactly under `MoveExact`, a merge into the destination exactly when the source has no lower
      children; and a good state exactly under `RenameKeeps`. */
  ghost predicate RenamedAs(s: State, t: State, src: Path, dst: Path) {
    && t.lower == s.lower
    && (forall q {:trigger t.Lookup(q)} :: PlainPath(q) ==> t.Lookup(q) == RenamedNode(s, src, dst, q))
    && (t.View() == MoveSubtree(AfterCopyUp(s, src), src, dst) <==> MoveExact(s, src, dst))
    && (t.View() == MergeSubtree(AfterCopyUp(s, src), src, dst) <==> s.NoLowerKids(src))
    && (t.Inv() <==> RenameKeeps(s, src, dst))
  }

  lemma RenamedIsAs(w: State, src: Path, dst: Path)
    requires w.Inv() && CanMove(w, src, dst)
    ensures RenamedAs(w, Renamed(w, src, dst, UFile(0x1A4, [])), src, dst)
  {
    var t := Renamed(w, src, dst, UFile(0x1A4, []));
    MovesApart(w, src, dst);
    UpperIsShown(w, src);
    ViewAt(w, src);
    forall q | PlainPath(q)
      ensures t.Lookup(q) == RenamedNode(w, src, dst, q)
    {
      LookupAfterRename(w, src, dst, UFile(0x1A4, []), q);
      if q == dst { assert src + q[|dst|..] == src; }
    }
    RenameIsMoveExactly(w, src, dst, UFile(0x1A4, []));
    RenameIsMergeExactly(w, src, dst, UFile(0x1A4, []));
    RenameKeepsInvExactly(w, src, dst, UFile(0x1A4, []));
  }

  /** What copying the source up, or creating directories for the destination, changes of what `stat`
      answers: the source may now be a copy. */
  lemma LookupStable(s: State, t: State, src: Path, q: Path)
    requires PlainPath(src) && PlainPath(q) && t.View() == AfterCopyUp(s, src)
    ensures q != src ==> t.Lookup(q) == s.Lookup(q)
    ensures t.IsDir(q) <==> s.IsDir(q)
    ensures t.Lookup(q).Some? <==> s.Lookup(q).Some?
  {
    ViewAt(s, q);
    ViewAt(t, q);
  }

  lemma RenameKeepsStable(s: State, t: State, src: Path, dst: Path)
    requires s.LowerOk() && PlainPath(src) && PlainPath(dst) && s.lower == t.lower && t.View() == AfterCopyUp(s, src)
    ensures RenameKeeps(t, src, dst) <==> RenameKeeps(s, src, dst)
  {
    forall q {:trigger Parent(q)} | q in s.lower && q != [] && dst <= Parent(q)
      ensures CoverIsDir(t, src, dst, Parent(q)) <==> CoverIsDir(s, src, dst, Parent(q))
    {
      PlainParent(q);
      PlainRebase(dst, src, Parent(q));
      LookupStable(s, t, src, src + Parent(q)[|dst|..]);
    }
  }

  lemma RenamedNodeStable(s: State, t: State, src: Path, dst: Path, p: Path, q: Path)
    requires PlainPath(src) && PlainPath(q) && src != [] && dst != [] && src != dst && !(src <= dst)
    requires s.lower == t.lower && Extends(s.upper, t.upper, p) && (p == src || p == Parent(dst))
    requires t.View() == AfterCopyUp(s, src) && (p == src ==> src in t.upper) && (p != src ==> src in s.upper)
    ensures RenamedNode(t, src, dst, q) == RenamedNode(s, src, dst, q)
  {
    assert src in t.upper;
    if dst < q && !(src <= q) {
      var r := src + q[|dst|..];
      assert src < r && src < Marker(r);
      assert Marker(r) <= Parent(dst) ==> src <= dst;
      assert r <= Parent(dst) ==> src <= dst;
    } else if q != src && !(src <= q) && q != dst {
      LookupStable(s, t, src, q);
    }
  }

  lemma RenamedAsStable(s: State, t: State, u: State, src: Path, dst: Path, p: Path)
    requires s.LowerOk() && PlainPath(src) && PlainPath(dst) && src != [] && dst != [] && src != dst && !(src <= dst)
    requires s.lower == t.lower && Extends(s.upper, t.upper, p) && (p == src || p == Parent(dst))
    requires t.View() == AfterCopyUp(s, src) && (p == src ==> src in t.upper) && (p != src ==> src in s.upper)
    requires RenamedAs(t, u, src, dst)
    ensures RenamedAs(s, u, src, dst)
  {
    forall q {:trigger u.Lookup(q)} | PlainPath(q)
      ensures u.Lookup(q) == RenamedNode(s, src, dst, q)
    {
      RenamedNodeStable(s, t, src, dst, p, q);
    }
    assert src in t.upper;
    assert AfterCopyUp(t, src) == t.View();
    MoveExactStable(s, t, src, dst, p);
    RenameKeepsStable(s, t, src, dst);
  }

  /** Directories and copies are no markers. */
  lemma NoMarkerAdded(s: State, t: State, p: Path, src: Path)
    requires Extends(s.upper, t.upper, p) && PlainPath(p) && src != []
    ensures Marker(src) in t.upper <==> Marker(src) in s.upper
  {
    TargetOfMarker(src);
    if Marker(src) <= p {
      var m := Marker(src);
      assert m[|m| - 1] == p[|m| - 1];
    }
  }

  /** What the upper file system accepts to rename, given only what is there beforehand. */
  predicate UpperAccepts(u: map<Path, UpperEntry>, src: Path, dst: Path) {
    && !(dst in u && u[dst].UDir?) && !(dst <= src)
    && !(src in u && u[src].UDir? && (src <= dst || dst in u))
  }

  /** The three reasons for which the upper file system refuses a rename: there is a directory at the
      destination, a directory is moved below itself, or over something that is none. */
  predicate DirAtDestination(u: map<Path, UpperEntry>, src: Path, dst: Path) {
    (dst in u && u[dst].UDir?) || dst <= src
  }

  predicate IntoItself(u: map<Path, UpperEntry>, src: Path, dst: Path) {
    src in u && u[src].UDir? && src <= dst
  }

  predicate DirOverFile(u: map<Path, UpperEntry>, src: Path, dst: Path) {
    src in u && u[src].UDir? && dst in u
  }

  function UpperError(u: map<Path, UpperEntry>, src: Path, dst: Path, faults: Faults): Errno {
    if DirAtDestination(u, src, dst) then EEXIST
    else if CallRename(src, dst) in faults then EIO
    else if IntoItself(u, src, dst) then EINVAL
    else if DirOverFile(u, src, dst) then ENOTDIR
    else OK
  }

  /** How a rename of an upper entry is answered. */
  ghost function EntryError(u: map<Path, UpperEntry>, inLower: bool, src: Path, dst: Path, faults: Faults): Errno
    requires src != [] && dst != []
  {
    if !DirsMade(u, Parent(dst), faults) || !SourceMarked(inLower, src, faults) || !Uncovered(u, dst, faults) then EIO
    else UpperError(u, src, dst, faults)
  }

  /** The checks in the order the upper file system makes them, in the directory as it is then. */
  lemma ErrorsAgree(w: State, u: map<Path, UpperEntry>, src: Path, dst: Path, faults: Faults, e: Errno)
    requires w.UpperOk() && src in w.upper && src != dst && src in u && u[src] == w.upper[src]
    requires (dst in u <==> dst in w.upper) && (dst in u ==> u[dst] == w.upper[dst])
    requires e == if dst in u && u[dst].UDir? then EEXIST
                  else if CallRename(src, dst) in faults then EIO
                  else if u[src].UDir? && src <= dst then EINVAL
                  else if u[src].UDir? && dst in u then ENOTDIR
                  else OK
    ensures e == UpperError(w.upper, src, dst, faults)
  {
    if dst <= src { UpperAncestors(w, dst, src); }
  }

  lemma CopiedErrors(s: State, t: State, src: Path, dst: Path, faults: Faults)
    requires CopiedUp(s, t, src) && src != dst
    ensures UpperError(t.upper, src, dst, faults) == UpperError(s.upper, src, dst, faults)
  {
    assert dst in t.upper && dst !in s.upper ==> dst <= src;
  }

  lemma MadeErrors(s: State, w: State, src: Path, dst: Path, faults: Faults)
    requires dst != [] && src in s.upper && Extends(s.upper, w.upper, Parent(dst))
    ensures UpperError(w.upper, src, dst, faults) == UpperError(s.upper, src, dst, faults)
  {
  }

  /** When a rename goes through if no call fails. */
  predicate RenameAccepted(s: State, oldParent: Path, name: Name, newParent: Path, newName: Name, flags: nat,
                           sameMount: bool, writable: bool)
  {
    var src, dst := oldParent + [name], newParent + [newName];
    && Asked(name, newName, flags, sameMount) && writable
    && (src == dst ||
        (CanStart(s, src) && UpperAccepts(s.upper, src, dst)))
  }

  /** Only a path that shows from the upper directory, or can be copied there, can be renamed. */
  predicate CanStart(s: State, src: Path) {
    s.Lookup(src).Some? && (src in s.upper || (src in s.lower && s.lower[src].LLeaf?))
  }

  /** A lower leaf shows through at p. */
  predicate ShowsLower(s: State, p: Path) {
    p !in s.upper && p in s.lower && s.lower[p].LLeaf? && !s.Hidden(p)
  }

  /** The view once p has been copied up, should it be a lower leaf. */
  function AfterCopyUp(s: State, p: Path): View {
    if ShowsLower(s, p) then s.View()[p := CopyOf(s.lower[p])] else s.View()
  }

  /** Copying a leaf up leaves every visible directory visible. */
  lemma DirStays(s: State, t: State, src: Path, d: Path)
    requires PlainPath(d) && s.IsDir(d) && t.View() == AfterCopyUp(s, src)
    ensures t.IsDir(d)
  {
    ViewAt(s, d);
    ViewAt(t, d);
  }

  /** Creating the directories of the destination does not change what is accepted. */
  lemma AllowedIsAccepted(s: State, w: State, src: Path, dst: Path)
    requires s.Inv() && w.UpperOk() && src != [] && dst != [] && src != dst && src in s.upper
    requires Extends(s.upper, w.upper, Parent(dst))
    ensures UpperAllows(w.upper, src, dst) <==> UpperAccepts(s.upper, src, dst)
  {
    if dst < src { UpperAncestors(w, dst, src); }
  }

  /** t is s with a leaf at src copied up, if it was not in the upper directory before. */
  ghost predicate CopiedUp(s: State, t: State, src: Path) {
    && s.Inv() && t.Inv() && t.lower == s.lower && t.View() == AfterCopyUp(s, src)
    && Extends(s.upper, t.upper, src) && src in t.upper && (src !in s.upper ==> !t.upper[src].UDir?)
  }

  /** Neither does copying the source up, nor is any call of the move another one. */
  lemma CopiedMoves(s: State, t: State, src: Path, dst: Path, faults: Faults)
    requires CopiedUp(s, t, src) && PlainPath(src) && src != [] && dst != [] && src != dst
    ensures UpperAccepts(t.upper, src, dst) <==> UpperAccepts(s.upper, src, dst)
    ensures MoveMade(t.upper, src, dst, faults) <==> MoveMade(s.upper, src, dst, faults)
  {
    NoMarkerAdded(s, t, src, dst);
    assert dst in t.upper && dst !in s.upper ==> dst <= src;
  }

  lemma MadeMoves(s: State, w: State, src: Path, dst: Path, faults: Faults)
    requires PlainPath(dst) && dst != [] && src in s.upper && Extends(s.upper, w.upper, Parent(dst))
    ensures MoveMade(w.upper, src, dst, faults) <==> MoveMade(s.upper, src, dst, faults)
  {
    PlainParent(dst);
    NoMarkerAdded(s, w, Parent(dst), dst);
  }

  /** A rename that fails before anything but directories and a copy has been made. */
  lemma RenameNotBegun(s: State, t: State, src: Path, dst: Path, faults: Faults, undo: Faults)
    requires t.Inv() && t.lower == s.lower && t.View() == s.View() && Extends(s.upper, t.upper, src)
    requires PlainPath(src) && src != [] && dst != []
    ensures RenameFailed(s, t, src, dst, faults, undo)
    ensures !MarkerLeft(s.upper, t.upper, src) && !MarkerLost(s.upper, t.upper, dst)
  {
    NoMarkerAdded(s, t, src, src);
  }

  /** What a rename of the copy leaves, seen from the state before the copying. */
  lemma RenamedFromCopy(s: State, t: State, u: State, src: Path, dst: Path, e: Errno, faults: Faults, undo: Faults)
    requires CopiedUp(s, t, src) && PlainPath(src) && PlainPath(dst) && src != [] && dst != [] && src != dst
    requires EntryOutcome(t, u, src, dst, e, faults, undo)
    ensures RenameOutcome(s, u, src, dst, e, faults, undo)
    ensures MarkerLeft(s.upper, u.upper, src) == MarkerLeft(t.upper, u.upper, src)
    ensures MarkerLost(s.upper, u.upper, dst) == MarkerLost(t.upper, u.upper, dst)
  {
    NoMarkerAdded(s, t, src, src);
    NoMarkerAdded(s, t, src, dst);
    if e == OK { RenamedAsStable(s, t, u, src, dst, src); }
  }

  class UnionFs {
    const tree: FsTree
    const writable: bool
    const kept: nat -> nat  // what the umask leaves of the permissions of a new file
    ghost const full: BlockStore
    ghost const paths: PathMap
    ghost const lower: map<Path, LowerEntry>
    var upper: map<Path, UpperEntry>

    ghost predicate TreeOk()
    {
      && Presents(tree.nodes, paths) && InodesOk(tree.nodes)
      && AllPlain(paths) && IsTree(paths)
      && PartOf(tree.store, full) && LeavesOk(full, tree.blockSize, paths)
      && lower == LowerOf(full, paths)
    }

    ghost function S(): State
      reads this
    {
      State(lower, upper)
    }

    ghost function View(): View
      reads this
    {
      S().View()
    }

    ghost predicate Valid()
      reads this
    {
      TreeOk() && S().Inv() && (!writable ==> upper == map[[] := UDir])
    }

    /** Mounts a tree over an upper directory; or read-only, and then there is none. The mount is in a
        good state exactly when the two together are. */
    constructor (tree: FsTree, writable: bool, kept: nat -> nat, upper: map<Path, UpperEntry>,
                 ghost full: BlockStore, ghost paths: PathMap)
      requires Presents(tree.nodes, paths) && InodesOk(tree.nodes)
      requires AllPlain(paths) && IsTree(paths)
      requires PartOf(tree.store, full) && LeavesOk(full, tree.blockSize, paths)
      ensures this.tree == tree && this.writable == writable && this.kept == kept
      ensures this.full == full && this.paths == paths && lower == LowerOf(full, paths)
      ensures this.upper == if writable then upper else map[[] := UDir]
      ensures Valid() <==> !writable || State(LowerOf(full, paths), upper).Inv()
      ensures !writable || upper == map[[] := UDir] ==> Valid() && View() == map p | p in lower :: SeeLower(lower[p])
    {
      this.tree := tree;
      this.writable := writable;
      this.kept := kept;
      this.full := full;
      this.paths := paths;
      this.lower := LowerOf(full, paths);
      this.upper := if writable then upper else map[[] := UDir];
      new;
      TreeIsLowerOk(full, paths, this.upper);
      if !writable || upper == map[[] := UDir] { EmptyUpperIsOk(S()); }
    }

    // -------------------------------------------------------------- looking

    method LowerNode(p: Path) returns (r: Option<FileNode>)
      requires Valid()
      ensures r.Some? <==> p in lower
      ensures r.Some? ==> Shape(r.value) == paths[p] && lower[p] == EntryOf(full, Shape(r.value))
      ensures r.Some? ==> Walk(tree.nodes, p) in tree.nodes && r.value == tree.nodes[Walk(tree.nodes, p)]
    {
      r := LookupTreePath(tree, p, paths);
    }

    method HasWhiteout(parent: Path, base: Name) returns (r: bool)
      requires !writable ==> upper == map[[] := UDir]
      ensures r == S().Hidden(parent + [base])
    {
      assert Parent(parent + [base]) == parent;
      if !writable {
        return false;
      }
      r := parent + [WHITEOUT_PREFIX + base] in upper;
    }

    /** The answer to `stat`, as both halves the source keeps. */
    method Stat(p: Path) returns (i: PathInfo)
      requires Valid()
      ensures i.upper == if writable && !S().Hidden(p) && p in upper then Some(upper[p]) else None
      ensures i.lower.Some? <==> !S().Hidden(p) && p in lower
      ensures i.lower.Some? ==> Shape(i.lower.value) == paths[p] && lower[p] == EntryOf(full, Shape(i.lower.value))
      ensures i.lower.Some? ==> Walk(tree.nodes, p) in tree.nodes && i.lower.value == tree.nodes[Walk(tree.nodes, p)]
      ensures i.Exists() <==> S().Lookup(p).Some?
      ensures i.Mode() == ModeOf(S().Lookup(p)) && Tells(i.Mode(), S().Lookup(p))
    {
      ModeTells(S().Lookup(p));
      if p != [] {
        var hidden := HasWhiteout(Parent(p), Base(p));
        assert Parent(p) + [Base(p)] == p;
        if hidden {
          return PathInfo(None, None);
        }
      }
      var l := LowerNode(p);
      if writable {
        if p in upper {
          i := PathInfo(l, Some(upper[p]));
          InfoAgrees(full, S(), p, i);
          return;
        }
      }
      i := PathInfo(l, None);
      InfoAgrees(full, S(), p, i);
    }

    // -------------------------------------------------------------- primitive steps

    /** Creates what is missing of a directory path, from the top; stops where a call fails. */
    method MkdirAll(p: Path, faults: Faults) returns (ok: bool, ghost made: nat)
      requires Valid() && writable && PlainPath(p) && S().IsDir(p)
      modifies this`upper
      ensures made <= |p| && upper == WithDirs(old(upper), p, made)
      ensures Valid() && View() == old(View())
      ensures ok ==> p in upper && upper[p].UDir?
      ensures ok <==> DirsMade(old(upper), p, faults)
      ensures Extends(old(upper), upper, p)
      ensures faults == {} ==> ok
    {
      ghost var s := S();
      made := 0;
      for k := 1 to |p| + 1
        invariant made == k - 1 && MakingDirs(s.upper, upper, p, made, faults)
      {
        NextDir(s.upper, upper, p, made, faults);
        var dir := p[..k];
        if dir !in upper {
          if CallMkdir(dir) in faults {
            MakingIsInvisible(s, upper, p, made, faults);
            return false, made;
          }
          upper := upper[dir := UDir];
        }
        made := k;
      }
      MakingIsInvisible(s, upper, p, made, faults);
      assert p[..|p|] == p;
      ok := true;
    }

    method ClearWhiteout(parent: Path, base: Name, faults: Faults) returns (ok: bool)
      modifies this`upper
      ensures upper == if ok then old(upper) - {Marker(parent + [base])} else old(upper)
      ensures ok <==> !(Marker(parent + [base]) in old(upper) && CallRemove(Marker(parent + [base])) in faults)
    {
      var m := parent + [WHITEOUT_PREFIX + base];
      assert Parent(parent + [base]) == parent;
      if m in upper {
        if CallRemove(m) in faults {
          return false;
        }
        upper := upper - {m};
      }
      ok := true;
    }

    /** Sets a marker. When closing the new file fails, the call fails and the marker is left. */
    method MakeWhiteout(parent: Path, base: Name, faults: Faults) returns (ok: bool, ghost made: nat, ghost left: bool)
      requires Valid() && writable && PlainPath(parent) && S().IsDir(parent)
      requires Plain(base) && !S().Hidden(parent + [base])
      modifies this`upper
      ensures made <= |parent| && parent in WithDirs(old(upper), parent, |parent|)
      ensures old(S()).With(WithDirs(old(upper), parent, made)).Inv()
      ensures old(S()).With(WithDirs(old(upper), parent, made)).View() == old(View())
      ensures upper == if left then WithDirs(old(upper), parent, made)[Marker(parent + [base]) := UFile(0x1A4, [])]
                       else WithDirs(old(upper), parent, made)
      ensures left ==> parent in WithDirs(old(upper), parent, made) && WithDirs(old(upper), parent, made)[parent].UDir?
      ensures left <==> MarkerMade(old(upper), parent + [base], faults)
      ensures ok <==> left && CallCloseMarker(Marker(parent + [base])) !in faults
      ensures faults == {} ==> ok
    {
      assert Parent(parent + [base]) == parent;
      left := false;
      ok, made := MkdirAll(parent, faults);
      assert parent[..|parent|] == parent;
      if ok {
        ok, left := WriteMarker(parent, base, faults);
      }
    }

    /** Writes the marker file, in a directory that is there. */
    method WriteMarker(parent: Path, base: Name, faults: Faults) returns (ok: bool, ghost left: bool)
      modifies this`upper
      ensures left <==> CallOpen(Marker(parent + [base])) !in faults
      ensures upper == if left then old(upper)[Marker(parent + [base]) := UFile(0x1A4, [])] else old(upper)
      ensures ok <==> left && CallCloseMarker(Marker(parent + [base])) !in faults
    {
      var m := parent + [WHITEOUT_PREFIX + base];
      assert Parent(parent + [base]) == parent;
      left := CallOpen(m) !in faults;
      if CallOpen(m) in faults {
        return false, left;
      }
      upper := upper[m := UFile(0x1A4, [])];  // 0o644
      ok := CallCloseMarker(m) !in faults;
    }

    /** Sets a cleared marker again, in a directory that is there, so that no directory is to be made. */
    method RestoreWhiteout(parent: Path, base: Name, undo: Faults, ghost v: View) returns (ghost restored: bool)
      requires Valid() && writable && PlainPath(parent) && S().IsDir(parent) && Plain(base)
      requires parent in upper && upper[parent].UDir?
      requires var p := parent + [base];
               !S().Hidden(p) && p in lower && p !in upper && S().NoLowerKids(p) && View() - {p} == v
      modifies this`upper
      ensures restored <==> CallOpen(Marker(parent + [base])) !in undo
      ensures restored <==> Marker(parent + [base]) in upper
      ensures Valid() && View() == if restored then v else v[parent + [base] := SeeLower(lower[parent + [base]])]
      ensures PlainStays(old(upper), upper)
    {
      ghost var p := parent + [base];
      PlainChild(parent, base);
      ghost var s := S();
      StillUncovered(s, p, v);
      MarkerRestored(s, p, UFile(0x1A4, []), v);
      var _, written := WriteMarker(parent, base, undo);
      restored := written;
    }

    // -------------------------------------------------------------- creating

    /** The common course of `Create`, `Mkdir` and `Symlink`, which differ in one call. When that call
        fails, the marker that was cleared for it is set again; if that fails too, the lower entry it
        hid is uncovered. */
    method Make(parent: Path, name: Name, entry: UpperEntry, call: Call, faults: Faults, undo: Faults)
      returns (e: Errno)
      requires Valid() && PlainPath(parent) && !IsMarkerName(name)
      requires S().IsDir(parent) && (Proper(name) ==> S().Lookup(parent + [name]).None?)
      modifies this`upper
      ensures Valid()
      ensures e == OK ==> View() == old(View())[parent + [name] := SeeUpper(entry)]
                          && parent + [name] in upper && upper[parent + [name]] == entry
      ensures e != OK ==> View() == ViewUnmade(old(S()), S(), parent + [name])
      ensures e == OK <==> Proper(name) && writable && EntryCanBeMade(old(upper), parent, name, faults)
                           && call !in faults
      ensures e != OK && MarkerLost(old(upper), upper, parent + [name]) <==>
              && Proper(name) && writable && EntryCanBeMade(old(upper), parent, name, faults)
              && Marker(parent + [name]) in old(upper) && call in faults
              && CallOpen(Marker(parent + [name])) in undo
      ensures e in {OK, EINVAL, EROFS, EIO}
      ensures e == EINVAL <==> !Proper(name)
      ensures e == EROFS <==> Proper(name) && !writable
      ensures PlainStays(old(upper), upper)
      ensures faults == {} ==> (e == OK <==> Proper(name) && writable)
    {
      if !Proper(name) {
        return EINVAL;
      }
      if !writable {
        return EROFS;
      }
      var p := parent + [name];
      PlainChild(parent, name);
      ghost var s := S();
      var made, _ := MkdirAll(parent, faults);
      ghost var w := S();
      if !made {
        DirsUnseen(s, w, w, p, faults);
        return EIO;
      }
      ViewAt(w, p);
      ViewAt(s, p);
      ViewAt(w, parent);
      ViewAt(s, parent);
      e := MakeAt(parent, name, entry, call, faults, undo);
      DirsUnseen(s, w, S(), p, faults);
    }

    /** The part of it that follows once the directory is there. */
    method MakeAt(parent: Path, name: Name, entry: UpperEntry, call: Call, faults: Faults, undo: Faults)
      returns (e: Errno)
      requires Valid() && writable && PlainPath(parent) && Plain(name) && S().Lookup(parent + [name]).None?
      requires S().IsDir(parent) && parent in upper && upper[parent].UDir?
      modifies this`upper
      ensures Valid() && e in {OK, EIO} && PlainStays(old(upper), upper)
      ensures e == OK ==> View() == old(View())[parent + [name] := SeeUpper(entry)]
                          && parent + [name] in upper && upper[parent + [name]] == entry
      ensures e != OK ==> View() == ViewUnmade(old(S()), S(), parent + [name])
      ensures e == OK <==> Uncovered(old(upper), parent + [name], faults) && call !in faults
      ensures e != OK && MarkerLost(old(upper), upper, parent + [name]) <==>
              && Uncovered(old(upper), parent + [name], faults) && Marker(parent + [name]) in old(upper)
              && call in faults && CallOpen(Marker(parent + [name])) in undo
    {
      var p := parent + [name];
      PlainChild(parent, name);
      ghost var s := S();
      var hadWhiteout := HasWhiteout(parent, name);
      ClearedForEntry(s, p);
      EntryMade(s, p, entry);
      ClearedStays(s.upper, s.upper, Marker(p));
      var cleared := ClearWhiteout(parent, name, faults);
      if !cleared {
        return EIO;
      }
      if call in faults {
        Unmake(parent, name, hadWhiteout, undo, s);
        return EIO;
      }
      upper := upper[p := entry];
      e := OK;
    }

    /** Sets the marker again that was cleared for an entry. */
    method Unmake(parent: Path, name: Name, hadWhiteout: bool, undo: Faults, ghost s: State)
      requires TreeOk() && writable && s.lower == lower && s.Inv() && upper == s.upper - {Marker(parent + [name])}
      requires PlainPath(parent) && Plain(name) && s.Lookup(parent + [name]).None?
      requires s.IsDir(parent) && parent in s.upper && s.upper[parent].UDir? && hadWhiteout == s.Hidden(parent + [name])
      modifies this`upper
      ensures Valid() && View() == ViewUnmade(s, S(), parent + [name]) && PlainStays(s.upper, upper)
      ensures MarkerLost(s.upper, upper, parent + [name]) <==>
              hadWhiteout && CallOpen(Marker(parent + [name])) in undo
    {
      var p := parent + [name];
      PlainChild(parent, name);
      ClearedForEntry(s, p);
      ClearedStays(s.upper, s.upper, Marker(p));
      TargetOfMarker(p);
      if hadWhiteout {
        ghost var c := S();
        assert c == s.With(s.upper - {Marker(p)});
        ViewAt(s, parent);
        ViewAt(c, parent);
        ghost var _ := RestoreWhiteout(parent, name, undo, s.View());
        StaysThrough(s.upper, c.upper, upper);
      } else {
        assert upper == s.upper;
      }
    }

    /** Creates an empty file and opens it. */
    method Create(parent: Path, name: Name, mode: nat, faults: Faults, undo: Faults) returns (e: Errno)
      requires Valid() && PlainPath(parent) && !IsMarkerName(name)
      requires S().IsDir(parent) && (Proper(name) ==> S().Lookup(parent + [name]).None?)
      modifies this`upper
      ensures Valid()
      ensures e == OK ==> View() == old(View())[parent + [name] := File([])] && parent + [name] in upper
                          && upper[parent + [name]] == UFile(kept(Permissions(mode)), [])
      ensures e != OK ==> View() == ViewUnmade(old(S()), S(), parent + [name])
      ensures e == OK <==> Proper(name) && writable && EntryCanBeMade(old(upper), parent, name, faults)
                           && CallOpen(parent + [name]) !in faults
      ensures e != OK && MarkerLost(old(upper), upper, parent + [name]) <==>
              && Proper(name) && writable && EntryCanBeMade(old(upper), parent, name, faults)
              && Marker(parent + [name]) in old(upper) && CallOpen(parent + [name]) in faults
              && CallOpen(Marker(parent + [name])) in undo
      ensures e in {OK, EINVAL, EROFS, EIO}
      ensures e == EINVAL <==> !Proper(name)
      ensures e == EROFS <==> Proper(name) && !writable
      ensures PlainStays(old(upper), upper)
      ensures faults == {} ==> (e == OK <==> Proper(name) && writable)
    {
      e := Make(parent, name, UFile(kept(Permissions(mode)), []), CallOpen(parent + [name]), faults, undo);
    }

    method Mkdir(parent: Path, name: Name, faults: Faults, undo: Faults) returns (e: Errno)
      requires Valid() && PlainPath(parent) && !IsMarkerName(name)
      requires S().IsDir(parent) && (Proper(name) ==> S().Lookup(parent + [name]).None?)
      modifies this`upper
      ensures Valid()
      ensures e == OK ==> View() == old(View())[parent + [name] := Dir]
      ensures e != OK ==> View() == ViewUnmade(old(S()), S(), parent + [name])
      ensures e == OK <==> Proper(name) && writable && EntryCanBeMade(old(upper), parent, name, faults)
                           && CallMkdir(parent + [name]) !in faults
      ensures e != OK && MarkerLost(old(upper), upper, parent + [name]) <==>
              && Proper(name) && writable && EntryCanBeMade(old(upper), parent, name, faults)
              && Marker(parent + [name]) in old(upper) && CallMkdir(parent + [name]) in faults
              && CallOpen(Marker(parent + [name])) in undo
      ensures e in {OK, EINVAL, EROFS, EIO}
      ensures e == EINVAL <==> !Proper(name)
      ensures e == EROFS <==> Proper(name) && !writable
      ensures PlainStays(old(upper), upper)
      ensures faults == {} ==> (e == OK <==> Proper(name) && writable)
    {
      e := Make(parent, name, UDir, CallMkdir(parent + [name]), faults, undo);
    }

    method Symlink(target: string, parent: Path, name: Name, faults: Faults, undo: Faults) returns (e: Errno)
      requires Valid() && PlainPath(parent) && !IsMarkerName(name)
      requires S().IsDir(parent) && (Proper(name) ==> S().Lookup(parent + [name]).None?)
      modifies this`upper
      ensures Valid()
      ensures e == OK ==> View() == old(View())[parent + [name] := Link(target)]
      ensures e != OK ==> View() == ViewUnmade(old(S()), S(), parent + [name])
      ensures e == OK <==> Proper(name) && writable && EntryCanBeMade(old(upper), parent, name, faults)
                           && CallSymlink(parent + [name]) !in faults
      ensures e != OK && MarkerLost(old(upper), upper, parent + [name]) <==>
              && Proper(name) && writable && EntryCanBeMade(old(upper), parent, name, faults)
              && Marker(parent + [name]) in old(upper) && CallSymlink(parent + [name]) in faults
              && CallOpen(Marker(parent + [name])) in undo
      ensures e in {OK, EINVAL, EROFS, EIO}
      ensures e == EINVAL <==> !Proper(name)
      ensures e == EROFS <==> Proper(name) && !writable
      ensures PlainStays(old(upper), upper)
      ensures faults == {} ==> (e == OK <==> Proper(name) && writable)
    {
      e := Make(parent, name, ULink(target), CallSymlink(parent + [name]), faults, undo);
    }

    // -------------------------------------------------------------- listing

    /** The names of upper entries directly in a directory. */
    function UpperNames(p: Path): (names: set<Name>)
      reads this
      ensures forall n :: n in names <==> p + [n] in upper
    {
      var names := set q | q in upper && q != [] && Parent(q) == p :: Base(q);
      assert forall n :: Parent(p + [n]) == p && Base(p + [n]) == n;
      assert forall q :: q in upper && q != [] ==> q == Parent(q) + [Base(q)];
      names
    }

    /** Names from the lower half: its children that no marker hides. */
    method LowerNames(p: Path, l: Option<FileNode>) returns (names: set<Name>)
      requires Valid()
      requires l.Some? <==> p in lower
      requires l.Some? ==> Walk(tree.nodes, p) in tree.nodes && l.value == tree.nodes[Walk(tree.nodes, p)]
      requires l.Some? ==> Shape(l.value) == paths[p]
      ensures forall n :: n in names <==> p + [n] in lower && !S().Hidden(p + [n])
    {
      names := {};
      forall n
        ensures p + [n] in lower <==> l.Some? && l.value.isDir && n in l.value.children
      {
        assert Parent(p + [n]) == p;
        if p in lower { ChildrenArePaths(tree.nodes, paths, p, n); }
      }
      if l.Some? && l.value.isDir {
        var rest := l.value.children.Keys;
        while rest != {}
          invariant rest <= l.value.children.Keys
          invariant forall n :: n in names <==> n in l.value.children.Keys - rest && !S().Hidden(p + [n])
          decreases |rest|
        {
          var name :| name in rest;
          rest := rest - {name};
          var hidden := HasWhiteout(p, name);
          if !hidden {
            names := names + {name};
          }
        }
      }
    }

    /** Ordinary names that either half of a directory contributes. */
    method CollectNames(p: Path, i: PathInfo, faults: Faults) returns (names: set<Name>, ok: bool)
      requires Valid() && PlainPath(p) && S().IsDir(p)
      requires i.lower.Some? <==> p in lower
      requires i.lower.Some? ==> Walk(tree.nodes, p) in tree.nodes && i.lower.value == tree.nodes[Walk(tree.nodes, p)]
      requires i.lower.Some? ==> Shape(i.lower.value) == paths[p]
      ensures ok ==> forall n :: n in names ==> Plain(n)
      ensures ok ==> forall n :: Plain(n) && S().Lookup(p + [n]).Some? ==> n in names
      ensures ok <==> !(writable && CallReadDir(p) in faults)
    {
      names := LowerNames(p, i.lower);
      ok := true;
      if writable {
        if CallReadDir(p) in faults {
          return names, false;
        }
        names := names + set n | n in UpperNames(p) && !IsMarkerName(n);
      }
      forall n | n in names
        ensures Plain(n)
      {
        assert (p + [n])[|p|] == n && Base(p + [n]) == n;
      }
      forall n | Plain(n) && S().Lookup(p + [n]).Some?
        ensures n in names
      {
        assert p + [n] in upper || p + [n] in lower;
      }
    }

    /** The listing of a directory: its visible names, each once, in name order. */
    method DirEntries(p: Path, faults: Faults) returns (entries: seq<DirEntry>, e: Errno)
      requires Valid() && PlainPath(p)
      ensures e in {OK, ENOENT, ENOTDIR, EIO}
      ensures e == ENOENT <==> S().Lookup(p).None?
      ensures e == ENOTDIR <==> S().Lookup(p).Some? && !S().IsDir(p)
      ensures e == OK <==> S().IsDir(p) && !(writable && CallReadDir(p) in faults)
      ensures e == OK ==> StrictlySorted((d: DirEntry) => d.name, entries)
      ensures e == OK ==> forall d :: d in entries ==>
                Plain(d.name) && S().Lookup(p + [d.name]).Some? && Tells(d.mode, S().Lookup(p + [d.name]))
      ensures e == OK ==> forall n :: Plain(n) && S().Lookup(p + [n]).Some? ==> exists d :: d in entries && d.name == n
    {
      entries := [];
      var i := Stat(p);
      ModeOfDir(S().Lookup(p));
      if !i.Exists() {
        return [], ENOENT;
      }
      if !i.IsDir() {
        return [], ENOTDIR;
      }
      var names, ok := CollectNames(p, i, faults);
      if !ok {
        return [], EIO;
      }
      var sorted := SortedNames(names);
      for k := 0 to |sorted|
        invariant Entered(S(), p, sorted[..k], entries)
      {
        EnterOneMore(S(), p, sorted, k, entries);
        var name := sorted[k];
        var child := Stat(p + [name]);
        if child.Exists() {
          entries := entries + [DirEntry(name, child.Mode())];
        }
      }
      assert sorted[..|sorted|] == sorted;
      forall d | d in entries
        ensures Tells(d.mode, S().Lookup(p + [d.name]))
      {
        ModeTells(S().Lookup(p + [d.name]));
      }
      e := OK;
    }

    // -------------------------------------------------------------- removing

    /** Removes a file, or a directory the upper file system finds empty. */
    method RemoveUpper(p: Path, faults: Faults) returns (ok: bool)
      requires p in upper
      modifies this`upper
      ensures ok <==> CallRemove(p) !in faults && old(S().NoUpperKids(p))
      ensures upper == if ok then old(upper) - {p} else old(upper)
    {
      if CallRemove(p) in faults {
        return false;
      }
      var names := UpperNames(p);
      if names != {} {
        var n :| n in names;
        assert Parent(p + [n]) == p;
        return false;
      }
      forall q | q in upper && q != []
        ensures Parent(q) != p
      {
        assert q == Parent(q) + [Base(q)];
      }
      upper := upper - {p};
      ok := true;
    }

    /** `Unlink` and `Rmdir`. The marker is set first and taken back if the upper entry stays.
        A directory that looks empty cannot be removed while lower entries lie below it: the
        markers hiding them keep its upper half from being empty. A failing call leaves the view as
        it was, unless the marker stays: `LeavesMarker` says exactly when. */
    method Remove(parent: Path, name: Name, dir: bool, faults: Faults, undo: Faults) returns (e: Errno)
      requires Valid() && PlainPath(parent) && !IsMarkerName(name) && S().IsDir(parent)
      modifies this`upper
      ensures e == OK ==> Valid() && View() == old(View()) - {parent + [name]}
      ensures e != OK ==> FailedAt(old(S()), S(), parent + [name], faults, undo)
      ensures e == OK <==>
              && Proper(name) && writable && old(MayRemove(S(), parent + [name], dir, faults))
              && old(S().NoLowerKids(parent + [name]))
              && (parent + [name] in lower ==> Hides(old(upper), parent + [name], faults))
              && (parent + [name] in old(upper) ==> CallRemove(parent + [name]) !in faults)
      ensures e != OK && MarkerLeft(old(upper), upper, parent + [name]) <==>
              && Proper(name) && writable && old(MayRemove(S(), parent + [name], dir, faults))
              && parent + [name] in lower && LeavesMarker(old(S()), parent + [name], faults, undo)
      ensures MarkerLeft(old(upper), upper, parent + [name]) ==> e in {OK, EIO, ENOTEMPTY}
      ensures Valid() <==> S().Inv()
      ensures e == EINVAL <==> !Proper(name)
      ensures e == EROFS <==> Proper(name) && !writable
      ensures e == ENOENT <==> Proper(name) && writable && old(S().Lookup(parent + [name])).None?
      ensures e == ENOTDIR <==> Proper(name) && writable && old(S().Lookup(parent + [name])).Some?
                                && dir && !old(S().IsDir(parent + [name]))
      ensures e == EISDIR <==> Proper(name) && writable && !dir && old(S().IsDir(parent + [name]))
      ensures e == OK ==> (dir ==> old(S().IsDir(parent + [name]) && LooksEmpty(S(), parent + [name])))
      ensures e == OK ==> old(S().NoLowerKids(parent + [name]))
      ensures e in {OK, EINVAL, EROFS, ENOENT, ENOTDIR, EISDIR, ENOTEMPTY, EIO}
      ensures e == ENOTEMPTY <==>
              && Proper(name) && writable && dir && old(S().IsDir(parent + [name]))
              && CallReadDir(parent + [name]) !in faults
              && (old(LooksEmpty(S(), parent + [name])) ==>
                    && !old(S().NoLowerKids(parent + [name])) && CallRemove(parent + [name]) !in faults
                    && (parent + [name] in lower ==> Hides(old(upper), parent + [name], faults)))
      ensures faults == {} ==>
                (e == ENOTEMPTY <==> Proper(name) && writable && dir && old(S().IsDir(parent + [name]))
                                     && !old(LooksEmpty(S(), parent + [name]) && S().NoLowerKids(parent + [name])))
      ensures faults == {} ==> e != EIO
    {
      if !Proper(name) {
        return EINVAL;
      }
      if !writable {
        return EROFS;
      }
      var p := parent + [name];
      PlainChild(parent, name);
      var i := Stat(p);
      if !i.Exists() {
        return ENOENT;
      }
      e := CheckKind(p, i, dir, faults);
      if e != OK {
        return;
      }
      e := RemoveVisible(parent, name, i.lower.Some?, i.upper.Some?, faults, undo);
    }

    /** What `remove` checks of a visible path: its kind, and that a directory lists as empty. */
    method CheckKind(p: Path, i: PathInfo, dir: bool, faults: Faults) returns (e: Errno)
      requires Valid() && writable && PlainPath(p) && S().Lookup(p).Some? && i.Mode() == ModeOf(S().Lookup(p))
      ensures e in {OK, ENOTDIR, EISDIR, ENOTEMPTY, EIO}
      ensures e == OK <==> MayRemove(S(), p, dir, faults)
      ensures e == ENOTDIR <==> dir && !S().IsDir(p)
      ensures e == EISDIR <==> !dir && S().IsDir(p)
      ensures e == ENOTEMPTY <==> dir && S().IsDir(p) && CallReadDir(p) !in faults && !LooksEmpty(S(), p)
      ensures e == OK ==> (dir ==> LooksEmpty(S(), p)) && (S().NoUpperKids(p) <==> S().NoLowerKids(p))
      ensures e == OK && !dir ==> S().NoLowerKids(p)
      ensures faults == {} ==> e != EIO
    {
      ModeOfDir(S().Lookup(p));
      if dir != i.IsDir() {
        return if dir then ENOTDIR else EISDIR;
      }
      if dir {
        var entries, errno := DirEntries(p, faults);
        if errno != OK {
          return EIO;
        }
        if |entries| != 0 {
          assert entries[0] in entries;
          return ENOTEMPTY;
        }
        EmptyLookingDir(S(), p);
      } else {
        NonDirHasNoKids(S(), p);
      }
      e := OK;
    }

    /** The mutating half of `remove`. */
    method RemoveVisible(parent: Path, name: Name, inLower: bool, inUpper: bool, faults: Faults, undo: Faults)
      returns (e: Errno)
      requires Valid() && writable && PlainPath(parent) && Plain(name) && S().IsDir(parent)
      requires S().Lookup(parent + [name]).Some?
      requires inLower == (parent + [name] in lower) && inUpper == (parent + [name] in upper)
      requires S().NoUpperKids(parent + [name]) <==> S().NoLowerKids(parent + [name])
      modifies this`upper
      ensures e == OK ==> Valid() && View() == old(View()) - {parent + [name]} && old(S().NoLowerKids(parent + [name]))
      ensures e != OK ==> FailedAt(old(S()), S(), parent + [name], faults, undo)
      ensures e == OK <==> old(S().NoLowerKids(parent + [name]))
                           && (inLower ==> Hides(old(upper), parent + [name], faults))
                           && (inUpper ==> CallRemove(parent + [name]) !in faults)
      ensures e != OK && MarkerLeft(old(upper), upper, parent + [name]) <==>
              inLower && LeavesMarker(old(S()), parent + [name], faults, undo)
      ensures e in {OK, EIO, ENOTEMPTY}
      ensures e == ENOTEMPTY <==> !old(S().NoLowerKids(parent + [name])) && CallRemove(parent + [name]) !in faults
                                  && (inLower ==> Hides(old(upper), parent + [name], faults))
      ensures faults == {} ==> e == if old(S().NoLowerKids(parent + [name])) then OK else ENOTEMPTY
    {
      var p := parent + [name];
      PlainChild(parent, name);
      var ok, made := MarkIfLower(parent, name, inLower, faults);
      if !ok {
        return EIO;
      }
      ghost var s := old(S());
      ghost var w := s.With(WithDirs(s.upper, parent, made));
      ViewAt(s, p);
      ViewAt(w, p);
      MarkerAbsent(w, p);
      AncestorsAreNoKids(s, parent, made, p, UFile(0x1A4, []));
      if inUpper {
        ok := RemoveUpper(p, faults);
        if !ok {
          if inLower {
            PutUndone(w.upper, Marker(p), UFile(0x1A4, []));
            MarkerLeftBehind(w, p, UFile(0x1A4, []));
            var _ := ClearWhiteout(parent, name, undo);
          }
          RolledBack(s, w, p, faults, undo);
          return if CallRemove(p) in faults then EIO else ENOTEMPTY;
        }
        if inLower {
          EntryReplacedByMarker(w, p, UFile(0x1A4, []));
        } else {
          DropEntry(w, p);
        }
      } else {
        PutMarker(w, p, UFile(0x1A4, []));
      }
      e := OK;
    }

    /** Sets a marker where a lower entry has to be hidden: the first step of `remove` and of `Rename`. */
    method MarkIfLower(parent: Path, name: Name, inLower: bool, faults: Faults) returns (ok: bool, ghost made: nat)
      requires Valid() && writable && PlainPath(parent) && Plain(name) && S().IsDir(parent)
      requires S().Lookup(parent + [name]).Some? && inLower == (parent + [name] in lower)
      modifies this`upper
      ensures made <= |parent| && (!inLower ==> ok && made == 0)
      ensures var w := old(S()).With(WithDirs(old(upper), parent, made));
              ok ==> w.Inv() && w.View() == old(View()) && upper == Marked(w, parent + [name], UFile(0x1A4, []))
                     && (inLower ==> parent in w.upper && w.upper[parent].UDir?)
      ensures !ok ==> FailedAt(old(S()), S(), parent + [name], faults, {})
      ensures forall q :: q in old(upper) ==> q in upper
      ensures ok <==> !inLower || Hides(old(upper), parent + [name], faults)
      ensures !ok ==> (MarkerLeft(old(upper), upper, parent + [name]) <==>
                       MarkerMade(old(upper), parent + [name], faults))
      ensures parent + [name] in upper <==> parent + [name] in old(upper)
      ensures faults == {} ==> ok
    {
      var p := parent + [name];
      PlainChild(parent, name);
      TargetOfMarker(p);
      PlainIsNotMarker(p);
      if !inLower {
        return true, 0;
      }
      ghost var left;
      ok, made, left := MakeWhiteout(parent, name, faults);
      ghost var w := old(S()).With(WithDirs(old(upper), parent, made));
      ViewAt(w, p);
      ViewAt(old(S()), p);
      MarkerAbsent(old(S()), p);
      MarkerAbsent(w, p);
      WithDirsAdds(old(upper), parent, made);
      if left { MarkerLeftBehind(w, p, UFile(0x1A4, [])); }
    }

    // -------------------------------------------------------------- copying up

    ghost predicate BlocksAtHand(p: Path)
    {
      BlocksIn(tree.store, paths, p)
    }

    ghost predicate Copyable(p: Path)
    {
      CanCopy(tree.store, paths, p)
    }

    /** No call and no read fails that brings the lower leaf p into the upper directory. */
    ghost predicate CopyMade(u: map<Path, UpperEntry>, p: Path, faults: Faults)
      requires p != []
    {
      var i := Walk(tree.nodes, p);
      && i in tree.nodes
      && DirsMade(u, Parent(p), faults) && LeafCopied(tree.store, full, p, tree.nodes[i], faults)
    }

    /** The next piece of the copy, if it can be read and written. */
    method NextPiece(n: FileNode, off: nat, ghost written: Bytes, faults: Faults) returns (r: Option<Bytes>)
      requires WellFormed(full, tree.blockSize, n) && PartOf(tree.store, full) && off < n.size && !NoBlocks(n)
      requires Copying(tree.store, full, n, off, written, faults)
      ensures r.Some? ==> Copying(tree.store, full, n, off + |r.value|, written + r.value, faults) && |r.value| > 0
      ensures r.None? ==> !ChunksCopied(tree.store, full, n, 0, faults)
      ensures r.None? ==> !(faults == {} && AllReadable(tree.store, n))
    {
      ShortIsAllocatable(n, off, COPY_CHUNK);
      var data := ReadAt(tree, n, off, COPY_CHUNK, full);
      NextChunk(tree.store, full, tree.blockSize, n, off, written, faults);
      if AllReadable(tree.store, n) { PieceComes(tree.store, full, tree.blockSize, n, off); }
      if data.Err? {
        return None;
      }
      if |data.value| == 0 || CallWrite(off) in faults {
        return None;
      }
      r := Some(data.value);
    }

    /** Writes a file's content piece by piece; on any failure the new file is removed again. */
    method CopyBytes(p: Path, n: FileNode, faults: Faults) returns (ok: bool)
      requires WellFormed(full, tree.blockSize, n) && PartOf(tree.store, full) && p !in upper
      modifies this`upper
      ensures upper == if ok then old(upper)[p := UFile(kept(Permissions(n.mode)), Content(full, n))] else old(upper)
      ensures ok <==> ChunksCopied(tree.store, full, n, 0, faults) && CallClose !in faults
      ensures faults == {} && AllReadable(tree.store, n) ==> ok
    {
      var mode := kept(Permissions(n.mode));
      upper := upper[p := UFile(mode, [])];
      var written: Bytes := [];
      var off := 0;
      while off < n.size
        invariant Copying(tree.store, full, n, off, written, faults)
        invariant upper == old(upper)[p := UFile(mode, written)]
        decreases n.size - off
      {
        PutUndone(old(upper), p, UFile(mode, written));
        var piece := NextPiece(n, off, written, faults);
        if piece.None? {
          upper := upper - {p};
          return false;
        }
        written := written + piece.value;
        PutForgotten(old(upper), p, upper[p], UFile(mode, written));
        upper := upper[p := UFile(mode, written)];
        off := off + |piece.value|;
      }
      Copied(tree.store, full, n, off, written, faults);
      PutUndone(old(upper), p, UFile(mode, written));
      if CallClose in faults {
        upper := upper - {p};
        return false;
      }
      ok := true;
    }

    /** The copy of a lower leaf: the link, or a file with the bytes and what the umask leaves of the mode. */
    ghost function CopyEntry(p: Path): UpperEntry
      requires p in lower && lower[p].LLeaf?
    {
      if lower[p].link != "" then ULink(lower[p].link) else UFile(kept(Permissions(lower[p].mode)), lower[p].data)
    }

    /** Writes the copy of a lower leaf, once its directory exists. */
    method CopyLeaf(p: Path, n: FileNode, faults: Faults) returns (ok: bool)
      requires Valid() && writable && PlainPath(p) && p != [] && ShowsLower(S(), p) && !S().Hidden(p)
      requires Parent(p) in upper && upper[Parent(p)].UDir?
      requires p in paths && Shape(n) == paths[p] && lower[p] == EntryOf(full, Shape(n))
      modifies this`upper
      ensures Valid()
      ensures ok ==> p in upper && View() == old(View())[p := CopyOf(lower[p])]
      ensures !ok ==> upper == old(upper)
      ensures ok ==> upper == old(upper)[p := CopyEntry(p)]
      ensures ok <==> LeafCopied(tree.store, full, p, n, faults)
      ensures faults == {} && Copyable(p) ==> ok
    {
      ghost var w := S();
      LeafHasNoKids(w, p);
      if n.link != "" {
        if CallSymlink(p) in faults {
          return false;
        }
        PutEntry(w, p, ULink(n.link));
        upper := upper[p := ULink(n.link)];
        return true;
      }
      if CallOpen(p) in faults {
        return false;
      }
      NodeIsWellFormed(full, tree.blockSize, n);
      ok := CopyBytes(p, n, faults);
      if ok {
        PutEntry(w, p, UFile(kept(Permissions(n.mode)), Content(full, n)));
      }
    }

    /** Brings a lower leaf into the upper directory. Anything else is left alone. */
    method CopyUp(p: Path, faults: Faults) returns (ok: bool)
      requires Valid() && writable && PlainPath(p) && p != [] && S().Lookup(p).Some?
      modifies this`upper
      ensures Valid()
      ensures View() == if ok then AfterCopyUp(old(S()), p) else old(View())
      ensures ShowsLower(old(S()), p) && ok ==> p in upper && upper[p] == CopyEntry(p)
      ensures !ShowsLower(old(S()), p) ==> ok && upper == old(upper)
      ensures ShowsLower(old(S()), p) ==> (ok <==> CopyMade(old(upper), p, faults))
      ensures !ok ==> p !in upper
      ensures Extends(old(upper), upper, p) && (p in upper && p !in old(upper) ==> !upper[p].UDir?)
      ensures faults == {} && Copyable(p) ==> ok
    {
      if p in upper {
        return true;
      }
      var l := LowerNode(p);
      if l.None? || l.value.isDir {
        return true;
      }
      ok := CopyLower(p, l.value, faults);
    }

    /** Makes the directory of the copy, and the copy. */
    method CopyLower(p: Path, n: FileNode, faults: Faults) returns (ok: bool)
      requires Valid() && writable && PlainPath(p) && p != [] && ShowsLower(S(), p)
      requires p in paths && Shape(n) == paths[p] && lower[p] == EntryOf(full, Shape(n))
      modifies this`upper
      ensures Valid() && View() == if ok then AfterCopyUp(old(S()), p) else old(View())
      ensures ok <==> DirsMade(old(upper), Parent(p), faults) && LeafCopied(tree.store, full, p, n, faults)
      ensures (ok <==> p in upper) && (ok ==> upper[p] == CopyEntry(p))
      ensures Extends(old(upper), upper, p) && (p in upper ==> !upper[p].UDir?)
      ensures faults == {} && Copyable(p) ==> ok
    {
      ParentIsVisibleDir(S(), p);
      PlainParent(p);
      ViewAt(S(), p);
      var made, _ := MkdirAll(Parent(p), faults);
      if !made {
        return false;
      }
      ViewAt(S(), p);
      ok := CopyLeaf(p, n, faults);
    }

    // -------------------------------------------------------------- renaming

    /** The upper file system's own rename: no directory is replaced, none moves into itself. That
        there is a directory at the destination is found before the call is made. */
    method RenameUpper(src: Path, dst: Path, faults: Faults) returns (e: Errno)
      requires src in upper && src != dst
      modifies this`upper
      ensures e == if dst in old(upper) && old(upper)[dst].UDir? then EEXIST
                   else if CallRename(src, dst) in faults then EIO
                   else if old(upper)[src].UDir? && src <= dst then EINVAL
                   else if old(upper)[src].UDir? && dst in old(upper) then ENOTDIR
                   else OK
      ensures e == OK <==> CallRename(src, dst) !in faults && UpperAllows(old(upper), src, dst)
      ensures upper == if e == OK then MoveSubtree(old(upper), src, dst) else old(upper)
    {
      if dst in upper && upper[dst].UDir? {
        return EEXIST;
      }
      if CallRename(src, dst) in faults {
        return EIO;
      }
      if upper[src].UDir? {
        if src <= dst {
          return EINVAL;
        }
        if dst in upper {
          return ENOTDIR;
        }
      }
      upper := MoveSubtree(upper, src, dst);
      e := OK;
    }

    /** The move itself, once the source is marked; every failure takes the marker changes back, as far
        as that does not fail in its turn. */
    method MoveMarked(oldParent: Path, name: Name, newParent: Path, newName: Name, sourceWhiteout: bool,
                      faults: Faults, undo: Faults, ghost w: State)
      returns (e: Errno)
      requires TreeOk() && writable && w.Inv() && w.lower == lower
      requires PlainPath(oldParent) && PlainPath(newParent) && Plain(name) && Plain(newName)
      requires upper == Marked(w, oldParent + [name], UFile(0x1A4, []))
      requires sourceWhiteout == (oldParent + [name] in lower)
      requires newParent in w.upper && w.upper[newParent].UDir? && w.IsDir(newParent)
      requires oldParent + [name] in w.upper && oldParent + [name] != newParent + [newName]
      modifies this`upper
      ensures e == OK ==> CanMove(w, oldParent + [name], newParent + [newName])
                          && S() == Renamed(w, oldParent + [name], newParent + [newName], UFile(0x1A4, []))
      ensures e != OK ==> EntryFailed(w, S(), oldParent + [name], newParent + [newName], faults, undo)
      ensures e == OK <==> MoveMade(w.upper, oldParent + [name], newParent + [newName], faults)
      ensures e == if Uncovered(w.upper, newParent + [newName], faults)
                   then UpperError(w.upper, oldParent + [name], newParent + [newName], faults) else EIO
      ensures e != OK ==>
                (MarkerLeft(w.upper, upper, oldParent + [name]) <==>
                 sourceWhiteout && CallRemove(Marker(oldParent + [name])) in undo)
      ensures e != OK ==>
                (MarkerLost(w.upper, upper, newParent + [newName]) <==>
                 LosesMarker(w.upper, newParent + [newName], faults, undo))
    {
      var src, dst := oldParent + [name], newParent + [newName];
      ghost var mark := UFile(0x1A4, []);
      PlainChild(oldParent, name);
      PlainChild(newParent, newName);
      AllowedIsAccepted(w, w, src, dst);
      MarkedAt(w, src, dst, mark);
      MarkersDiffer(src, dst);
      MarksCommute(w.upper, Marker(src), Marker(dst), mark);
      ghost var left := sourceWhiteout && CallRemove(Marker(src)) in undo;
      var destWhiteout := HasWhiteout(newParent, newName);
      if destWhiteout {
        var ok := ClearWhiteout(newParent, newName, faults);
        if !ok {
          if sourceWhiteout {
            var _ := ClearWhiteout(oldParent, name, undo);
          }
          UndoneFails(w, w, S(), src, dst, left, false, mark, faults, undo);
          return EIO;
        }
      }
      assert upper == Marked(w, src, mark) - {Marker(dst)};
      ghost var u := upper;
      e := RenameUpper(src, dst, faults);
      ErrorsAgree(w, u, src, dst, faults, e);
      if e != OK {
        UndoMove(oldParent, name, newParent, newName, sourceWhiteout, destWhiteout, faults, undo, w);
        return;
      }
      NotIntoItself(w, src, dst);
    }

    /** Takes the marker changes back after the upper file system has refused the move. */
    method UndoMove(oldParent: Path, name: Name, newParent: Path, newName: Name, sourceWhiteout: bool,
                    destWhiteout: bool, ghost faults: Faults, undo: Faults, ghost w: State)
      requires TreeOk() && writable && w.Inv() && w.lower == lower
      requires PlainPath(oldParent) && PlainPath(newParent) && Plain(name) && Plain(newName)
      requires upper == Marked(w, oldParent + [name], UFile(0x1A4, [])) - {Marker(newParent + [newName])}
      requires sourceWhiteout == (oldParent + [name] in lower)
      requires destWhiteout == (Marker(newParent + [newName]) in w.upper)
      requires newParent in w.upper && w.upper[newParent].UDir? && w.IsDir(newParent)
      requires oldParent + [name] in w.upper && oldParent + [name] != newParent + [newName]
      modifies this`upper
      ensures EntryFailed(w, S(), oldParent + [name], newParent + [newName], faults, undo)
      ensures MarkerLeft(w.upper, upper, oldParent + [name]) <==>
              sourceWhiteout && CallRemove(Marker(oldParent + [name])) in undo
      ensures MarkerLost(w.upper, upper, newParent + [newName]) <==>
              destWhiteout && CallOpen(Marker(newParent + [newName])) in undo
    {
      var src, dst := oldParent + [name], newParent + [newName];
      ghost var mark := UFile(0x1A4, []);
      PlainChild(oldParent, name);
      PlainChild(newParent, newName);
      MarkedAt(w, src, dst, mark);
      MarkersDiffer(src, dst);
      MarksCommute(w.upper, Marker(src), Marker(dst), mark);
      ghost var left := sourceWhiteout && CallRemove(Marker(src)) in undo;
      ghost var lost := destWhiteout && CallOpen(Marker(dst)) in undo;
      if sourceWhiteout {
        var _ := ClearWhiteout(oldParent, name, undo);
      }
      if destWhiteout {
        var _, _ := WriteMarker(newParent, newName, undo);
      }
      ghost var c := w.With(if lost then w.upper - {Marker(dst)}
                            else if destWhiteout then w.upper[Marker(dst) := mark]
                            else w.upper);
      UndoneFails(w, c, S(), src, dst, left, lost, mark, faults, undo);
    }

    /** Marks the source first, then moves. */
    method RenameMarked(oldParent: Path, name: Name, newParent: Path, newName: Name, sourceWhiteout: bool,
                        faults: Faults, undo: Faults)
      returns (e: Errno)
      requires Valid() && writable && PlainPath(oldParent) && PlainPath(newParent) && Plain(name) && Plain(newName)
      requires S().IsDir(oldParent) && newParent in upper && upper[newParent].UDir? && S().IsDir(newParent)
      requires oldParent + [name] in upper && oldParent + [name] != newParent + [newName]
      requires sourceWhiteout == (oldParent + [name] in lower)
      modifies this`upper
      ensures e == OK ==> CanMove(old(S()), oldParent + [name], newParent + [newName])
                          && S() == Renamed(old(S()), oldParent + [name], newParent + [newName], UFile(0x1A4, []))
      ensures e != OK ==> EntryFailed(old(S()), S(), oldParent + [name], newParent + [newName], faults, undo)
      ensures e == OK <==> SourceMarked(sourceWhiteout, oldParent + [name], faults)
                           && MoveMade(old(upper), oldParent + [name], newParent + [newName], faults)
      ensures e == if SourceMarked(sourceWhiteout, oldParent + [name], faults)
                      && Uncovered(old(upper), newParent + [newName], faults)
                   then UpperError(old(upper), oldParent + [name], newParent + [newName], faults) else EIO
      ensures e != OK ==>
                (MarkerLeft(old(upper), upper, oldParent + [name]) <==>
                 sourceWhiteout && SourceMarkerLeft(oldParent + [name], faults, undo))
      ensures e != OK ==>
                (MarkerLost(old(upper), upper, newParent + [newName]) <==>
                 SourceMarked(sourceWhiteout, oldParent + [name], faults)
                 && LosesMarker(old(upper), newParent + [newName], faults, undo))
    {
      var src, dst := oldParent + [name], newParent + [newName];
      PlainChild(oldParent, name);
      PlainChild(newParent, newName);
      ghost var w := S();
      UpperIsShown(w, src);
      NothingToMake(w, oldParent, src, faults);
      MarkerAbsent(w, src);
      var done, k := MarkIfLower(oldParent, name, sourceWhiteout, faults);
      NoneMissing(w, oldParent, k);
      if !done {
        MarkingFails(w, S(), src, dst, faults, undo);
        return EIO;
      }
      e := MoveMarked(oldParent, name, newParent, newName, sourceWhiteout, faults, undo, w);
    }

    /** Renames an entry the upper directory has. */
    method RenameEntry(oldParent: Path, name: Name, newParent: Path, newName: Name, inLower: bool, faults: Faults,
                       undo: Faults)
      returns (e: Errno)
      requires Valid() && writable && PlainPath(oldParent) && PlainPath(newParent) && Plain(name) && Plain(newName)
      requires S().IsDir(oldParent) && S().IsDir(newParent)
      requires oldParent + [name] in upper && oldParent + [name] != newParent + [newName]
      requires inLower == (oldParent + [name] in lower)
      modifies this`upper
      ensures EntryOutcome(old(S()), S(), oldParent + [name], newParent + [newName], e, faults, undo)
      ensures e == OK <==> DirsMade(old(upper), newParent, faults) && SourceMarked(inLower, oldParent + [name], faults)
                           && MoveMade(old(upper), oldParent + [name], newParent + [newName], faults)
      ensures e == EntryError(old(upper), inLower, oldParent + [name], newParent + [newName], faults)
      ensures e != OK ==>
                (MarkerLeft(old(upper), upper, oldParent + [name]) <==>
                 DirsMade(old(upper), newParent, faults) && inLower
                 && SourceMarkerLeft(oldParent + [name], faults, undo))
      ensures e != OK ==>
                (MarkerLost(old(upper), upper, newParent + [newName]) <==>
                 DirsMade(old(upper), newParent, faults) && SourceMarked(inLower, oldParent + [name], faults)
                 && LosesMarker(old(upper), newParent + [newName], faults, undo))
    {
      var src, dst := oldParent + [name], newParent + [newName];
      PlainChild(oldParent, name);
      PlainChild(newParent, newName);
      ghost var s := S();
      var made, _ := MkdirAll(newParent, faults);
      ghost var w := S();
      NoMarkerAdded(s, w, newParent, src);
      NoMarkerAdded(s, w, newParent, dst);
      if !made {
        NothingSpoilt(s, w, src, dst, faults, undo);
        return EIO;
      }
      ViewAt(s, newParent);
      ViewAt(w, newParent);
      ViewAt(s, oldParent);
      ViewAt(w, oldParent);
      e := RenameMarked(oldParent, name, newParent, newName, inLower, faults, undo);
      MadeMoves(s, w, src, dst, faults);
      MadeErrors(s, w, src, dst, faults);
      if e != OK {
        EntryFailedStable(s, w, S(), src, dst, faults, undo);
      } else {
        RenamedIsAs(w, src, dst);
        RenamedAsStable(s, w, S(), src, dst, Parent(dst));
      }
    }

    /** A rename gets as far as setting the marker for its source: the source is in the upper directory
        or is copied there, and the directory of the destination is made. */
    ghost predicate Started(s: State, src: Path, newParent: Path, faults: Faults)
      requires src != []
    {
      CanStart(s, src) && (src in s.upper || CopyMade(s.upper, src, faults)) && DirsMade(s.upper, newParent, faults)
    }

    /** A rename gets as far as the call that moves. */
    ghost predicate Reaches(s: State, src: Path, dst: Path, faults: Faults)
      requires src != [] && dst != []
    {
      && Started(s, src, Parent(dst), faults)
      && SourceMarked(src in s.lower, src, faults) && Uncovered(s.upper, dst, faults)
    }

    /** How a rename is answered after its argument checks. */
    ghost function RenameError(s: State, src: Path, dst: Path, faults: Faults): Errno
      requires src != [] && dst != []
    {
      if s.Lookup(src).None? then ENOENT
      else if !CanStart(s, src) then EXDEV
      else if src !in s.upper && !CopyMade(s.upper, src, faults) then EIO
      else EntryError(s.upper, src in s.lower, src, dst, faults)
    }

    lemma RenameErrorIs(s: State, src: Path, dst: Path, faults: Faults)
      requires s.Inv() && PlainPath(src) && src != [] && dst != []
      ensures var e, u := RenameError(s, src, dst, faults), s.upper;
              var reaches := Reaches(s, src, dst, faults);
              && e in {OK, EINVAL, EXDEV, ENOENT, EEXIST, ENOTDIR, EIO}
              && (e == OK <==> Started(s, src, Parent(dst), faults) && SourceMarked(src in s.lower, src, faults)
                               && MoveMade(u, src, dst, faults))
              && (e == ENOENT <==> s.Lookup(src).None?)
              && (e == EXDEV <==> s.IsDir(src) && src !in u)
              && (e == EEXIST <==> reaches && DirAtDestination(u, src, dst))
              && (e == EINVAL <==> reaches && !DirAtDestination(u, src, dst) && CallRename(src, dst) !in faults
                                   && IntoItself(u, src, dst))
              && (e == ENOTDIR <==> reaches && !DirAtDestination(u, src, dst) && CallRename(src, dst) !in faults
                                    && !IntoItself(u, src, dst) && DirOverFile(u, src, dst))
    {
    }

    /** The first half of a rename: the source is found, and copied up if it is a lower leaf. */
    method CopySource(src: Path, ghost dst: Path, faults: Faults, ghost undo: Faults)
      returns (e: Errno, inLower: bool)
      requires Valid() && writable && PlainPath(src) && src != [] && PlainPath(dst) && dst != []
      requires S().IsDir(Parent(dst))
      modifies this`upper
      ensures e != OK ==> RenameFailed(old(S()), S(), src, dst, faults, undo)
                          && !MarkerLeft(old(upper), upper, src) && !MarkerLost(old(upper), upper, dst)
      ensures e == OK ==> CopiedUp(old(S()), S(), src) && inLower == (src in lower)
      ensures e == OK <==> CanStart(old(S()), src) && (src in old(upper) || CopyMade(old(upper), src, faults))
      ensures e == OK ==> (DirsMade(upper, Parent(dst), faults) <==> DirsMade(old(upper), Parent(dst), faults))
      ensures e != OK ==> e == RenameError(old(S()), src, dst, faults)
      ensures faults == {} && Copyable(src) ==> (e == OK <==> CanStart(old(S()), src))
    {
      ghost var s := S();
      var i := Stat(src);
      if !i.Exists() {
        RenameNotBegun(s, S(), src, dst, faults, undo);
        return ENOENT, false;
      }
      inLower := i.lower.Some?;
      ModeOfDir(s.Lookup(src));
      var copied := CopyUp(src, faults);
      if !copied || src !in upper {
        RenameNotBegun(s, S(), src, dst, faults, undo);
        return if copied then EXDEV else EIO, inLower;
      }
      PlainParent(dst);
      if src !in s.upper { NotAboveDir(s, src, Parent(dst)); }
      DirsMadeStable(s.upper, upper, src, Parent(dst), faults);
      e := OK;
    }

    /** The part of `Rename` after its argument checks. */
    method RenameChecked(oldParent: Path, name: Name, newParent: Path, newName: Name, faults: Faults, undo: Faults)
      returns (e: Errno)
      requires Valid() && writable && PlainPath(oldParent) && PlainPath(newParent) && Plain(name) && Plain(newName)
      requires S().IsDir(oldParent) && S().IsDir(newParent) && oldParent + [name] != newParent + [newName]
      modifies this`upper
      ensures RenameOutcome(old(S()), S(), oldParent + [name], newParent + [newName], e, faults, undo)
      ensures e == RenameError(old(S()), oldParent + [name], newParent + [newName], faults)
      ensures e != OK ==>
                (MarkerLeft(old(upper), upper, oldParent + [name]) <==>
                 && Started(old(S()), oldParent + [name], newParent, faults)
                 && oldParent + [name] in lower && SourceMarkerLeft(oldParent + [name], faults, undo))
      ensures e != OK ==>
                (MarkerLost(old(upper), upper, newParent + [newName]) <==>
                 && Started(old(S()), oldParent + [name], newParent, faults)
                 && SourceMarked(oldParent + [name] in lower, oldParent + [name], faults)
                 && LosesMarker(old(upper), newParent + [newName], faults, undo))
      ensures faults == {} && Copyable(oldParent + [name]) ==>
                (e == OK <==> CanStart(old(S()), oldParent + [name])
                              && UpperAccepts(old(upper), oldParent + [name], newParent + [newName]))
    {
      var src, dst := oldParent + [name], newParent + [newName];
      PlainChild(oldParent, name);
      PlainChild(newParent, newName);
      ghost var s := S();
      var inLower;
      e, inLower := CopySource(src, dst, faults, undo);
      if e != OK {
        return;
      }
      e := RenameCopied(oldParent, name, newParent, newName, inLower, faults, undo, s);
    }

    /** The second half: the source is in the upper directory now. */
    method RenameCopied(oldParent: Path, name: Name, newParent: Path, newName: Name, inLower: bool, faults: Faults,
                        undo: Faults, ghost s: State)
      returns (e: Errno)
      requires Valid() && writable && PlainPath(oldParent) && PlainPath(newParent) && Plain(name) && Plain(newName)
      requires s.IsDir(oldParent) && s.IsDir(newParent) && oldParent + [name] != newParent + [newName]
      requires CopiedUp(s, S(), oldParent + [name]) && inLower == (oldParent + [name] in lower)
      requires DirsMade(upper, newParent, faults) <==> DirsMade(s.upper, newParent, faults)
      modifies this`upper
      ensures RenameOutcome(s, S(), oldParent + [name], newParent + [newName], e, faults, undo)
      ensures e == EntryError(s.upper, inLower, oldParent + [name], newParent + [newName], faults)
      ensures e == OK <==> DirsMade(s.upper, newParent, faults) && SourceMarked(inLower, oldParent + [name], faults)
                           && MoveMade(s.upper, oldParent + [name], newParent + [newName], faults)
      ensures e != OK ==>
                (MarkerLeft(s.upper, upper, oldParent + [name]) <==>
                 DirsMade(s.upper, newParent, faults) && inLower
                 && SourceMarkerLeft(oldParent + [name], faults, undo))
      ensures e != OK ==>
                (MarkerLost(s.upper, upper, newParent + [newName]) <==>
                 DirsMade(s.upper, newParent, faults) && SourceMarked(inLower, oldParent + [name], faults)
                 && LosesMarker(s.upper, newParent + [newName], faults, undo))
    {
      var src, dst := oldParent + [name], newParent + [newName];
      PlainChild(oldParent, name);
      PlainChild(newParent, newName);
      ghost var t := S();
      DirStays(s, t, src, newParent);
      DirStays(s, t, src, oldParent);
      CopiedMoves(s, t, src, dst, faults);
      CopiedErrors(s, t, src, dst, faults);
      NoMarkerAdded(s, t, src, dst);
      e := RenameEntry(oldParent, name, newParent, newName, inLower, faults, undo);
      RenamedFromCopy(s, t, S(), src, dst, e, faults, undo);
    }

    /** Renames a visible path. `RenamedAs` says what a rename that succeeds leaves at every path,
        when that is a move of the view, when a merge, and when the state stays good. A failing call
        leaves the view as it was, but for a copy of the source, and but for markers: one that is left
        hides the source, one that is lost uncovers the lower entry at the destination. */
    method Rename(oldParent: Path, name: Name, newParent: Path, newName: Name, flags: nat, sameMount: bool,
                  faults: Faults, undo: Faults)
      returns (e: Errno)
      requires Valid() && PlainPath(oldParent) && PlainPath(newParent)
      requires !IsMarkerName(name) && !IsMarkerName(newName)
      requires S().IsDir(oldParent) && S().IsDir(newParent)
      modifies this`upper
      ensures e != OK ==> RenameFailed(old(S()), S(), oldParent + [name], newParent + [newName], faults, undo)
      ensures oldParent + [name] != newParent + [newName] ==>
                (e == OK <==>
                 && Asked(name, newName, flags, sameMount) && writable
                 && Started(old(S()), oldParent + [name], newParent, faults)
                 && SourceMarked(oldParent + [name] in lower, oldParent + [name], faults)
                 && MoveMade(old(upper), oldParent + [name], newParent + [newName], faults))
      ensures e in {OK, EINVAL, EXDEV, EROFS, ENOENT, EEXIST, ENOTDIR, EIO}
      ensures e == EROFS <==> Asked(name, newName, flags, sameMount) && !writable
      ensures e == ENOENT <==> Asked(name, newName, flags, sameMount) && writable
                               && oldParent + [name] != newParent + [newName]
                               && old(S().Lookup(oldParent + [name])).None?
      ensures e == EXDEV <==>
              && Proper(name) && Proper(newName)
              && (!sameMount || (flags == 0 && writable && oldParent + [name] != newParent + [newName]
                                 && old(S().IsDir(oldParent + [name])) && oldParent + [name] !in old(upper)))
      ensures var src, dst, u := oldParent + [name], newParent + [newName], old(upper);
              var reaches := Asked(name, newName, flags, sameMount) && writable && src != dst
                             && Reaches(old(S()), src, dst, faults);
              && (e == EEXIST <==> reaches && DirAtDestination(u, src, dst))
              && (e == EINVAL <==> || !Proper(name) || !Proper(newName) || (sameMount && flags != 0)
                                   || (reaches && !DirAtDestination(u, src, dst)
                                       && CallRename(src, dst) !in faults && IntoItself(u, src, dst)))
              && (e == ENOTDIR <==> reaches && !DirAtDestination(u, src, dst) && CallRename(src, dst) !in faults
                                    && !IntoItself(u, src, dst) && DirOverFile(u, src, dst))
      ensures e != OK ==>
                (MarkerLeft(old(upper), upper, oldParent + [name]) <==>
                 && Asked(name, newName, flags, sameMount) && writable
                 && oldParent + [name] != newParent + [newName]
                 && Started(old(S()), oldParent + [name], newParent, faults)
                 && oldParent + [name] in lower && SourceMarkerLeft(oldParent + [name], faults, undo))
      ensures e != OK ==>
                (MarkerLost(old(upper), upper, newParent + [newName]) <==>
                 && Asked(name, newName, flags, sameMount) && writable
                 && oldParent + [name] != newParent + [newName]
                 && Started(old(S()), oldParent + [name], newParent, faults)
                 && SourceMarked(oldParent + [name] in lower, oldParent + [name], faults)
                 && LosesMarker(old(upper), newParent + [newName], faults, undo))
      ensures Valid() <==> S().Inv()
      ensures oldParent + [name] == newParent + [newName] ==>
                upper == old(upper) && (e == OK <==> Asked(name, newName, flags, sameMount) && writable)
      ensures oldParent + [name] == newParent + [newName] ==> Valid() && View() == old(View())
      ensures e == OK && oldParent + [name] != newParent + [newName] ==>
                && writable && old(S().Lookup(oldParent + [name])).Some?
                && RenamedAs(old(S()), S(), oldParent + [name], newParent + [newName])
      ensures faults == {} && Copyable(oldParent + [name]) ==>
                (e == OK <==> RenameAccepted(old(S()), oldParent, name, newParent, newName, flags, sameMount, writable))
    {
      if !Proper(name) || !Proper(newName) {
        return EINVAL;
      }
      if !sameMount {
        return EXDEV;
      }
      if flags != 0 {
        return EINVAL;
      }
      if !writable {
        return EROFS;
      }
      if oldParent + [name] == newParent + [newName] {
        return OK;
      }
      RenameErrorIs(S(), oldParent + [name], newParent + [newName], faults);
      e := RenameChecked(oldParent, name, newParent, newName, faults, undo);
    }

    // -------------------------------------------------------------- opening and writing

    /** Opens a path; opening a lower leaf for writing copies it up first. `fromUpper` tells which
        half the handle reads. */
    method Open(p: Path, write: bool, faults: Faults) returns (e: Errno, fromUpper: bool)
      requires Valid() && PlainPath(p) && p != []
      modifies this`upper
      ensures Valid()
      ensures e in {OK, ENOENT, EROFS, EIO}
      ensures e == OK <==>
              && old(S().Lookup(p)).Some? && (write ==> writable)
              && (write && ShowsLower(old(S()), p) ==> CopyMade(old(upper), p, faults))
              && (writable && (p in old(upper) || (write && ShowsLower(old(S()), p))) ==> CallLoopback(p) !in faults)
      ensures !write ==> upper == old(upper)
      ensures write && e == OK && ShowsLower(old(S()), p) ==> p in upper && upper[p] == CopyEntry(p)
      ensures e == ENOENT <==> old(S().Lookup(p)).None?
      ensures e == EROFS <==> old(S().Lookup(p)).Some? && write && !writable
      ensures View() == old(View()) || (write && View() == AfterCopyUp(old(S()), p))
      ensures e == OK ==> View() == if write then AfterCopyUp(old(S()), p) else old(View())
      ensures e == OK ==> fromUpper == (writable && p in upper)
      ensures e == OK && write && !old(S().IsDir(p)) ==> fromUpper
      ensures e == OK && fromUpper ==> CallLoopback(p) !in faults
      ensures PlainStays(old(upper), upper)
      ensures faults == {} && Copyable(p) ==> e in {OK, ENOENT, EROFS}
    {
      fromUpper := false;
      var i := Stat(p);
      if !i.Exists() {
        return ENOENT, false;
      }
      if write && !writable {
        return EROFS, false;
      }
      fromUpper := i.upper.Some?;
      if write && i.upper.None? {
        var ok := CopyUp(p, faults);
        if !ok {
          return EIO, false;
        }
        UpperStaysShown(S(), p);
        var j := Stat(p);
        fromUpper := j.upper.Some?;
      }
      if fromUpper && CallLoopback(p) in faults {
        return EIO, false;
      }
      e := OK;
    }

    /** A write or a permission change through a handle on an upper file. */
    method WriteThrough(p: Path, perm: nat, data: Bytes)
      requires Valid() && writable && PlainPath(p) && p != [] && p in upper && upper[p].UFile?
      modifies this`upper
      ensures Valid() && View() == old(View())[p := File(data)]
      ensures upper == old(upper)[p := UFile(perm, data)]
    {
      UpperIsShown(S(), p);
      PutEntry(S(), p, UFile(perm, data));
      upper := upper[p := UFile(perm, data)];
    }

    /** Reading through a handle on the lower tree. */
    method ReadLower(p: Path, off: int, length: int) returns (r: Result<Bytes, ReadError>)
      requires Valid() && p in lower && lower[p].LLeaf? && lower[p].link == ""
      requires off <= MAX_INT64 && length <= MAX_MAKE  // the length is that of a buffer there is
      ensures r.Ok? ==> r.value == if off + length > MAX_INT64 then [] else Slice(lower[p].data, off, length)
      ensures BlocksAtHand(p) ==> r.Ok?
    {
      var n := LowerNode(p);
      NodeIsWellFormed(full, tree.blockSize, n.value);
      ShortIsAllocatable(n.value, off, length);
      r := ReadAt(tree, n.value, off, length, full);
      if off >= 0 && r.Err? && !NoBlocks(n.value) && length > 0 {
        UnreadableIsMissing(tree.store, full, n.value, off, length);
      }
    }
  }
}
