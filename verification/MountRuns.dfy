/** Whole runs of a mount: a flat file system as the reference, what each request does to it and how
    it is answered, and any number of requests of a client. */
module MountRuns {
  import opened Wrappers
  import opened Paths
  import opened Entries
  import opened TreeData
  import opened InodeTree
  import opened UnionState
  import opened UnionMoves
  import BlockReads
  import Fs = UnionFs

  type Errno = Fs.Errno

  datatype Request =
    | Create(parent: Path, name: Name, perm: nat)
    | Mkdir(parent: Path, name: Name)
    | Symlink(target: string, parent: Path, name: Name)
    | Unlink(parent: Path, name: Name)
    | Rmdir(parent: Path, name: Name)
    | Rename(parent: Path, name: Name, newParent: Path, newName: Name)
    | OpenForWrite(path: Path)
    | Write(path: Path, perm: nat, data: Bytes)

  /** What a successful request does to a plain file system. A rename puts the source's subtree over
      what is at the destination: a move wherever nothing lies below the destination. */
  function FlatStep(v: View, r: Request): View {
    match r
    case Create(parent, name, _) => v[parent + [name] := File([])]
    case Mkdir(parent, name) => v[parent + [name] := Dir]
    case Symlink(target, parent, name) => v[parent + [name] := Link(target)]
    case Unlink(parent, name) => v - {parent + [name]}
    case Rmdir(parent, name) => v - {parent + [name]}
    case Rename(parent, name, newParent, newName) =>
      if parent + [name] == newParent + [newName] then v
      else MergeSubtree(v, parent + [name], newParent + [newName])
    case OpenForWrite(_) => v
    case Write(path, _, data) => v[path := File(data)]
  }

  predicate DirIn(v: View, p: Path) {
    p in v && v[p] == Dir
  }

  /** A copy of the leaf at p, if one is made, looks like the original. */
  ghost predicate CopiesWell(s: State, p: Path) {
    p in s.lower ==> Fs.CopyOf(s.lower[p]) == SeeLower(s.lower[p])
  }

  predicate CanMake(v: View, parent: Path, name: Name) {
    PlainPath(parent) && !IsMarkerName(name) && DirIn(v, parent) && parent + [name] !in v
  }

  /** What the kernel guarantees of the requests it sends, for client names that are no markers; a
      write goes to a file that was created or opened for writing before. */
  predicate Sent(s: State, r: Request) {
    var v := s.View();
    match r
    case Create(parent, name, _) => CanMake(v, parent, name)
    case Mkdir(parent, name) => CanMake(v, parent, name)
    case Symlink(_, parent, name) => CanMake(v, parent, name)
    case Unlink(parent, name) => PlainPath(parent) && !IsMarkerName(name) && DirIn(v, parent)
    case Rmdir(parent, name) => PlainPath(parent) && !IsMarkerName(name) && DirIn(v, parent)
    case Rename(parent, name, newParent, newName) =>
      && PlainPath(parent) && PlainPath(newParent) && !IsMarkerName(name) && !IsMarkerName(newName)
      && DirIn(v, parent) && DirIn(v, newParent)
    case OpenForWrite(path) => PlainPath(path) && path != []
    case Write(path, _, data) =>
      && PlainPath(path) && path != [] && path in s.upper && s.upper[path].UFile?
      && |data| <= BlockReads.MAX_INT64
  }

  /** The path a request may copy up, and the view once it has. */
  function Copied(s: State, r: Request): View {
    match r
    case Rename(parent, name, newParent, newName) =>
      if parent + [name] == newParent + [newName] then s.View() else Fs.AfterCopyUp(s, parent + [name])
    case OpenForWrite(path) => Fs.AfterCopyUp(s, path)
    case _ => s.View()
  }

  /** A success leaves the state good; only a rename may not. */
  ghost predicate KeepsGood(s: State, r: Request) {
    r.Rename? && r.parent + [r.name] != r.newParent + [r.newName] ==>
      RenameKeeps(s, r.parent + [r.name], r.newParent + [r.newName])
  }

  /** The request fails and leaves a marker over the path it was to remove or move. */
  predicate LeavesMarker(s: State, r: Request, t: State) {
    (r.Unlink? || r.Rmdir? || r.Rename?) && Fs.MarkerLeft(s.upper, t.upper, r.parent + [r.name])
  }

  /** The path a request puts an entry at. */
  function Destination(r: Request): Option<Path> {
    match r
    case Create(parent, name, _) => Some(parent + [name])
    case Mkdir(parent, name) => Some(parent + [name])
    case Symlink(_, parent, name) => Some(parent + [name])
    case Rename(_, _, newParent, newName) => Some(newParent + [newName])
    case _ => None
  }

  /** The request fails and has lost the marker at the path it was to put an entry at. */
  predicate LosesMarker(s: State, r: Request, t: State) {
    Destination(r).Some? && Destination(r).value != [] && Fs.MarkerLost(s.upper, t.upper, Destination(r).value)
  }

  /** The view after a failure: a marker left hides one path, a marker lost uncovers one. */
  function Spoilt(v: View, s: State, r: Request, t: State): View {
    var shown := if LosesMarker(s, r, t) && Destination(r).value in s.lower
                 then v[Destination(r).value := SeeLower(s.lower[Destination(r).value])] else v;
    if LeavesMarker(s, r, t) then shown - {r.parent + [r.name]} else shown
  }

  /** Everything a request can do. With success it takes the step of the flat file system, and the
      state stays good, unless it is a rename that does not keep it so. A failure changes nothing but
      for a copy, and but for markers: the path to remove or move may be hidden though the request
      failed, and a lower entry may show again where one was to be made. */
  ghost predicate Outcome(s: State, r: Request, faults: Fs.Faults, undo: Fs.Faults, e: Errno, t: State) {
    && t.lower == s.lower
    && if e == Fs.OK then
         (t.Inv() <==> KeepsGood(s, r)) && (KeepsGood(s, r) ==> t.View() == FlatStep(Copied(s, r), r))
       else Failure(s, r, faults, undo, t)
  }

  ghost predicate Failure(s: State, r: Request, faults: Fs.Faults, undo: Fs.Faults, t: State) {
    && (t.View() == Spoilt(s.View(), s, r, t) || t.View() == Spoilt(Copied(s, r), s, r, t))
    && (LeavesMarker(s, r, t) ==> Fs.MarkerStuck(r.parent + [r.name], faults, undo))
    && (LosesMarker(s, r, t) ==> Fs.CallOpen(Marker(Destination(r).value)) in undo)
    && (t.Inv() <==> LeavesMarker(s, r, t) ==>
          !r.Rename? && r.parent + [r.name] !in t.upper && t.NoLowerKids(r.parent + [r.name]))
  }

  /** Requests that keep the state good, and do not turn FIFOs into files by copying them up. */
  ghost predicate Admissible(s: State, r: Request) {
    && Sent(s, r) && KeepsGood(s, r)
    && match r
       case Rename(parent, name, _, _) => CopiesWell(s, parent + [name])
       case OpenForWrite(path) => CopiesWell(s, path)
       case _ => true
  }

  /** One request served: the invariant is kept and the view takes the flat step, or none at all. */
  ghost predicate Served(s: State, r: Request, e: Errno, t: State) {
    && t.lower == s.lower && t.Inv()
    && t.View() == if e == Fs.OK then FlatStep(s.View(), r) else s.View()
  }

  /** What a file system must find to answer a request with success. */
  ghost predicate Accepts(s: State, r: Request) {
    match r
    case Create(_, name, _) => Proper(name)
    case Mkdir(_, name) => Proper(name)
    case Symlink(_, _, name) => Proper(name)
    case Unlink(parent, name) => s.Lookup(parent + [name]).Some? && !s.IsDir(parent + [name])
    case Rmdir(parent, name) =>
      s.IsDir(parent + [name]) && LooksEmpty(s, parent + [name]) && s.NoLowerKids(parent + [name])
    case Rename(parent, name, newParent, newName) =>
      parent + [name] == newParent + [newName] || s.Lookup(parent + [name]).Some?
    case OpenForWrite(path) => s.Lookup(path).Some?
    case Write(path, _, _) => path in s.upper
  }

  /** What a client can rely on besides: success means that the request was acceptable; and a file it
      has created or opened for writing, and not removed or renamed, stays in the upper directory. */
  ghost predicate Reliable(s: State, r: Request, e: Errno, t: State) {
    && (e == Fs.OK ==> Accepts(s, r))
    && (e == Fs.OK && r.Create? ==> r.parent + [r.name] in t.upper)
    && (e == Fs.OK && r.OpenForWrite? && !s.IsDir(r.path) ==> r.path in t.upper)
    && (!r.Unlink? && !r.Rmdir? && !r.Rename? ==> Fs.PlainStays(s.upper, t.upper))
  }

  /** Exactly when a request is answered with success, whatever calls fail: nothing in the state stands
      against it, and no call fails that it makes. */
  ghost predicate Succeeds(fs: Fs.UnionFs, s: State, r: Request, faults: Fs.Faults) {
    match r
    case Create(parent, name, _) => CanMakeEntry(fs, s, parent, name, Fs.CallOpen(parent + [name]), faults)
    case Mkdir(parent, name) => CanMakeEntry(fs, s, parent, name, Fs.CallMkdir(parent + [name]), faults)
    case Symlink(_, parent, name) => CanMakeEntry(fs, s, parent, name, Fs.CallSymlink(parent + [name]), faults)
    case Unlink(parent, name) => CanRemove(fs, s, parent, name, false, faults)
    case Rmdir(parent, name) => CanRemove(fs, s, parent, name, true, faults)
    case Rename(parent, name, newParent, newName) =>
      && Proper(name) && Proper(newName) && fs.writable
      && var src, dst := parent + [name], newParent + [newName];
         (src == dst ||
          (fs.Started(s, src, newParent, faults) && Fs.SourceMarked(src in s.lower, src, faults)
           && Fs.MoveMade(s.upper, src, dst, faults)))
    case OpenForWrite(path) =>
      && path != [] && s.Lookup(path).Some? && fs.writable
      && (Fs.ShowsLower(s, path) ==> fs.CopyMade(s.upper, path, faults))
      && (path in s.upper || Fs.ShowsLower(s, path) ==> Fs.CallLoopback(path) !in faults)
    case Write(_, _, _) => fs.writable
  }

  ghost predicate CanMakeEntry(fs: Fs.UnionFs, s: State, parent: Path, name: Name, call: Fs.Call, faults: Fs.Faults) {
    Proper(name) && fs.writable && Fs.EntryCanBeMade(s.upper, parent, name, faults) && call !in faults
  }

  ghost predicate CanRemove(fs: Fs.UnionFs, s: State, parent: Path, name: Name, dir: bool, faults: Fs.Faults) {
    var p := parent + [name];
    && Proper(name) && fs.writable && Fs.MayRemove(s, p, dir, faults) && s.NoLowerKids(p)
    && (p in s.lower ==> Fs.Hides(s.upper, p, faults)) && (p in s.upper ==> Fs.CallRemove(p) !in faults)
  }

  /** Exactly what a mount asks of a request when no call fails. */
  ghost predicate Acceptable(s: State, writable: bool, r: Request) {
    && writable
    && match r
       case Create(_, name, _) => Proper(name)
       case Mkdir(_, name) => Proper(name)
       case Symlink(_, _, name) => Proper(name)
       case Unlink(parent, name) => s.Lookup(parent + [name]).Some? && !s.IsDir(parent + [name])
       case Rmdir(parent, name) =>
         s.IsDir(parent + [name]) && LooksEmpty(s, parent + [name]) && s.NoLowerKids(parent + [name])
       case Rename(parent, name, newParent, newName) =>
         Fs.RenameAccepted(s, parent, name, newParent, newName, 0, true, true)
       case OpenForWrite(path) => s.Lookup(path).Some?
       case Write(_, _, _) => true
  }

  /** The lower file that a request may copy up can be read. */
  ghost predicate Readable(store: BlockStore, paths: PathMap, r: Request) {
    match r
    case Rename(parent, name, _, _) => Fs.CanCopy(store, paths, parent + [name])
    case OpenForWrite(path) => Fs.CanCopy(store, paths, path)
    case _ => true
  }

  /** The errors that tell a client why. */
  ghost predicate Told(s: State, writable: bool, r: Request, e: Errno) {
    match r
    case Create(_, name, _) => ToldOfName(writable, name, e)
    case Mkdir(_, name) => ToldOfName(writable, name, e)
    case Symlink(_, _, name) => ToldOfName(writable, name, e)
    case Unlink(parent, name) =>
      && ToldOfName(writable, name, e)
      && (e == Fs.ENOENT <==> Proper(name) && writable && s.Lookup(parent + [name]).None?)
      && (e == Fs.EISDIR <==> Proper(name) && writable && s.IsDir(parent + [name]))
    case Rmdir(parent, name) =>
      && ToldOfName(writable, name, e)
      && (e == Fs.ENOENT <==> Proper(name) && writable && s.Lookup(parent + [name]).None?)
      && (e == Fs.ENOTDIR <==>
          Proper(name) && writable && s.Lookup(parent + [name]).Some? && !s.IsDir(parent + [name]))
    case Rename(parent, name, newParent, newName) =>
      var asked := Proper(name) && Proper(newName) && writable && parent + [name] != newParent + [newName];
      && (!Proper(name) || !Proper(newName) ==> e == Fs.EINVAL)
      && (e == Fs.EROFS <==> Proper(name) && Proper(newName) && !writable)
      && (e == Fs.ENOENT <==> asked && s.Lookup(parent + [name]).None?)
      && (e == Fs.EXDEV <==> asked && s.IsDir(parent + [name]) && parent + [name] !in s.upper)
    case OpenForWrite(path) =>
      && (e == Fs.ENOENT <==> s.Lookup(path).None?)
      && (e == Fs.EROFS <==> s.Lookup(path).Some? && !writable)
    case Write(_, _, _) => e == Fs.OK || e == Fs.EROFS
  }

  predicate ToldOfName(writable: bool, name: Name, e: Errno) {
    (e == Fs.EINVAL <==> !Proper(name)) && (e == Fs.EROFS <==> Proper(name) && !writable)
  }

  /** Success and errors of one reply. */
  ghost predicate Replies(fs: Fs.UnionFs, s: State, r: Request, faults: Fs.Faults, e: Errno) {
    && (e == Fs.OK <==> Succeeds(fs, s, r, faults)) && Told(s, fs.writable, r, e)
    && (faults == {} && Readable(fs.tree.store, fs.paths, r) ==> (e == Fs.OK <==> Acceptable(s, fs.writable, r)))
  }

  ghost predicate Handled(s: State, r: Request, e: Errno, t: State) {
    Served(s, r, e, t) && Reliable(s, r, e, t)
  }

  /** Closing a marker file does not fail. Where that is so and rollbacks succeed, no marker is left. */
  ghost predicate MarkersClose(faults: Fs.Faults) {
    forall m :: Fs.CallCloseMarker(m) !in faults
  }

  lemma DirInView(s: State, p: Path, name: Name)
    requires PlainPath(p) && DirIn(s.View(), p)
    ensures s.IsDir(p)
    ensures Proper(name) && !IsMarkerName(name) && p + [name] !in s.View() ==> s.Lookup(p + [name]).None?
  {
    ViewAt(s, p);
    if Proper(name) && !IsMarkerName(name) {
      PlainChild(p, name);
      ViewAt(s, p + [name]);
    }
  }

  /** Only a proper name is found in a directory. */
  lemma FoundIsProper(s: State, parent: Path, name: Name)
    requires s.Inv() && !IsMarkerName(name) && s.Lookup(parent + [name]).Some?
    ensures Proper(name)
  {
    var p := parent + [name];
    assert Base(p) == name && Parent(p) == parent;
    assert p in s.lower ==> Plain(p[|p| - 1]);
  }

  lemma CopyUnseen(s: State, p: Path)
    requires s.Inv() && PlainPath(p) && p in s.lower && p !in s.upper && !s.Hidden(p)
    ensures s.View()[p := SeeLower(s.lower[p])] == s.View()
  {
    ViewAt(s, p);
  }

  lemma FaithfulCopy(s: State, p: Path)
    requires s.Inv() && CopiesWell(s, p)
    ensures Fs.AfterCopyUp(s, p) == s.View()
  {
    if Fs.ShowsLower(s, p) { CopyUnseen(s, p); }
  }

  /** Requests that keep the state good, with markers that close, are served. */
  lemma OutcomeIsServed(s: State, r: Request, faults: Fs.Faults, e: Errno, t: State)
    requires s.Inv() && Admissible(s, r) && MarkersClose(faults) && Outcome(s, r, faults, {}, e, t)
    ensures Served(s, r, e, t)
  {
    assert Copied(s, r) == s.View() by {
      match r
      case Rename(parent, name, _, _) => FaithfulCopy(s, parent + [name]);
      case OpenForWrite(path) => FaithfulCopy(s, path);
      case _ =>
    }
  }

  lemma MadeOutcome(s: State, r: Request, made: Node, faults: Fs.Faults, undo: Fs.Faults, e: Errno, t: State)
    requires r.Create? || r.Mkdir? || r.Symlink?
    requires FlatStep(s.View(), r) == s.View()[r.parent + [r.name] := made]
    requires t.lower == s.lower && t.Inv() && Fs.PlainStays(s.upper, t.upper)
    requires e == Fs.OK ==> t.View() == s.View()[r.parent + [r.name] := made]
    requires e != Fs.OK ==> t.View() == Fs.ViewUnmade(s, t, r.parent + [r.name])
    requires e != Fs.OK && Fs.MarkerLost(s.upper, t.upper, r.parent + [r.name]) ==>
               Fs.CallOpen(Marker(r.parent + [r.name])) in undo
    requires e == Fs.OK ==> Proper(r.name) && (r.Create? ==> r.parent + [r.name] in t.upper)
    ensures Outcome(s, r, faults, undo, e, t) && Reliable(s, r, e, t)
  {
    if e != Fs.OK {
      assert Destination(r) == Some(r.parent + [r.name]) && !LeavesMarker(s, r, t);
      assert Spoilt(s.View(), s, r, t) == Fs.ViewUnmade(s, t, r.parent + [r.name]);
      assert Failure(s, r, faults, undo, t);
    }
  }

  method HandleCreate(fs: Fs.UnionFs, r: Request, faults: Fs.Faults, undo: Fs.Faults) returns (e: Errno)
    requires fs.Valid() && Sent(fs.S(), r) && r.Create?
    modifies fs`upper
    ensures fs.Valid() && Outcome(old(fs.S()), r, faults, undo, e, fs.S()) && Reliable(old(fs.S()), r, e, fs.S())
    ensures Replies(fs, old(fs.S()), r, faults, e)
  {
    ghost var s := fs.S();
    DirInView(s, r.parent, r.name);
    e := fs.Create(r.parent, r.name, r.perm, faults, undo);
    MadeOutcome(s, r, File([]), faults, undo, e, fs.S());
  }

  method HandleMkdir(fs: Fs.UnionFs, r: Request, faults: Fs.Faults, undo: Fs.Faults) returns (e: Errno)
    requires fs.Valid() && Sent(fs.S(), r) && r.Mkdir?
    modifies fs`upper
    ensures fs.Valid() && Outcome(old(fs.S()), r, faults, undo, e, fs.S()) && Reliable(old(fs.S()), r, e, fs.S())
    ensures Replies(fs, old(fs.S()), r, faults, e)
  {
    ghost var s := fs.S();
    DirInView(s, r.parent, r.name);
    e := fs.Mkdir(r.parent, r.name, faults, undo);
    MadeOutcome(s, r, Dir, faults, undo, e, fs.S());
  }

  method HandleSymlink(fs: Fs.UnionFs, r: Request, faults: Fs.Faults, undo: Fs.Faults) returns (e: Errno)
    requires fs.Valid() && Sent(fs.S(), r) && r.Symlink?
    modifies fs`upper
    ensures fs.Valid() && Outcome(old(fs.S()), r, faults, undo, e, fs.S()) && Reliable(old(fs.S()), r, e, fs.S())
    ensures Replies(fs, old(fs.S()), r, faults, e)
  {
    ghost var s := fs.S();
    DirInView(s, r.parent, r.name);
    e := fs.Symlink(r.target, r.parent, r.name, faults, undo);
    MadeOutcome(s, r, Link(r.target), faults, undo, e, fs.S());
  }

  lemma RemoveGives(s: State, r: Request, faults: Fs.Faults, undo: Fs.Faults, e: Errno, t: State)
    requires r.Unlink? || r.Rmdir?
    requires e == Fs.OK ==> t.Inv() && t.lower == s.lower && t.View() == s.View() - {r.parent + [r.name]}
    requires e != Fs.OK ==> Fs.FailedAt(s, t, r.parent + [r.name], faults, undo)
    requires e == Fs.OK ==> Accepts(s, r)
    ensures Outcome(s, r, faults, undo, e, t) && Reliable(s, r, e, t)
  {
    if e != Fs.OK { assert Failure(s, r, faults, undo, t); }
  }

  method HandleRemove(fs: Fs.UnionFs, r: Request, faults: Fs.Faults, undo: Fs.Faults) returns (e: Errno)
    requires fs.Valid() && Sent(fs.S(), r) && (r.Unlink? || r.Rmdir?)
    modifies fs`upper
    ensures fs.Valid() <==> fs.S().Inv()
    ensures Outcome(old(fs.S()), r, faults, undo, e, fs.S()) && Reliable(old(fs.S()), r, e, fs.S())
    ensures Replies(fs, old(fs.S()), r, faults, e)
  {
    ghost var s := fs.S();
    DirInView(s, r.parent, r.name);
    e := fs.Remove(r.parent, r.name, r.Rmdir?, faults, undo);
    if s.Lookup(r.parent + [r.name]).Some? { FoundIsProper(s, r.parent, r.name); }
    RemoveGives(s, r, faults, undo, e, fs.S());
  }

  lemma RenameGives(s: State, r: Request, faults: Fs.Faults, undo: Fs.Faults, e: Errno, t: State)
    requires r.Rename? && r.parent + [r.name] != r.newParent + [r.newName]
    requires Fs.RenameOutcome(s, t, r.parent + [r.name], r.newParent + [r.newName], e, faults, undo)
    requires e == Fs.OK ==> s.Lookup(r.parent + [r.name]).Some?
    ensures Outcome(s, r, faults, undo, e, t) && Reliable(s, r, e, t)
  {
  }

  method HandleRename(fs: Fs.UnionFs, r: Request, faults: Fs.Faults, undo: Fs.Faults) returns (e: Errno)
    requires fs.Valid() && Sent(fs.S(), r) && r.Rename?
    modifies fs`upper
    ensures fs.Valid() <==> fs.S().Inv()
    ensures Outcome(old(fs.S()), r, faults, undo, e, fs.S()) && Reliable(old(fs.S()), r, e, fs.S())
    ensures Replies(fs, old(fs.S()), r, faults, e)
  {
    ghost var s := fs.S();
    if r.parent + [r.name] == r.newParent + [r.newName] {
      e := HandleSameName(fs, r, faults, undo);
      return;
    }
    DirInView(s, r.parent, r.name);
    DirInView(s, r.newParent, r.newName);
    e := fs.Rename(r.parent, r.name, r.newParent, r.newName, 0, true, faults, undo);
    RenameGives(s, r, faults, undo, e, fs.S());
  }

  /** A rename of a path to itself. */
  method HandleSameName(fs: Fs.UnionFs, r: Request, faults: Fs.Faults, undo: Fs.Faults) returns (e: Errno)
    requires fs.Valid() && Sent(fs.S(), r) && r.Rename? && r.parent + [r.name] == r.newParent + [r.newName]
    modifies fs`upper
    ensures fs.Valid() && Outcome(old(fs.S()), r, faults, undo, e, fs.S()) && Reliable(old(fs.S()), r, e, fs.S())
    ensures Replies(fs, old(fs.S()), r, faults, e)
  {
    ghost var s := fs.S();
    DirInView(s, r.parent, r.name);
    DirInView(s, r.newParent, r.newName);
    e := fs.Rename(r.parent, r.name, r.newParent, r.newName, 0, true, faults, undo);
    assert fs.S() == s && !LeavesMarker(s, r, s) && !LosesMarker(s, r, s);
    if e != Fs.OK { assert Failure(s, r, faults, undo, s); }
  }

  method HandleOpen(fs: Fs.UnionFs, r: Request, faults: Fs.Faults, ghost undo: Fs.Faults) returns (e: Errno)
    requires fs.Valid() && Sent(fs.S(), r) && r.OpenForWrite?
    modifies fs`upper
    ensures fs.Valid() && Outcome(old(fs.S()), r, faults, undo, e, fs.S()) && Reliable(old(fs.S()), r, e, fs.S())
    ensures Replies(fs, old(fs.S()), r, faults, e)
  {
    var fromUpper;
    e, fromUpper := fs.Open(r.path, true, faults);
  }

  method HandleWrite(fs: Fs.UnionFs, r: Request, ghost faults: Fs.Faults, ghost undo: Fs.Faults) returns (e: Errno)
    requires fs.Valid() && Sent(fs.S(), r) && r.Write?
    modifies fs`upper
    ensures fs.Valid() && Outcome(old(fs.S()), r, faults, undo, e, fs.S()) && Reliable(old(fs.S()), r, e, fs.S())
    ensures Replies(fs, old(fs.S()), r, faults, e)
  {
    if !fs.writable {
      return Fs.EROFS;
    }
    fs.WriteThrough(r.path, r.perm, r.data);
    e := Fs.OK;
  }

  /** What any request does to a mount, whatever calls fail. */
  method Handle(fs: Fs.UnionFs, r: Request, faults: Fs.Faults, undo: Fs.Faults) returns (e: Errno)
    requires fs.Valid() && Sent(fs.S(), r)
    modifies fs`upper
    ensures fs.Valid() <==> fs.S().Inv()
    ensures Outcome(old(fs.S()), r, faults, undo, e, fs.S()) && Reliable(old(fs.S()), r, e, fs.S())
    ensures Replies(fs, old(fs.S()), r, faults, e)
  {
    match r
    case Create(_, _, _) => e := HandleCreate(fs, r, faults, undo);
    case Mkdir(_, _) => e := HandleMkdir(fs, r, faults, undo);
    case Symlink(_, _, _) => e := HandleSymlink(fs, r, faults, undo);
    case Unlink(_, _) => e := HandleRemove(fs, r, faults, undo);
    case Rmdir(_, _) => e := HandleRemove(fs, r, faults, undo);
    case Rename(_, _, _, _) => e := HandleRename(fs, r, faults, undo);
    case OpenForWrite(_) => e := HandleOpen(fs, r, faults, undo);
    case Write(_, _, _) => e := HandleWrite(fs, r, faults, undo);
  }

  // ---------------------------------------------------------------- runs

  /** The flat file system after the requests that were answered with success. */
  function Replay(v: View, requests: seq<Request>, replies: seq<Errno>): View
    requires |replies| == |requests|
  {
    if requests == [] then v
    else
      var last := |requests| - 1;
      var w := Replay(v, requests[..last], replies[..last]);
      if replies[last] == Fs.OK then FlatStep(w, requests[last]) else w
  }

  /** A client chooses its next request from the replies it has had. */
  type Client = seq<Errno> -> Request

  /** The next n requests of the client are ones the kernel would send, whatever the replies are, and
      the state they lead to is as wanted. */
  ghost predicate Admitted(s: State, client: Client, replies: seq<Errno>, n: nat, wanted: State -> bool)
    decreases n
  {
    if n == 0 then wanted(s)
    else
      && Admissible(s, client(replies))
      && forall e, t :: Handled(s, client(replies), e, t) ==> Admitted(t, client, replies + [e], n - 1, wanted)
  }

  /** Creates a file, and writes to it if that succeeded. */
  function CreateThenWrite(name: Name, perm: nat, data: Bytes): Client {
    replies => if replies == [] then Create([], name, perm)
               else if replies[|replies| - 1] == Fs.OK then Write([name], perm, data)
               else Unlink([], name)
  }

  lemma RootIsDir(s: State)
    requires s.Inv()
    ensures DirIn(s.View(), [])
  {
    ViewAt(s, []);
  }

  lemma FileIsUpperFile(s: State, p: Path)
    requires s.Inv() && PlainPath(p) && p in s.upper && p in s.View() && s.View()[p].File?
    ensures s.upper[p].UFile?
  {
    ViewAt(s, p);
    Fs.UpperIsShown(s, p);
  }

  lemma WriteAdmitted(s: State, e: Errno, t: State, name: Name, perm: nat, data: Bytes)
    requires s.Inv() && Plain(name) && |data| <= BlockReads.MAX_INT64
    requires Handled(s, Create([], name, perm), e, t)
    ensures e == Fs.OK ==> Admissible(t, Write([name], perm, data))
    ensures Admissible(t, Unlink([], name))
  {
    assert [] + [name] == [name];
    RootIsDir(t);
    if e == Fs.OK {
      assert t.View() == s.View()[[name] := File([])];
      FileIsUpperFile(t, [name]);
    }
  }

  /** Such a client is admitted wherever the name is free. */
  lemma CreateThenWriteAdmitted(s: State, name: Name, perm: nat, data: Bytes, wanted: State -> bool)
    requires s.Inv() && Plain(name) && [name] !in s.View() && |data| <= BlockReads.MAX_INT64
    requires forall t: State :: t.Inv() ==> wanted(t)
    ensures Admitted(s, CreateThenWrite(name, perm, data), [], 2, wanted)
  {
    var client := CreateThenWrite(name, perm, data);
    RootIsDir(s);
    assert [] + [name] == [name];
    assert client([]) == Create([], name, perm);
    forall e, t | Handled(s, client([]), e, t)
      ensures Admitted(t, client, [e], 1, wanted) && [] + [e] == [e]
    {
      WriteAdmitted(s, e, t, name, perm, data);
      LastAdmitted(t, client, [e], wanted);
    }
  }

  lemma LastAdmitted(s: State, client: Client, replies: seq<Errno>, wanted: State -> bool)
    requires Admissible(s, client(replies)) && forall t: State :: t.Inv() ==> wanted(t)
    ensures Admitted(s, client, replies, 1, wanted)
  {
  }

  /** Removes what has the name, and puts a file there if that succeeded. */
  function Replace(name: Name, perm: nat): Client {
    replies => if |replies| == 1 && replies[0] == Fs.OK then Create([], name, perm) else Unlink([], name)
  }

  /** Such a client is admitted in every good state. */
  lemma ReplaceAdmitted(s: State, name: Name, perm: nat, wanted: State -> bool)
    requires s.Inv() && Plain(name) && forall t: State :: t.Inv() ==> wanted(t)
    ensures Admitted(s, Replace(name, perm), [], 2, wanted)
  {
    var client := Replace(name, perm);
    RootIsDir(s);
    assert [] + [name] == [name];
    assert client([]) == Unlink([], name);
    forall e, t | Handled(s, client([]), e, t)
      ensures Admitted(t, client, [e], 1, wanted) && [] + [e] == [e]
    {
      RootIsDir(t);
      assert client([e]) == if e == Fs.OK then Create([], name, perm) else Unlink([], name);
    }
  }

  /** Sizes are 64-bit numbers. */
  ghost predicate Fits(v: View) {
    forall p :: p in v && v[p].File? ==> |v[p].data| <= BlockReads.MAX_INT64
  }

  lemma FlatStepFits(s: State, r: Request)
    requires Fits(s.View()) && Admissible(s, r)
    ensures Fits(FlatStep(s.View(), r))
  {
  }

  /** Some requests have been served; n are still to come. */
  ghost predicate Serving(v: View, s: State, client: Client, requests: seq<Request>, replies: seq<Errno>, n: nat,
                          wanted: State -> bool)
  {
    && |requests| == |replies|
    && (forall j :: 0 <= j < |requests| ==> requests[j] == client(replies[..j]))
    && s.View() == Replay(v, requests, replies)
    && Admitted(s, client, replies, n, wanted)
    && (Fits(v) ==> Fits(s.View()))
  }

  lemma ServeStep(v: View, s: State, t: State, client: Client, requests: seq<Request>, replies: seq<Errno>, n: nat,
                  wanted: State -> bool, requests': seq<Request>, replies': seq<Errno>, left: nat, e: Errno)
    requires Serving(v, s, client, requests, replies, n, wanted) && n == left + 1 && Handled(s, client(replies), e, t)
    requires requests' == requests + [client(replies)] && replies' == replies + [e]
    ensures Serving(v, t, client, requests', replies', left, wanted)
  {
    var r, i := client(replies), |requests|;
    assert requests'[..i] == requests && replies'[..i] == replies;
    forall j | 0 <= j < i
      ensures replies'[..j] == replies[..j]
    {
    }
    if Fits(s.View()) { FlatStepFits(s, r); }
  }

  lemma ServeBegins(s: State, client: Client, n: nat, wanted: State -> bool)
    requires Admitted(s, client, [], n, wanted)
    ensures Serving(s.View(), s, client, [], [], n, wanted)
  {
  }

  lemma AdmittedNow(v: View, s: State, client: Client, requests: seq<Request>, replies: seq<Errno>, n: nat,
                    wanted: State -> bool)
    requires Serving(v, s, client, requests, replies, n, wanted) && n > 0
    ensures Admissible(s, client(replies))
  {
  }

  /** What the requests and replies of a run have to do with the client. */
  ghost predicate Answered(client: Client, requests: seq<Request>, replies: seq<Errno>) {
    |requests| == |replies| && forall i :: 0 <= i < |requests| ==> requests[i] == client(replies[..i])
  }

  lemma ServeEnds(v: View, s: State, client: Client, requests: seq<Request>, replies: seq<Errno>, n: nat,
                  wanted: State -> bool)
    requires Serving(v, s, client, requests, replies, n, wanted)
    ensures n == 0 ==> wanted(s)
    ensures Answered(client, requests, replies) && s.View() == Replay(v, requests, replies)
    ensures Fits(v) ==> Fits(s.View())
  {
  }

  /** The states a mount goes through. Each reply is right in the state before it, and each state shows
      the flat file system with the successful requests replayed so far. */
  ghost predicate Traced(fs: Fs.UnionFs, faults: nat -> Fs.Faults, states: seq<State>, requests: seq<Request>,
                         replies: seq<Errno>)
  {
    && |states| == |requests| + 1 && |replies| == |requests|
    && (forall i :: 0 <= i < |requests| ==> TracedAt(fs, faults, states, requests, replies, i))
    && (forall i :: 0 <= i < |states| ==> ShowsReplay(states, requests, replies, i))
  }

  ghost predicate TracedAt(fs: Fs.UnionFs, faults: nat -> Fs.Faults, states: seq<State>, requests: seq<Request>,
                           replies: seq<Errno>, i: nat)
    requires i < |requests| == |replies| && |states| == |requests| + 1
  {
    && Handled(states[i], requests[i], replies[i], states[i + 1])
    && Replies(fs, states[i], requests[i], faults(i), replies[i])
  }

  predicate ShowsReplay(states: seq<State>, requests: seq<Request>, replies: seq<Errno>, i: nat)
    requires i < |states| && |states| == |requests| + 1 && |replies| == |requests|
  {
    states[i].View() == Replay(states[0].View(), requests[..i], replies[..i])
  }

  /** Every reply is right: where no call fails, and a file to copy can be read, it is a success exactly
      for an acceptable request. */
  ghost predicate RightlyAnswered(store: BlockStore, paths: PathMap, writable: bool, faults: nat -> Fs.Faults,
                                  states: seq<State>, requests: seq<Request>, replies: seq<Errno>)
  {
    && |states| == |requests| + 1 && |replies| == |requests|
    && (forall i :: 0 <= i < |requests| ==>
          RightAt(store, paths, writable, faults(i), states[i], requests[i], replies[i], states[i + 1]))
    && (forall i :: 0 <= i < |states| ==> ShowsReplay(states, requests, replies, i))
  }

  ghost predicate RightAt(store: BlockStore, paths: PathMap, writable: bool, faults: Fs.Faults, s: State, r: Request,
                          e: Errno, t: State)
  {
    && Handled(s, r, e, t) && Told(s, writable, r, e)
    && (faults == {} && Readable(store, paths, r) ==> (e == Fs.OK <==> Acceptable(s, writable, r)))
  }

  lemma TracedIsRight(fs: Fs.UnionFs, faults: nat -> Fs.Faults, states: seq<State>, requests: seq<Request>,
                      replies: seq<Errno>)
    requires Traced(fs, faults, states, requests, replies)
    ensures RightlyAnswered(fs.tree.store, fs.paths, fs.writable, faults, states, requests, replies)
  {
    forall i | 0 <= i < |requests|
      ensures RightAt(fs.tree.store, fs.paths, fs.writable, faults(i), states[i], requests[i], replies[i],
                      states[i + 1])
    {
      assert TracedAt(fs, faults, states, requests, replies, i);
    }
  }

  lemma RightWithSameFaults(store: BlockStore, paths: PathMap, writable: bool, faults: nat -> Fs.Faults,
                            others: nat -> Fs.Faults, states: seq<State>, requests: seq<Request>, replies: seq<Errno>)
    requires RightlyAnswered(store, paths, writable, faults, states, requests, replies)
    requires forall i: nat :: others(i) == faults(i)
    ensures RightlyAnswered(store, paths, writable, others, states, requests, replies)
  {
  }

  lemma TraceOneMore(fs: Fs.UnionFs, faults: nat -> Fs.Faults, states: seq<State>, requests: seq<Request>,
                     replies: seq<Errno>, r: Request, e: Errno, t: State)
    requires Traced(fs, faults, states, requests, replies)
    requires var n := |requests|; Handled(states[n], r, e, t) && Replies(fs, states[n], r, faults(n), e)
    ensures Traced(fs, faults, states + [t], requests + [r], replies + [e])
  {
    var n := |requests|;
    var states', requests', replies' := states + [t], requests + [r], replies + [e];
    forall i | 0 <= i < |requests'|
      ensures TracedAt(fs, faults, states', requests', replies', i)
    {
      if i < n { assert TracedAt(fs, faults, states, requests, replies, i); }
    }
    forall i | 0 <= i < |states'|
      ensures ShowsReplay(states', requests', replies', i)
    {
      if i <= n {
        assert ShowsReplay(states, requests, replies, i);
        assert requests'[..i] == requests[..i] && replies'[..i] == replies[..i];
      } else {
        assert ShowsReplay(states, requests, replies, n);
        assert requests[..n] == requests && replies[..n] == replies;
        assert requests'[..i] == requests' && replies'[..i] == replies';
        assert requests'[..n] == requests && replies'[..n] == replies;
      }
    }
  }

  /** One request after those served so far. */
  method ServeOne(fs: Fs.UnionFs, client: Client, faults: nat -> Fs.Faults, requests: seq<Request>,
                  replies: seq<Errno>, ghost states: seq<State>, ghost v: View, ghost s: State, ghost n: nat,
                  ghost wanted: State -> bool)
    returns (requests': seq<Request>, replies': seq<Errno>, ghost t: State, ghost left: nat)
    requires fs.Valid() && MarkersClose(faults(|requests|)) && n > 0 && s == fs.S()
    requires Serving(v, s, client, requests, replies, n, wanted)
    requires Traced(fs, faults, states, requests, replies) && states[|requests|] == s
    modifies fs`upper
    ensures fs.Valid() && t == fs.S() && left == n - 1 && |requests'| == |requests| + 1
    ensures Serving(v, t, client, requests', replies', left, wanted)
    ensures Traced(fs, faults, states + [t], requests', replies')
  {
    var r := client(replies);
    AdmittedNow(v, s, client, requests, replies, n, wanted);
    var e := Handle(fs, r, faults(|requests|), {});
    OutcomeIsServed(s, r, faults(|requests|), e, fs.S());
    t, left := fs.S(), n - 1;
    requests', replies' := requests + [r], replies + [e];
    ServeStep(v, s, t, client, requests, replies, n, wanted, requests', replies', left, e);
    TraceOneMore(fs, faults, states, requests, replies, r, e, t);
  }

  /** Serves the client's requests one after the other. Whatever calls fail, the mount shows the
      flat file system with the successful requests replayed on it; and each reply is the right one in
      the state the request meets. */
  method Serve(fs: Fs.UnionFs, client: Client, faults: nat -> Fs.Faults, n: nat, ghost wanted: State -> bool)
    returns (requests: seq<Request>, replies: seq<Errno>, ghost states: seq<State>)
    requires fs.Valid() && Admitted(fs.S(), client, [], n, wanted) && forall i :: MarkersClose(faults(i))
    modifies fs`upper
    ensures fs.Valid() && |requests| == |replies| == n && Answered(client, requests, replies)
    ensures fs.View() == Replay(old(fs.View()), requests, replies) && wanted(fs.S())
    ensures Traced(fs, faults, states, requests, replies) && states[0] == old(fs.S()) && states[n] == fs.S()
    ensures RightlyAnswered(fs.tree.store, fs.paths, fs.writable, faults, states, requests, replies)
    ensures Fits(old(fs.View())) ==> Fits(fs.View())
  {
    requests, replies := [], [];
    ghost var v, s, left := fs.View(), fs.S(), n;
    states := [s];
    ServeBegins(s, client, left, wanted);
    assert ShowsReplay(states, requests, replies, 0);
    for i := 0 to n
      invariant fs.Valid() && s == fs.S() && left == n - i && |requests| == i
      invariant Serving(v, s, client, requests, replies, left, wanted)
      invariant Traced(fs, faults, states, requests, replies) && states[0] == old(fs.S()) && states[i] == s
    {
      ghost var before := states;
      requests, replies, s, left := ServeOne(fs, client, faults, requests, replies, states, v, s, left, wanted);
      states := before + [s];
    }
    ServeEnds(v, s, client, requests, replies, left, wanted);
    TracedIsRight(fs, faults, states, requests, replies);
  }

  // ---------------------------------------------------------------- what a client can count on

  /** What a plain file system asks of a request: to make something, a proper name; to unlink, a file;
      to remove a directory, that it is empty; to rename, a source that is not moved below itself, and
      at the destination nothing, or a file for a file, or an empty directory for a directory. */
  ghost predicate FlatAccepts(v: View, r: Request) {
    match r
    case Create(_, name, _) => Proper(name)
    case Mkdir(_, name) => Proper(name)
    case Symlink(_, _, name) => Proper(name)
    case Unlink(parent, name) => parent + [name] in v && v[parent + [name]] != Dir
    case Rmdir(parent, name) => DirIn(v, parent + [name]) && FlatEmpty(v, parent + [name])
    case Rename(parent, name, newParent, newName) =>
      var src, dst := parent + [name], newParent + [newName];
      if src == dst then Proper(name) && Proper(newName)
      else
        && src in v && Proper(newName) && !(v[src] == Dir && src <= dst)
        && (dst in v ==> (v[dst] == Dir <==> v[src] == Dir) && (v[dst] == Dir ==> FlatEmpty(v, dst)))
    case OpenForWrite(path) => path in v
    case Write(path, _, _) => path in v && v[path].File?
  }

  ghost predicate FlatEmpty(v: View, p: Path) {
    forall n :: Plain(n) ==> p + [n] !in v
  }

  /** Where the mount asks for something else than a plain file system does: a directory that lower
      entries lie below cannot be removed, and a directory can be renamed only if the upper directory has
      it, and over nothing else than the lower tree's directories. */
  ghost predicate Particular(s: State, r: Request) {
    match r
    case Rmdir(parent, name) => !s.NoLowerKids(parent + [name])
    case Rename(parent, name, newParent, newName) =>
      var src, dst := parent + [name], newParent + [newName];
      src != dst && (s.IsDir(src) || s.IsDir(dst))
    case _ => false
  }

  lemma NotBelowFile(s: State, p: Path, q: Path)
    requires s.Inv() && PlainPath(q) && s.Lookup(q).Some? && p < q
    ensures s.IsDir(p)
  {
    PlainParent(q);
    ParentIsVisibleDir(s, q);
    PrefixIsDir(s, Parent(q), |p|);
    assert Parent(q)[..|p|] == p;
  }

  /** But for that, a mount accepts what a plain file system with the same content accepts. */
  lemma AcceptsAsFlat(s: State, r: Request)
    requires s.Inv() && Sent(s, r)
    ensures !Particular(s, r) ==> (Acceptable(s, true, r) <==> FlatAccepts(s.View(), r))
    ensures r.Rmdir? ==> (Acceptable(s, true, r) <==> FlatAccepts(s.View(), r) && !Particular(s, r))
  {
    match r
    case Create(_, _, _) =>
    case Mkdir(_, _) =>
    case Symlink(_, _, _) =>
    case Unlink(parent, name) => FoundAsFlat(s, parent, name);
    case Rmdir(parent, name) =>
      FoundAsFlat(s, parent, name);
      if s.IsDir(parent + [name]) { EmptyAsFlat(s, parent + [name]); }
    case Rename(parent, name, newParent, newName) =>
      if parent + [name] != newParent + [newName] && !Particular(s, r) { RenameAsFlat(s, r); }
    case OpenForWrite(path) => ViewAt(s, path);
    case Write(path, _, _) =>
      ViewAt(s, path);
      Fs.UpperIsShown(s, path);
  }

  /** What a mount asks of the renames of directories, and over directories. */
  lemma RenameOfDirsExactly(s: State, r: Request)
    requires s.Inv() && Sent(s, r) && r.Rename? && r.parent + [r.name] != r.newParent + [r.newName]
    ensures var src, dst := r.parent + [r.name], r.newParent + [r.newName];
            && (s.IsDir(src) ==>
                  (Acceptable(s, true, r) <==>
                   Proper(r.newName) && src in s.upper && dst !in s.upper && !(src <= dst) && !(dst <= src)))
            && (!s.IsDir(src) && s.IsDir(dst) ==>
                  (Acceptable(s, true, r) <==> s.Lookup(src).Some? && dst !in s.upper && !(dst <= src)))
  {
    var src, dst := r.parent + [r.name], r.newParent + [r.newName];
    FoundAsFlat(s, r.parent, r.name);
    FoundAsFlat(s, r.newParent, r.newName);
    if s.Lookup(src).Some? && src in s.upper { Fs.UpperIsShown(s, src); }
    if s.Lookup(dst).Some? && dst in s.upper { Fs.UpperIsShown(s, dst); }
  }

  lemma FoundAsFlat(s: State, parent: Path, name: Name)
    requires s.Inv() && PlainPath(parent) && !IsMarkerName(name)
    ensures parent + [name] in s.View() <==> s.Lookup(parent + [name]).Some?
    ensures parent + [name] in s.View() ==> s.Lookup(parent + [name]) == Some(s.View()[parent + [name]])
    ensures s.Lookup(parent + [name]).Some? ==> Proper(name) && PlainPath(parent + [name])
  {
    if s.Lookup(parent + [name]).Some? {
      FoundIsProper(s, parent, name);
      PlainChild(parent, name);
      ViewAt(s, parent + [name]);
    }
  }

  lemma EmptyAsFlat(s: State, p: Path)
    requires s.Inv() && PlainPath(p)
    ensures LooksEmpty(s, p) <==> FlatEmpty(s.View(), p)
  {
    forall n | Plain(n)
      ensures p + [n] in s.View() <==> s.Lookup(p + [n]).Some?
    {
      PlainChild(p, n);
      ViewAt(s, p + [n]);
    }
  }

  lemma RenameAsFlat(s: State, r: Request)
    requires s.Inv() && Sent(s, r) && r.Rename? && r.parent + [r.name] != r.newParent + [r.newName]
    requires !s.IsDir(r.parent + [r.name]) && !s.IsDir(r.newParent + [r.newName])
    ensures Acceptable(s, true, r) <==> FlatAccepts(s.View(), r)
  {
    var src, dst := r.parent + [r.name], r.newParent + [r.newName];
    FoundAsFlat(s, r.parent, r.name);
    FoundAsFlat(s, r.newParent, r.newName);
    if s.Lookup(src).Some? {
      if src in s.upper { Fs.UpperIsShown(s, src); }
      if Proper(r.newName) {
        PlainChild(r.newParent, r.newName);
        if dst in s.upper { Fs.UpperIsShown(s, dst); }
      }
      if dst <= src { NotBelowFile(s, dst, src); }
    }
  }

  lemma MadeWithoutFaults(fs: Fs.UnionFs, s: State, name: Name, perm: nat, data: Bytes, e: Errno)
    requires fs.writable && Plain(name)
    ensures Replies(fs, s, Create([], name, perm), {}, e) ==> e == Fs.OK
    ensures Replies(fs, s, Write([name], perm, data), {}, e) ==> e == Fs.OK
  {
  }

  lemma TraceOfTwo(fs: Fs.UnionFs, faults: nat -> Fs.Faults, states: seq<State>, requests: seq<Request>,
                   replies: seq<Errno>)
    requires Traced(fs, faults, states, requests, replies) && |requests| == 2 && faults(0) == faults(1) == {}
    ensures Replies(fs, states[0], requests[0], {}, replies[0]) && Replies(fs, states[1], requests[1], {}, replies[1])
    ensures replies == [Fs.OK, Fs.OK] ==>
              states[2].View() == FlatStep(FlatStep(states[0].View(), requests[0]), requests[1])
  {
    assert TracedAt(fs, faults, states, requests, replies, 0) && TracedAt(fs, faults, states, requests, replies, 1);
  }

  lemma FlatCreateThenWrite(v: View, name: Name, perm: nat, data: Bytes)
    ensures FlatStep(FlatStep(v, Create([], name, perm)), Write([name], perm, data)) == v[[name] := File(data)]
  {
    assert [] + [name] == [name];
  }

  lemma AskedOfTwo(name: Name, perm: nat, data: Bytes, requests: seq<Request>, replies: seq<Errno>)
    requires Answered(CreateThenWrite(name, perm, data), requests, replies) && |requests| == 2
    ensures requests[0] == Create([], name, perm)
    ensures replies[0] == Fs.OK ==> requests[1] == Write([name], perm, data)
  {
    assert replies[..0] == [] && replies[..1] == [replies[0]];
  }

  /** Where no call fails, a client that creates a file and writes to it succeeds, and the file is there. */
  lemma CreateThenWriteWorks(fs: Fs.UnionFs, faults: nat -> Fs.Faults, states: seq<State>, requests: seq<Request>,
                             replies: seq<Errno>, name: Name, perm: nat, data: Bytes)
    requires fs.writable && Plain(name) && Traced(fs, faults, states, requests, replies) && |requests| == 2
    requires Answered(CreateThenWrite(name, perm, data), requests, replies) && faults(0) == faults(1) == {}
    ensures replies == [Fs.OK, Fs.OK] && states[2].View() == states[0].View()[[name] := File(data)]
  {
    TraceOfTwo(fs, faults, states, requests, replies);
    AskedOfTwo(name, perm, data, requests, replies);
    MadeWithoutFaults(fs, states[0], name, perm, data, replies[0]);
    MadeWithoutFaults(fs, states[1], name, perm, data, replies[1]);
    FlatCreateThenWrite(states[0].View(), name, perm, data);
  }
}
