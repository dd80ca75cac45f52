/** The state of a writable mount, the view it presents, and the invariant that makes
    the view a file system although `stat` consults only the last component's marker. */
module UnionState {
  import opened Wrappers
  import opened Paths
  import opened Entries

  type View = map<Path, Node>

  /** An immutable lower tree, and the upper directory as it lies on disk, markers included. */
  datatype State = State(lower: map<Path, LowerEntry>, upper: map<Path, UpperEntry>) {

    /** A marker file for p is present. */
    predicate Hidden(p: Path) {
      p != [] && Marker(p) in upper
    }

    /** What `stat` answers: the marker of the last component, then upper, then lower. */
    function Lookup(p: Path): Option<Node> {
      if Hidden(p) then None
      else if p in upper then Some(SeeUpper(upper[p]))
      else if p in lower then Some(SeeLower(lower[p]))
      else None
    }

    function View(): View {
      map p | p in upper.Keys + lower.Keys && PlainPath(p) && Lookup(p).Some? :: Lookup(p).value
    }

    predicate IsDir(p: Path) {
      Lookup(p) == Some(Dir)
    }

    /** What a walk from the root through visible directories finds, as the kernel resolves a path. */
    function Walk(p: Path): Option<Node> {
      if p == [] then Lookup([])
      else if Walk(Parent(p)) == Some(Dir) then Lookup(p)
      else None
    }

    predicate LowerOk() {
      && [] in lower && lower[[]].LDir?
      && (forall p :: p in lower ==> PlainPath(p))
      && (forall p {:trigger Parent(p)} :: p in lower && p != [] ==> Parent(p) in lower && lower[Parent(p)].LDir?)
    }

    /** The upper directory is a directory tree of plain names and marker names. */
    predicate UpperOk() {
      && [] in upper && upper[[]].UDir?
      && (forall p {:trigger Parent(p)} :: p in upper && p != [] ==>
            && Parent(p) in upper && upper[Parent(p)].UDir? && PlainPath(Parent(p))
            && (Plain(Base(p)) || IsMarkerName(Base(p))))
    }

    /** A marker is no directory, hides a lower entry, and nothing in the upper stands beside it. */
    predicate MarkersOk() {
      forall m {:trigger IsMarker(m)} :: m in upper && IsMarker(m) ==>
        !upper[m].UDir? && Target(m) in lower && Target(m) !in upper
    }

    /** A lower entry's parent is neither hidden nor covered by an upper non-directory. */
    predicate KidsOk() {
      forall q {:trigger Parent(q)} :: q in lower && q != [] ==>
        !Hidden(Parent(q)) && (Parent(q) in upper ==> upper[Parent(q)].UDir?)
    }

    predicate Inv() {
      LowerOk() && UpperOk() && MarkersOk() && KidsOk()
    }

    predicate NoLowerKids(p: Path) {
      forall q {:trigger Parent(q)} :: q in lower && q != [] ==> Parent(q) != p
    }

    predicate NoUpperKids(p: Path) {
      forall q {:trigger Parent(q)} :: q in upper && q != [] ==> Parent(q) != p
    }

    function With(u: map<Path, UpperEntry>): State {
      this.(upper := u)
    }
  }

  /** What the lower tree has at q, whatever lies over it. */
  function LowerOnly(s: State, q: Path): Option<Node> {
    if q in s.lower then Some(SeeLower(s.lower[q])) else None
  }

  /** A fresh upper directory over any well-formed lower tree is a good state. */
  lemma EmptyUpperIsOk(s: State)
    requires s.LowerOk() && s.upper == map[[] := UDir]
    ensures s.Inv()
    ensures s.View() == map p | p in s.lower :: SeeLower(s.lower[p])
  {
    forall p | p != []
      ensures Marker(p) != []
    {
    }
  }

  // ---------------------------------------------------------------- what the invariant gives

  lemma HiddenIsLowerOnly(s: State, p: Path)
    requires s.Inv() && PlainPath(p) && s.Hidden(p)
    ensures p in s.lower && p !in s.upper
  {
    TargetOfMarker(p);
  }

  lemma {:induction false} NothingLowerBelow(s: State, p: Path, q: Path)
    requires s.LowerOk() && s.NoLowerKids(p) && Below(p, q)
    ensures q !in s.lower
    decreases |q|
  {
    if q in s.lower {
      BelowParent(p, q);
      if Parent(q) != p {
        NothingLowerBelow(s, p, Parent(q));
      }
    }
  }

  lemma {:induction false} NothingUpperBelow(s: State, p: Path, q: Path)
    requires s.UpperOk() && Below(p, q)
    requires p !in s.upper || !s.upper[p].UDir? || s.NoUpperKids(p)
    ensures q !in s.upper
    decreases |q|
  {
    if q in s.upper {
      BelowParent(p, q);
      if Parent(q) != p {
        NothingUpperBelow(s, p, Parent(q));
      }
    }
  }

  /** Above an upper entry the upper has directories all the way. */
  lemma {:induction false} UpperAncestors(s: State, p: Path, q: Path)
    requires s.UpperOk() && p <= q && q in s.upper
    ensures p in s.upper && (p != q ==> s.upper[p].UDir?)
    decreases |q|
  {
    if p != q {
      BelowParent(p, q);
      UpperAncestors(s, p, Parent(q));
    }
  }

  /** Where nothing is visible, the upper has nothing and no lower entry lies below. */
  lemma InvisibleIsFree(s: State, p: Path)
    requires s.Inv() && PlainPath(p) && s.Lookup(p).None?
    ensures p != [] && p !in s.upper && s.NoLowerKids(p)
    ensures p in s.lower <==> s.Hidden(p)
  {
    if s.Hidden(p) { HiddenIsLowerOnly(s, p); }
  }

  /** A path that `stat` finds has only visible directories above it. */
  lemma ParentIsVisibleDir(s: State, p: Path)
    requires s.Inv() && PlainPath(p) && p != [] && s.Lookup(p).Some?
    ensures s.IsDir(Parent(p))
  {
    PlainParent(p);
    if p in s.upper && s.Hidden(Parent(p)) {
      HiddenIsLowerOnly(s, Parent(p));
    }
  }

  /** Checking the last component's marker alone agrees with walking the path from the root. */
  lemma {:induction false} StatIsWalk(s: State, p: Path)
    requires s.Inv() && PlainPath(p)
    ensures s.Walk(p) == s.Lookup(p)
    decreases |p|
  {
    if p != [] {
      PlainParent(p);
      StatIsWalk(s, Parent(p));
      if s.Lookup(p).Some? {
        ParentIsVisibleDir(s, p);
      }
    }
  }

  lemma ViewAt(s: State, p: Path)
    requires PlainPath(p)
    ensures p in s.View() <==> s.Lookup(p).Some?
    ensures p in s.View() ==> s.Lookup(p) == Some(s.View()[p])
  {
  }

  /** A map that agrees with `stat` at every plain path is the view. */
  lemma ViewIs(s: State, v: View)
    requires forall p :: p in v ==> PlainPath(p)
    requires forall p {:trigger s.Lookup(p)} :: PlainPath(p) ==> s.Lookup(p) == if p in v then Some(v[p]) else None
    ensures s.View() == v
  {
    forall p
      ensures p in s.View() <==> p in v
      ensures p in v ==> s.View()[p] == v[p]
    {
      if PlainPath(p) { ViewAt(s, p); }
    }
  }

  // ---------------------------------------------------------------- one upper entry at a time

  /** Whether a path is hidden depends on its own marker only. */
  lemma HiddenIsOwnMarker(s: State, t: State, p: Path)
    requires PlainPath(p) && p != []
    requires t.upper.Keys == s.upper.Keys + {p} || t.upper.Keys == s.upper.Keys - {p}
    ensures forall q {:trigger t.Hidden(q)} :: PlainPath(q) ==> t.Hidden(q) == s.Hidden(q)
  {
    forall q | PlainPath(q) && q != []
      ensures Marker(q) != p
    {
      TargetOfMarker(q);
      PlainIsNotMarker(p);
    }
  }

  lemma HiddenElsewhere(s: State, t: State, p: Path)
    requires p != []
    requires t.upper.Keys == s.upper.Keys + {Marker(p)} || t.upper.Keys == s.upper.Keys - {Marker(p)}
    ensures forall q {:trigger t.Hidden(q)} :: q != p ==> t.Hidden(q) == s.Hidden(q)
  {
    forall q | q != [] && q != p
      ensures Marker(q) != Marker(p)
    {
      MarkersDiffer(p, q);
    }
  }

  lemma PutEntryKeepsInv(s: State, p: Path, e: UpperEntry)
    requires s.Inv() && PlainPath(p) && p != []
    requires Parent(p) in s.upper && s.upper[Parent(p)].UDir? && !s.Hidden(p)
    requires e.UDir? || s.NoLowerKids(p)
    requires p in s.upper && s.upper[p].UDir? ==> e.UDir?
    ensures s.With(s.upper[p := e]).Inv()
  {
    var t := s.With(s.upper[p := e]);
    PlainParent(p);
    HiddenIsOwnMarker(s, t, p);
    forall q {:trigger Parent(q)} | q in t.upper && q != []
      ensures Parent(q) in t.upper && t.upper[Parent(q)].UDir? && PlainPath(Parent(q))
      ensures Plain(Base(q)) || IsMarkerName(Base(q))
    {
      assert q == p || q in s.upper;
    }
    forall m {:trigger IsMarker(m)} | m in t.upper && IsMarker(m)
      ensures !t.upper[m].UDir? && Target(m) in t.lower && Target(m) !in t.upper
    {
      MarkerOfTarget(m);
      PlainIsNotMarker(p);
    }
    forall q {:trigger Parent(q)} | q in t.lower && q != []
      ensures !t.Hidden(Parent(q)) && (Parent(q) in t.upper ==> t.upper[Parent(q)].UDir?)
    {
      PlainParent(q);
    }
    assert t.LowerOk() && t.UpperOk() && t.MarkersOk() && t.KidsOk();
  }

  /** Writing one plain upper entry changes the view at that path and nowhere else. */
  lemma PutEntry(s: State, p: Path, e: UpperEntry)
    requires s.Inv() && PlainPath(p) && p != []
    requires Parent(p) in s.upper && s.upper[Parent(p)].UDir? && !s.Hidden(p)
    requires e.UDir? || s.NoLowerKids(p)
    requires p in s.upper && s.upper[p].UDir? ==> e.UDir?
    ensures s.With(s.upper[p := e]).Inv()
    ensures s.With(s.upper[p := e]).View() == s.View()[p := SeeUpper(e)]
  {
    var t := s.With(s.upper[p := e]);
    PutEntryKeepsInv(s, p, e);
    HiddenIsOwnMarker(s, t, p);
    ViewIs(t, s.View()[p := SeeUpper(e)]);
  }

  lemma DropMarkerKeepsInv(s: State, p: Path)
    requires s.Inv() && PlainPath(p) && s.Hidden(p)
    ensures s.With(s.upper - {Marker(p)}).Inv()
  {
    var t := s.With(s.upper - {Marker(p)});
    TargetOfMarker(p);
    HiddenElsewhere(s, t, p);
    forall q | q in t.upper && q != []
      ensures Parent(q) in t.upper && t.upper[Parent(q)].UDir?
    {
    }
    forall q | q in t.lower && q != []
      ensures !t.Hidden(Parent(q)) && (Parent(q) in t.upper ==> t.upper[Parent(q)].UDir?)
    {
    }
  }

  /** Removing a marker lets the lower entry show again. */
  lemma DropMarker(s: State, p: Path)
    requires s.Inv() && PlainPath(p) && s.Hidden(p)
    ensures p in s.lower && p !in s.upper && s.NoLowerKids(p)
    ensures s.With(s.upper - {Marker(p)}).Inv()
    ensures s.With(s.upper - {Marker(p)}).View() == s.View()[p := SeeLower(s.lower[p])]
  {
    var t := s.With(s.upper - {Marker(p)});
    HiddenIsLowerOnly(s, p);
    DropMarkerKeepsInv(s, p);
    HiddenElsewhere(s, t, p);
    TargetOfMarker(p);
    ViewIs(t, s.View()[p := SeeLower(s.lower[p])]);
  }

  lemma PutMarkerKeepsInv(s: State, p: Path, e: UpperEntry)
    requires s.Inv() && PlainPath(p) && p != [] && e.UFile?
    requires Parent(p) in s.upper && s.upper[Parent(p)].UDir?
    requires p in s.lower && p !in s.upper && s.NoLowerKids(p)
    ensures s.With(s.upper[Marker(p) := e]).Inv()
  {
    var t := s.With(s.upper[Marker(p) := e]);
    TargetOfMarker(p);
    PlainParent(p);
    HiddenElsewhere(s, t, p);
    forall q {:trigger Parent(q)} | q in t.upper && q != []
      ensures Parent(q) in t.upper && t.upper[Parent(q)].UDir? && PlainPath(Parent(q))
      ensures Plain(Base(q)) || IsMarkerName(Base(q))
    {
      assert q == Marker(p) || q in s.upper;
    }
    forall m {:trigger IsMarker(m)} | m in t.upper && IsMarker(m)
      ensures !t.upper[m].UDir? && Target(m) in t.lower && Target(m) !in t.upper
    {
      MarkerOfTarget(m);
      PlainIsNotMarker(Target(m));
    }
    forall q {:trigger Parent(q)} | q in t.lower && q != []
      ensures !t.Hidden(Parent(q)) && (Parent(q) in t.upper ==> t.upper[Parent(q)].UDir?)
    {
      PlainIsNotMarker(Parent(q));
    }
    assert t.LowerOk() && t.UpperOk() && t.MarkersOk() && t.KidsOk();
  }

  /** Adding a marker over a childless lower entry removes exactly that path from the view. */
  lemma PutMarker(s: State, p: Path, e: UpperEntry)
    requires s.Inv() && PlainPath(p) && p != [] && e.UFile?
    requires Parent(p) in s.upper && s.upper[Parent(p)].UDir?
    requires p in s.lower && p !in s.upper && s.NoLowerKids(p)
    ensures s.With(s.upper[Marker(p) := e]).Inv()
    ensures s.With(s.upper[Marker(p) := e]).View() == s.View() - {p}
  {
    var t := s.With(s.upper[Marker(p) := e]);
    PutMarkerKeepsInv(s, p, e);
    HiddenElsewhere(s, t, p);
    TargetOfMarker(p);
    ViewIs(t, s.View() - {p});
  }

  /** Removing a childless upper entry uncovers the lower entry, if there is one. */
  lemma DropEntry(s: State, p: Path)
    requires s.Inv() && PlainPath(p) && p != [] && p in s.upper && s.NoUpperKids(p)
    ensures !s.Hidden(p)
    ensures s.With(s.upper - {p}).Inv()
    ensures s.With(s.upper - {p}).View() ==
            if p in s.lower then s.View()[p := SeeLower(s.lower[p])] else s.View() - {p}
  {
    var t := s.With(s.upper - {p});
    TargetOfMarker(p);
    HiddenIsOwnMarker(s, t, p);
    forall m | m in t.upper && IsMarker(m)
      ensures !t.upper[m].UDir? && Target(m) in t.lower && Target(m) !in t.upper
    {
    }
    forall q | q in t.lower && q != []
      ensures !t.Hidden(Parent(q)) && (Parent(q) in t.upper ==> t.upper[Parent(q)].UDir?)
    {
    }
    ViewIs(t, if p in s.lower then s.View()[p := SeeLower(s.lower[p])] else s.View() - {p});
  }

  // ---------------------------------------------------------------- steps of an operation

  /** Clearing the marker of an invisible path, if it has one: only the lower entry shows again. */
  lemma ClearedForEntry(s: State, p: Path)
    requires s.Inv() && PlainPath(p) && p != [] && s.Lookup(p).None?
    ensures var c := s.With(s.upper - {Marker(p)});
            && c.Inv() && !c.Hidden(p) && p !in c.upper && c.NoLowerKids(p)
            && (Parent(p) in s.upper ==> Parent(p) in c.upper && c.upper[Parent(p)] == s.upper[Parent(p)])
            && c.View() - {p} == s.View()
            && (p in c.lower <==> s.Hidden(p))
            && (!s.Hidden(p) ==> c.View() == s.View())
  {
    InvisibleIsFree(s, p);
    ViewAt(s, p);
    PlainParent(p);
    PlainIsNotMarker(Parent(p));
    TargetOfMarker(p);
    if s.Hidden(p) {
      DropMarker(s, p);
    } else {
      assert s.upper - {Marker(p)} == s.upper;
    }
  }

  lemma PutForgets(v: View, p: Path, n: Node)
    ensures v[p := n] == (v - {p})[p := n]
  {
  }

  /** Clearing the marker and writing the entry: the path appears, nothing else changes. */
  lemma EntryMade(s: State, p: Path, e: UpperEntry)
    requires s.Inv() && PlainPath(p) && p != [] && s.Lookup(p).None?
    requires Parent(p) in s.upper && s.upper[Parent(p)].UDir?
    ensures s.With((s.upper - {Marker(p)})[p := e]).Inv()
    ensures s.With((s.upper - {Marker(p)})[p := e]).View() == s.View()[p := SeeUpper(e)]
  {
    ClearedForEntry(s, p);
    var c := s.With(s.upper - {Marker(p)});
    PutEntry(c, p, e);
    PutForgets(c.View(), p, SeeUpper(e));
  }

  /** Hiding a childless lower path again restores the view without it. */
  lemma MarkerRestored(w: State, p: Path, e: UpperEntry, v: View)
    requires w.Inv() && PlainPath(p) && p != [] && e.UFile?
    requires Parent(p) in w.upper && w.upper[Parent(p)].UDir?
    requires p in w.lower && p !in w.upper && w.NoLowerKids(p)
    requires w.View() - {p} == v
    ensures w.With(w.upper[Marker(p) := e]).Inv()
    ensures w.With(w.upper[Marker(p) := e]).View() == v
  {
    PutMarker(w, p, e);
  }

  /** No ordinary name is visible in the directory. */
  ghost predicate LooksEmpty(s: State, p: Path) {
    forall n :: Plain(n) ==> s.Lookup(p + [n]).None?
  }

  /** A directory that looks empty holds upper entries exactly when it covers lower ones: they
      are the markers of its lower children. */
  lemma EmptyLookingDir(s: State, p: Path)
    requires s.Inv() && PlainPath(p) && LooksEmpty(s, p)
    ensures s.NoUpperKids(p) <==> s.NoLowerKids(p)
  {
    if s.NoUpperKids(p) {
      forall q | q in s.lower && q != []
        ensures Parent(q) != p
      {
        TargetOfMarker(q);
        PlainParent(q);
        assert q == Parent(q) + [Base(q)];
        assert Marker(q) in s.upper ==> Parent(Marker(q)) != p;
      }
    }
    if s.NoLowerKids(p) {
      forall q | q in s.upper && q != []
        ensures Parent(q) != p
      {
        if Parent(q) == p {
          assert q == p + [Base(q)];
          if IsMarker(q) {
            MarkerOfTarget(q);
          } else {
            PlainChild(p, Base(q));
            InvisibleIsFree(s, q);
          }
        }
      }
    }
  }

  lemma NonDirHasNoKids(s: State, p: Path)
    requires s.Inv() && s.Lookup(p).Some? && !s.IsDir(p)
    ensures s.NoLowerKids(p)
    ensures s.UpperOk() ==> s.NoUpperKids(p)
  {
  }

  lemma PutElsewhereDrop(u: map<Path, UpperEntry>, m: Path, e: UpperEntry, p: Path)
    requires m != p
    ensures u[m := e] - {p} == (u - {p})[m := e]
  {
  }

  lemma PutAndDrop(v: View, p: Path, n: Node)
    ensures v[p := n] - {p} == v - {p}
  {
  }

  /** Setting the marker and removing the upper entry: the path disappears, nothing else changes. */
  lemma EntryReplacedByMarker(w: State, p: Path, e: UpperEntry)
    requires w.Inv() && PlainPath(p) && p != [] && e.UFile?
    requires p in w.upper && w.NoUpperKids(p) && p in w.lower && w.NoLowerKids(p)
    ensures w.With(w.upper[Marker(p) := e] - {p}).Inv()
    ensures w.With(w.upper[Marker(p) := e] - {p}).View() == w.View() - {p}
  {
    DropEntry(w, p);
    var d := w.With(w.upper - {p});
    TargetOfMarker(p);
    PlainIsNotMarker(p);
    assert Parent(p) in d.upper && d.upper[Parent(p)].UDir? && d.NoLowerKids(p);
    PutMarker(d, p, e);
    PutElsewhereDrop(w.upper, Marker(p), e, p);
    PutAndDrop(w.View(), p, SeeLower(w.lower[p]));
  }
}
