/** The two upper-directory steps that touch more than one path: creating missing
    ancestors, and moving a whole subtree. */
module UnionMoves {
  import opened Wrappers
  import opened Paths
  import opened Entries
  import opened UnionState

  // ---------------------------------------------------------------- missing ancestors

  /** The upper directory once the first k ancestors of p have been created where missing. */
  function WithDirs(u: map<Path, UpperEntry>, p: Path, k: nat): map<Path, UpperEntry>
    requires k <= |p|
  {
    if k == 0 then u
    else
      var w := WithDirs(u, p, k - 1);
      if p[..k] in w then w else w[p[..k] := UDir]
  }

  lemma {:induction false} WithDirsAdds(u: map<Path, UpperEntry>, p: Path, k: nat)
    requires k <= |p|
    ensures forall q :: q in WithDirs(u, p, k) <==> q in u || (q <= p && 0 < |q| <= k)
    ensures forall q :: q in u ==> WithDirs(u, p, k)[q] == u[q]
    ensures forall q :: q in WithDirs(u, p, k) && q !in u ==> WithDirs(u, p, k)[q] == UDir
  {
    if k > 0 {
      WithDirsAdds(u, p, k - 1);
      assert forall q :: q <= p && |q| == k ==> q == p[..k];
    }
  }

  /** Every directory above a visible path is visible. */
  lemma {:induction false} PrefixIsDir(s: State, p: Path, k: nat)
    requires s.Inv() && PlainPath(p) && s.IsDir(p) && k <= |p|
    ensures PlainPath(p[..k]) && s.IsDir(p[..k])
    decreases |p|
  {
    if k < |p| {
      ParentIsVisibleDir(s, p);
      PlainParent(p);
      PrefixIsDir(s, Parent(p), k);
      assert Parent(p)[..k] == p[..k];
    } else {
      assert p[..k] == p;
    }
  }

  lemma DirAdded(t: State, q: Path)
    requires t.Inv() && PlainPath(q) && q != [] && t.IsDir(q) && q !in t.upper
    requires Parent(q) in t.upper && t.upper[Parent(q)].UDir?
    ensures t.With(t.upper[q := UDir]).Inv()
    ensures t.With(t.upper[q := UDir]).View() == t.View()
  {
    ViewAt(t, q);
    PutEntry(t, q, UDir);
    assert t.View()[q := Dir] == t.View();
  }

  /** Creating the missing ancestors of a visible directory, wherever it stops, cannot be seen. */
  lemma {:induction false} WithDirsIsInvisible(s: State, p: Path, k: nat)
    requires s.Inv() && PlainPath(p) && s.IsDir(p) && k <= |p|
    ensures s.With(WithDirs(s.upper, p, k)).Inv()
    ensures s.With(WithDirs(s.upper, p, k)).View() == s.View()
    ensures p[..k] in WithDirs(s.upper, p, k) && WithDirs(s.upper, p, k)[p[..k]].UDir?
  {
    PrefixIsDir(s, p, k);
    if k > 0 {
      WithDirsIsInvisible(s, p, k - 1);
      var t, q := s.With(WithDirs(s.upper, p, k - 1)), p[..k];
      assert Parent(q) == p[..k - 1];
      ViewAt(s, q);
      ViewAt(t, q);
      if q !in t.upper {
        DirAdded(t, q);
      }
    }
  }

  /** Above an upper entry no directory is missing. */
  lemma {:induction false} NoneMissing(s: State, p: Path, k: nat)
    requires s.UpperOk() && p in s.upper && k <= |p|
    ensures p[..k] in s.upper
    ensures WithDirs(s.upper, p, k) == s.upper
    decreases |p|, k
  {
    if k == |p| {
      assert p[..k] == p;
    } else {
      NoneMissing(s, Parent(p), k);
      assert Parent(p)[..k] == p[..k];
    }
    if k > 0 {
      NoneMissing(s, p, k - 1);
    }
  }

  // ---------------------------------------------------------------- moving a subtree

  /** Everything at or below src re-appears under dst, replacing what was there. */
  function MoveSubtree<V>(m: map<Path, V>, src: Path, dst: Path): map<Path, V> {
    map k | k in m.Keys + (set p | p in m.Keys && src <= p :: dst + p[|src|..]) &&
            (if dst <= k then src + k[|dst|..] in m else k in m && !(src <= k))
          :: if dst <= k then m[src + k[|dst|..]] else m[k]
  }

  lemma MoveSubtreeAt<V>(m: map<Path, V>, src: Path, dst: Path, k: Path)
    ensures k in MoveSubtree(m, src, dst) <==>
            if dst <= k then src + k[|dst|..] in m else k in m && !(src <= k)
    ensures k in MoveSubtree(m, src, dst) ==>
              MoveSubtree(m, src, dst)[k] == if dst <= k then m[src + k[|dst|..]] else m[k]
  {
    if dst <= k {
      var p := src + k[|dst|..];
      assert p[|src|..] == k[|dst|..] && dst + p[|src|..] == k;
    }
  }

  /** The upper directory after a rename: source marker set when a lower entry remains,
      destination marker cleared, then the subtree moved. */
  function RenamedUpper(s: State, src: Path, dst: Path, e: UpperEntry): map<Path, UpperEntry>
    requires src != [] && dst != []
  {
    var marked := if src in s.lower then s.upper[Marker(src) := e] else s.upper;
    MoveSubtree(marked - {Marker(dst)}, src, dst)
  }

  /** What `Rename` needs of its two ends besides what the upper file system checks itself. */
  predicate CanMove(s: State, src: Path, dst: Path) {
    && PlainPath(src) && PlainPath(dst) && src != [] && dst != [] && src != dst
    && src in s.upper
    && Parent(dst) in s.upper && s.upper[Parent(dst)].UDir?
    && !(src <= dst)
    && (dst in s.upper ==> !s.upper[dst].UDir?)
  }

  lemma MovesApart(s: State, src: Path, dst: Path)
    requires s.Inv() && CanMove(s, src, dst)
    ensures !(dst <= src)
    ensures forall q {:trigger q in s.upper} :: Below(dst, q) ==> q !in s.upper
  {
    forall q | Below(dst, q)
      ensures q !in s.upper
    {
      NothingUpperBelow(s, dst, q);
    }
  }

  /** Which entries the upper directory holds after a rename, path by path. */
  lemma RenamedAt(s: State, src: Path, dst: Path, e: UpperEntry, k: Path)
    requires s.Inv() && CanMove(s, src, dst)
    ensures var u := RenamedUpper(s, src, dst, e);
            && (dst <= k ==> (k in u <==> src + k[|dst|..] in s.upper))
            && (dst <= k && k in u ==> u[k] == s.upper[src + k[|dst|..]])
            && (src <= k ==> k !in u)
            && (!(dst <= k) && !(src <= k) ==>
                  && (k in u <==> (k == Marker(src) && src in s.lower) || (k in s.upper && k != Marker(dst)))
                  && (k in u ==> u[k] == if k == Marker(src) then e else s.upper[k]))
  {
    MovesApart(s, src, dst);
    TargetOfMarker(src);
    TargetOfMarker(dst);
    var marked := if src in s.lower then s.upper[Marker(src) := e] else s.upper;
    MoveSubtreeAt(marked - {Marker(dst)}, src, dst, k);
    PlainParent(src);
    PlainParent(dst);
    MarkersDiffer(src, dst);
    MarkerBelow(src, src);
    MarkerBelow(src, dst);
  }

  function Renamed(s: State, src: Path, dst: Path, e: UpperEntry): State
    requires src != [] && dst != []
  {
    s.With(RenamedUpper(s, src, dst, e))
  }

  /** A moved path's marker is the marker of the moved path. */
  lemma MarkerUnder(a: Path, b: Path, q: Path)
    requires Below(a, q)
    ensures a <= Marker(q) && b + q[|a|..] != []
    ensures b + Marker(q)[|a|..] == Marker(b + q[|a|..])
  {
    BelowParent(a, q);
    var r := b + q[|a|..];
    assert Parent(r) == b + Parent(q)[|a|..];
    assert Base(r) == Base(q);
  }

  lemma HiddenAfterRename(s: State, src: Path, dst: Path, e: UpperEntry, q: Path)
    requires s.Inv() && CanMove(s, src, dst) && PlainPath(q)
    ensures var t := Renamed(s, src, dst, e);
            t.Hidden(q) ==
            if q == src then src in s.lower
            else if q == dst || Below(src, q) then false
            else if Below(dst, q) then s.Hidden(src + q[|dst|..])
            else s.Hidden(q)
  {
    MovesApart(s, src, dst);
    if q != [] {
      var m := Marker(q);
      RenamedAt(s, src, dst, e, m);
      MarkerBelow(src, q);
      MarkerBelow(dst, q);
      TargetOfMarker(q);
      if Below(dst, q) {
        MarkerUnder(dst, src, q);
      } else if q != src && !Below(src, q) {
        MarkersDiffer(q, src);
        if q != dst { MarkersDiffer(q, dst); }
      }
    }
  }

  /** What `stat` answers after a rename, path by path. */
  lemma LookupAfterRename(s: State, src: Path, dst: Path, e: UpperEntry, q: Path)
    requires s.Inv() && CanMove(s, src, dst) && PlainPath(q)
    ensures Renamed(s, src, dst, e).Lookup(q) ==
            if q == src then None
            else if src <= q then LowerOnly(s, q)
            else if dst <= q then
              var r := src + q[|dst|..];
              if s.Hidden(r) then None
              else if r in s.upper then Some(SeeUpper(s.upper[r]))
              else LowerOnly(s, q)
            else s.Lookup(q)
  {
    MovesApart(s, src, dst);
    HiddenAfterRename(s, src, dst, e, q);
    RenamedAt(s, src, dst, e, q);
    PlainIsNotMarker(q);
    TargetOfMarker(src);
    TargetOfMarker(dst);
    if q == dst { assert src + q[|dst|..] == src; }
  }

  /** When a rename moves the whole subtree: nothing lower is left below the source, and
      whatever lower entries lie below the destination are covered by what is moved there. */
  ghost predicate MoveExact(s: State, src: Path, dst: Path) {
    && s.NoLowerKids(src)
    && (forall q {:trigger q in s.lower} :: q in s.lower && Below(dst, q) ==> src + q[|dst|..] in s.upper)
  }

  lemma PlainRebase(a: Path, b: Path, q: Path)
    requires PlainPath(b) && PlainPath(q) && a <= q
    ensures PlainPath(b + q[|a|..])
  {
  }

  /** What the move of the view holds at a plain path, in terms of `stat` before the move. */
  lemma MovedViewAt(s: State, src: Path, dst: Path, q: Path)
    requires PlainPath(src) && PlainPath(q)
    ensures var v := MoveSubtree(s.View(), src, dst);
            (if q in v then Some(v[q]) else None) ==
            if dst <= q then s.Lookup(src + q[|dst|..])
            else if src <= q then None
            else s.Lookup(q)
  {
    MoveSubtreeAt(s.View(), src, dst, q);
    if dst <= q {
      PlainRebase(dst, src, q);
      ViewAt(s, src + q[|dst|..]);
    } else {
      ViewAt(s, q);
    }
  }

  lemma MovedViewIsPlain(s: State, src: Path, dst: Path, q: Path)
    requires PlainPath(dst) && q in MoveSubtree(s.View(), src, dst)
    ensures PlainPath(q)
  {
    MoveSubtreeAt(s.View(), src, dst, q);
    if dst <= q {
      PlainRebase(src, dst, src + q[|dst|..]);
      assert q == dst + (src + q[|dst|..])[|src|..];
    }
  }

  /** Nothing lower is seen below a path without lower children. */
  lemma LookupWithoutLower(s: State, p: Path, r: Path)
    requires s.Inv() && PlainPath(r) && s.NoLowerKids(p) && Below(p, r)
    ensures r !in s.lower && !s.Hidden(r)
  {
    NothingLowerBelow(s, p, r);
    if s.Hidden(r) { HiddenIsLowerOnly(s, r); }
  }

  lemma RenameMovesAt(s: State, src: Path, dst: Path, e: UpperEntry, q: Path)
    requires s.Inv() && CanMove(s, src, dst) && MoveExact(s, src, dst) && PlainPath(q)
    ensures Renamed(s, src, dst, e).Lookup(q) ==
            if dst <= q then s.Lookup(src + q[|dst|..])
            else if src <= q then None
            else s.Lookup(q)
  {
    LookupAfterRename(s, src, dst, e, q);
    MovesApart(s, src, dst);
    if src < q {
      LookupWithoutLower(s, src, q);
    }
    if dst <= q {
      assert !(src <= q);
      var r := src + q[|dst|..];
      PlainRebase(dst, src, q);
      if dst == q {
        assert r == src;
      } else {
        LookupWithoutLower(s, src, r);
      }
    }
  }

  lemma RenameIsMove(s: State, src: Path, dst: Path, e: UpperEntry)
    requires s.Inv() && CanMove(s, src, dst) && MoveExact(s, src, dst)
    ensures Renamed(s, src, dst, e).View() == MoveSubtree(s.View(), src, dst)
  {
    var t, v := Renamed(s, src, dst, e), MoveSubtree(s.View(), src, dst);
    forall q | q in v
      ensures PlainPath(q)
    {
      MovedViewIsPlain(s, src, dst, q);
    }
    forall q | PlainPath(q)
      ensures t.Lookup(q) == if q in v then Some(v[q]) else None
    {
      RenameMovesAt(s, src, dst, e, q);
      MovedViewAt(s, src, dst, q);
    }
    ViewIs(t, v);
  }

  lemma SourceKidStays(s: State, src: Path, dst: Path, e: UpperEntry, q: Path)
    requires s.Inv() && CanMove(s, src, dst)
    requires q in s.lower && q != [] && Parent(q) == src
    ensures Renamed(s, src, dst, e).View() != MoveSubtree(s.View(), src, dst)
  {
    assert src < q;
    MovesApart(s, src, dst);
    LookupAfterRename(s, src, dst, e, q);
    MovedViewAt(s, src, dst, q);
    ViewAt(Renamed(s, src, dst, e), q);
    assert dst <= q ==> dst == q || dst <= src;
  }

  lemma DestinationKidStays(s: State, src: Path, dst: Path, e: UpperEntry, q: Path)
    requires s.Inv() && CanMove(s, src, dst) && s.NoLowerKids(src)
    requires q in s.lower && Below(dst, q) && src + q[|dst|..] !in s.upper
    ensures Renamed(s, src, dst, e).View() != MoveSubtree(s.View(), src, dst)
  {
    PlainRebase(dst, src, q);
    LookupWithoutLower(s, src, src + q[|dst|..]);
    assert !(src <= q) by {
      if src <= q {
        assert src == q || src < q;
        if src < q { NothingLowerBelow(s, src, q); }
        MovesApart(s, src, dst);
      }
    }
    LookupAfterRename(s, src, dst, e, q);
    MovedViewAt(s, src, dst, q);
    ViewAt(Renamed(s, src, dst, e), q);
  }

  /** A rename moves the subtree in the view if and only if `MoveExact` holds beforehand. */
  lemma RenameIsMoveExactly(s: State, src: Path, dst: Path, e: UpperEntry)
    requires s.Inv() && CanMove(s, src, dst)
    ensures Renamed(s, src, dst, e).View() == MoveSubtree(s.View(), src, dst) <==> MoveExact(s, src, dst)
  {
    if MoveExact(s, src, dst) {
      RenameIsMove(s, src, dst, e);
    } else if q :| q in s.lower && q != [] && Parent(q) == src {
      SourceKidStays(s, src, dst, e, q);
    } else {
      var q :| q in s.lower && Below(dst, q) && src + q[|dst|..] !in s.upper;
      DestinationKidStays(s, src, dst, e, q);
    }
  }

  // ---------------------------------------------------------------- renames that merge

  /** Everything at or below src re-appears under dst, over what was there. */
  function MergeSubtree<V>(m: map<Path, V>, src: Path, dst: Path): map<Path, V> {
    map k | k in m.Keys + (set p | p in m.Keys && src <= p :: dst + p[|src|..]) &&
            ((dst <= k && src + k[|dst|..] in m) || (k in m && !(src <= k)))
          :: if dst <= k && src + k[|dst|..] in m then m[src + k[|dst|..]] else m[k]
  }

  lemma MergeSubtreeAt<V>(m: map<Path, V>, src: Path, dst: Path, k: Path)
    ensures var moved := dst <= k && src + k[|dst|..] in m;
            && (k in MergeSubtree(m, src, dst) <==> moved || (k in m && !(src <= k)))
            && (k in MergeSubtree(m, src, dst) ==>
                  MergeSubtree(m, src, dst)[k] == if moved then m[src + k[|dst|..]] else m[k])
  {
    if dst <= k {
      var p := src + k[|dst|..];
      assert p[|src|..] == k[|dst|..] && dst + p[|src|..] == k;
    }
  }

  /** Where nothing lies below the destination, merging there is moving there. */
  lemma MergeIsMove<V>(m: map<Path, V>, src: Path, dst: Path)
    requires src in m && forall k :: k in m ==> !Below(dst, k)
    ensures MergeSubtree(m, src, dst) == MoveSubtree(m, src, dst)
  {
    forall k
      ensures k in MergeSubtree(m, src, dst) <==> k in MoveSubtree(m, src, dst)
      ensures k in MergeSubtree(m, src, dst) ==> MergeSubtree(m, src, dst)[k] == MoveSubtree(m, src, dst)[k]
    {
      MergeSubtreeAt(m, src, dst, k);
      MoveSubtreeAt(m, src, dst, k);
      if k == dst { assert src + k[|dst|..] == src; }
    }
  }

  lemma MergedViewAt(s: State, src: Path, dst: Path, q: Path)
    requires PlainPath(src) && PlainPath(q)
    ensures var v := MergeSubtree(s.View(), src, dst);
            (if q in v then Some(v[q]) else None) ==
            if dst <= q && s.Lookup(src + q[|dst|..]).Some? then s.Lookup(src + q[|dst|..])
            else if src <= q then None
            else s.Lookup(q)
  {
    MergeSubtreeAt(s.View(), src, dst, q);
    if dst <= q {
      PlainRebase(dst, src, q);
      ViewAt(s, src + q[|dst|..]);
    }
    ViewAt(s, q);
  }

  lemma MergedViewIsPlain(s: State, src: Path, dst: Path, q: Path)
    requires PlainPath(dst) && q in MergeSubtree(s.View(), src, dst)
    ensures PlainPath(q)
  {
    MergeSubtreeAt(s.View(), src, dst, q);
    if dst <= q && src + q[|dst|..] in s.View() {
      PlainRebase(src, dst, src + q[|dst|..]);
      assert q == dst + (src + q[|dst|..])[|src|..];
    }
  }

  /** Below a destination that is no upper directory, no marker hides anything. */
  lemma NoMarkerBelow(s: State, src: Path, dst: Path, q: Path)
    requires s.Inv() && CanMove(s, src, dst) && PlainPath(q) && Below(dst, q)
    ensures q !in s.upper && !s.Hidden(q) && s.Lookup(q) == LowerOnly(s, q)
  {
    MovesApart(s, src, dst);
    MarkerBelow(dst, q);
    BelowParent(dst, q);
    TargetOfMarker(q);
    PlainIsNotMarker(dst);
    assert dst < Marker(q);
  }

  lemma RenameMergesAt(s: State, src: Path, dst: Path, e: UpperEntry, q: Path)
    requires s.Inv() && CanMove(s, src, dst) && s.NoLowerKids(src) && PlainPath(q)
    ensures Renamed(s, src, dst, e).Lookup(q) ==
            if dst <= q && s.Lookup(src + q[|dst|..]).Some? then s.Lookup(src + q[|dst|..])
            else if src <= q then None
            else s.Lookup(q)
  {
    LookupAfterRename(s, src, dst, e, q);
    MovesApart(s, src, dst);
    if src < q { LookupWithoutLower(s, src, q); }
    if dst <= q {
      assert !(src <= q);
      var r := src + q[|dst|..];
      PlainRebase(dst, src, q);
      if dst == q {
        assert r == src;
        if s.Hidden(src) { HiddenIsLowerOnly(s, src); }
      } else {
        LookupWithoutLower(s, src, r);
        NoMarkerBelow(s, src, dst, q);
      }
    }
  }

  /** A rename merges the subtree into the view if and only if the source has no lower children. */
  lemma RenameIsMergeExactly(s: State, src: Path, dst: Path, e: UpperEntry)
    requires s.Inv() && CanMove(s, src, dst)
    ensures Renamed(s, src, dst, e).View() == MergeSubtree(s.View(), src, dst) <==> s.NoLowerKids(src)
  {
    var t, v := Renamed(s, src, dst, e), MergeSubtree(s.View(), src, dst);
    if s.NoLowerKids(src) {
      forall q | q in v
        ensures PlainPath(q)
      {
        MergedViewIsPlain(s, src, dst, q);
      }
      forall q | PlainPath(q)
        ensures t.Lookup(q) == if q in v then Some(v[q]) else None
      {
        RenameMergesAt(s, src, dst, e, q);
        MergedViewAt(s, src, dst, q);
      }
      ViewIs(t, v);
    } else {
      var q :| q in s.lower && q != [] && Parent(q) == src;
      assert src < q;
      MovesApart(s, src, dst);
      LookupAfterRename(s, src, dst, e, q);
      MergedViewAt(s, src, dst, q);
      ViewAt(t, q);
      assert dst <= q ==> dst == q || dst <= src;
    }
  }

  /** What a caller can see beforehand suffices: a source that is no directory, or that the lower
      tree does not have, moves as a whole to any destination that is no visible directory. */
  lemma MoveExactWhenFree(s: State, src: Path, dst: Path)
    requires s.Inv() && PlainPath(src) && PlainPath(dst)
    requires s.Lookup(src).Some? && (!s.IsDir(src) || src !in s.lower) && !s.IsDir(dst)
    ensures MoveExact(s, src, dst)
  {
    if !s.IsDir(src) { NonDirHasNoKids(s, src); }
    if s.Lookup(dst).None? { InvisibleIsFree(s, dst); } else { NonDirHasNoKids(s, dst); }
    forall q {:trigger q in s.lower} | Below(dst, q)
      ensures q !in s.lower
    {
      NothingLowerBelow(s, dst, q);
    }
  }

  predicate UpperOkAt(t: State, k: Path)
    requires k != []
  {
    && Parent(k) in t.upper && t.upper[Parent(k)].UDir? && PlainPath(Parent(k))
    && (Plain(Base(k)) || IsMarkerName(Base(k)))
  }

  lemma UpperOkUnderDestination(s: State, src: Path, dst: Path, e: UpperEntry, k: Path)
    requires s.Inv() && CanMove(s, src, dst) && Below(dst, k)
    requires k in Renamed(s, src, dst, e).upper
    ensures UpperOkAt(Renamed(s, src, dst, e), k)
  {
    BelowParent(dst, k);
    RenamedAt(s, src, dst, e, k);
    RenamedAt(s, src, dst, e, Parent(k));
    var r := src + k[|dst|..];
    assert Parent(r) == src + Parent(k)[|dst|..] && Base(r) == Base(k);
    PlainRebase(src, dst, Parent(r));
    assert Parent(k) == dst + Parent(r)[|src|..];
  }

  lemma UpperOkElsewhere(s: State, src: Path, dst: Path, e: UpperEntry, k: Path)
    requires s.Inv() && CanMove(s, src, dst) && k != [] && !Below(dst, k)
    requires k in Renamed(s, src, dst, e).upper
    ensures UpperOkAt(Renamed(s, src, dst, e), k)
  {
    MovesApart(s, src, dst);
    RenamedAt(s, src, dst, e, k);
    TargetOfMarker(src);
    TargetOfMarker(dst);
    StripMarkerName(Base(src));
    var from := if k == dst then dst else if k == Marker(src) && src in s.lower then src else k;
    assert UpperOkAt(s, from) by {
      assert from == dst || from in s.upper;
      PlainParent(dst);
    }
    assert Parent(from) == Parent(k);
    assert !(src <= Parent(k)) by { assert !(src <= k); }
    assert !(dst <= Parent(k)) by { assert dst <= Parent(k) ==> Below(dst, k); }
    PlainIsNotMarker(Parent(k));
    RenamedAt(s, src, dst, e, Parent(k));
  }

  lemma RenameKeepsUpper(s: State, src: Path, dst: Path, e: UpperEntry)
    requires s.Inv() && CanMove(s, src, dst)
    ensures Renamed(s, src, dst, e).UpperOk()
  {
    var t := Renamed(s, src, dst, e);
    MovesApart(s, src, dst);
    RenamedAt(s, src, dst, e, []);
    forall k | k in t.upper && k != []
      ensures UpperOkAt(t, k)
    {
      if Below(dst, k) {
        UpperOkUnderDestination(s, src, dst, e, k);
      } else {
        UpperOkElsewhere(s, src, dst, e, k);
      }
    }
    forall k | k in t.upper && k != []
      ensures Parent(k) in t.upper && t.upper[Parent(k)].UDir? && PlainPath(Parent(k))
      ensures Plain(Base(k)) || IsMarkerName(Base(k))
    {
      assert UpperOkAt(t, k);
    }
  }

  /** A subtree over no lower entries carries no markers along. */
  lemma NoMarkerMoves(s: State, src: Path, dst: Path, e: UpperEntry, m: Path)
    requires s.Inv() && CanMove(s, src, dst) && s.NoLowerKids(src)
    requires dst <= m && IsMarker(m)
    ensures m !in Renamed(s, src, dst, e).upper
  {
    RenamedAt(s, src, dst, e, m);
    PlainIsNotMarker(dst);
    BelowParent(dst, m);
    var r := src + m[|dst|..];
    assert Base(r) == Base(m);
    assert Parent(r) == src + Parent(m)[|dst|..];
    MarkerOfTarget(r);
    assert src < Target(r);
    NothingLowerBelow(s, src, Target(r));
  }

  lemma RenameKeepsMarkers(s: State, src: Path, dst: Path, e: UpperEntry)
    requires s.Inv() && CanMove(s, src, dst) && s.NoLowerKids(src) && e.UFile?
    ensures Renamed(s, src, dst, e).MarkersOk()
  {
    var t := Renamed(s, src, dst, e);
    MovesApart(s, src, dst);
    TargetOfMarker(src);
    forall m | m in t.upper && IsMarker(m)
      ensures !t.upper[m].UDir? && Target(m) in t.lower && Target(m) !in t.upper
    {
      if dst <= m { NoMarkerMoves(s, src, dst, e, m); }
      RenamedAt(s, src, dst, e, m);
      RenamedAt(s, src, dst, e, Target(m));
      MarkerOfTarget(m);
      PlainIsNotMarker(src);
      assert dst <= Target(m) ==> dst == Target(m) || dst <= m;
    }
  }

  lemma UncoveredStays(s: State, src: Path, dst: Path, e: UpperEntry, q: Path)
    requires s.Inv() && CanMove(s, src, dst) && s.NoLowerKids(src)
    requires q in s.lower && q != [] && !(dst <= Parent(q))
    ensures var t := Renamed(s, src, dst, e);
            !t.Hidden(Parent(q)) && (Parent(q) in t.upper ==> t.upper[Parent(q)].UDir?)
  {
    PlainParent(q);
    HiddenAfterRename(s, src, dst, e, Parent(q));
    RenamedAt(s, src, dst, e, Parent(q));
    PlainIsNotMarker(Parent(q));
    TargetOfMarker(src);
  }

  /** What a rename must meet to keep the invariant: nothing lower below the source, and nothing
      but directories moved over lower directories that are not empty. */
  ghost predicate RenameKeeps(s: State, src: Path, dst: Path) {
    && s.NoLowerKids(src)
    && (forall q {:trigger Parent(q)} :: q in s.lower && q != [] && dst <= Parent(q) ==>
          CoverIsDir(s, src, dst, Parent(q)))
  }

  /** What is moved to p, if anything, is a directory. */
  predicate CoverIsDir(s: State, src: Path, dst: Path, p: Path)
    requires dst <= p
  {
    s.Lookup(src + p[|dst|..]).Some? ==> s.IsDir(src + p[|dst|..])
  }

  lemma CoveredKids(s: State, src: Path, dst: Path, e: UpperEntry, p: Path)
    requires s.Inv() && CanMove(s, src, dst) && s.NoLowerKids(src) && PlainPath(p) && dst <= p
    ensures var t := Renamed(s, src, dst, e);
            !t.Hidden(p) && ((p in t.upper ==> t.upper[p].UDir?) <==> CoverIsDir(s, src, dst, p))
  {
    MovesApart(s, src, dst);
    HiddenAfterRename(s, src, dst, e, p);
    RenamedAt(s, src, dst, e, p);
    if dst < p {
      PlainRebase(dst, src, p);
      LookupWithoutLower(s, src, src + p[|dst|..]);
    } else {
      assert src + p[|dst|..] == src;
      if s.Hidden(src) { HiddenIsLowerOnly(s, src); }
    }
  }

  lemma RenameKeepsKids(s: State, src: Path, dst: Path, e: UpperEntry)
    requires s.Inv() && CanMove(s, src, dst) && RenameKeeps(s, src, dst)
    ensures Renamed(s, src, dst, e).KidsOk()
  {
    var t := Renamed(s, src, dst, e);
    forall q {:trigger Parent(q)} | q in t.lower && q != []
      ensures !t.Hidden(Parent(q)) && (Parent(q) in t.upper ==> t.upper[Parent(q)].UDir?)
    {
      if dst <= Parent(q) {
        PlainParent(q);
        CoveredKids(s, src, dst, e, Parent(q));
      } else {
        UncoveredStays(s, src, dst, e, q);
      }
    }
  }

  /** A lower child of the source is left below a marker. */
  lemma LowerKidBreaksInv(s: State, src: Path, dst: Path, e: UpperEntry, q: Path)
    requires s.Inv() && CanMove(s, src, dst) && q in s.lower && q != [] && Parent(q) == src
    ensures !Renamed(s, src, dst, e).KidsOk()
  {
    HiddenAfterRename(s, src, dst, e, src);
    assert Renamed(s, src, dst, e).Hidden(Parent(q));
  }

  /** A rename keeps the invariant if and only if `RenameKeeps` holds beforehand. */
  lemma RenameKeepsInvExactly(s: State, src: Path, dst: Path, e: UpperEntry)
    requires s.Inv() && CanMove(s, src, dst) && e.UFile?
    ensures Renamed(s, src, dst, e).Inv() <==> RenameKeeps(s, src, dst)
  {
    if RenameKeeps(s, src, dst) {
      RenameKeepsUpper(s, src, dst, e);
      RenameKeepsMarkers(s, src, dst, e);
      RenameKeepsKids(s, src, dst, e);
    } else if q :| q in s.lower && q != [] && Parent(q) == src {
      LowerKidBreaksInv(s, src, dst, e, q);
    } else {
      var q :| q in s.lower && q != [] && dst <= Parent(q) && !CoverIsDir(s, src, dst, Parent(q));
      PlainParent(q);
      CoveredKids(s, src, dst, e, Parent(q));
    }
  }

  /** A rename that moves the whole subtree keeps the invariant. */
  lemma MoveKeepsInv(s: State, src: Path, dst: Path)
    requires s.Inv() && CanMove(s, src, dst) && MoveExact(s, src, dst)
    ensures RenameKeeps(s, src, dst)
  {
    forall q {:trigger Parent(q)} | q in s.lower && q != [] && dst <= Parent(q)
      ensures CoverIsDir(s, src, dst, Parent(q))
    {
      var p, r := src + Parent(q)[|dst|..], src + q[|dst|..];
      assert Below(dst, q) && r in s.upper && Parent(r) == p;
    }
  }
}
