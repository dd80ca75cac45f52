/** Paths as component sequences, and the naming convention of whiteout markers.

    The source keeps a path as a slash-separated string without a leading or trailing
    slash; here it is the sequence of its components, and the root is the empty sequence. */
module Paths {

  type Name = string
  type Path = seq<Name>

  const WHITEOUT_PREFIX: Name := ".wh."
  const OPAQUE_NAME: Name := ".wh..wh..opq"

  /** The empty name, ".", and "..". */
  predicate IsDots(n: Name) {
    n == "" || (n[0] == '.' && (|n| == 1 || (|n| == 2 && n[1] == '.')))
  }

  /** A name that can be one component of a path. */
  predicate Proper(n: Name) {
    !IsDots(n) && '/' !in n
  }

  /** Only "", ".", ".." and what holds a slash is no name of a file; ".bashrc" is one. */
  lemma ProperExactly(n: Name)
    ensures Proper(n) <==> n != "" && n != "." && n != ".." && '/' !in n
  {
    if n != "" && n[0] == '.' {
      assert |n| == 1 ==> n == ".";
      assert |n| == 2 && n[1] == '.' ==> n == "..";
    }
  }

  /** A marker is spelled as the path with ".wh." before its last component. */
  lemma MarkerSpelled(parent: Path, n: Name)
    ensures Marker(parent + [n]) == parent + [".wh." + n]
    ensures IsMarkerName(n) <==> |n| >= 4 && n[..4] == ".wh."
  {
    assert Parent(parent + [n]) == parent && Base(parent + [n]) == n;
  }

  predicate IsMarkerName(n: Name) {
    WHITEOUT_PREFIX <= n
  }

  /** A name an ordinary file may carry: every other proper name is a marker. */
  predicate Plain(n: Name) {
    Proper(n) && !IsMarkerName(n)
  }

  predicate ProperPath(p: Path) {
    forall i | 0 <= i < |p| :: Proper(p[i])
  }

  /** What a string is split into at its slashes, the empty string into nothing: every string gives
      such a path, and different strings different ones. */
  predicate IsSplit(p: Path) {
    p != [""] && forall i | 0 <= i < |p| :: '/' !in p[i]
  }

  predicate PlainPath(p: Path) {
    forall i | 0 <= i < |p| :: Plain(p[i])
  }

  function Parent(p: Path): Path
    requires p != []
  {
    p[..|p| - 1]
  }

  function Base(p: Path): Name
    requires p != []
  {
    p[|p| - 1]
  }

  function MarkerName(n: Name): Name {
    WHITEOUT_PREFIX + n
  }

  function Strip(n: Name): Name
    requires IsMarkerName(n)
  {
    n[|WHITEOUT_PREFIX|..]
  }

  /** The marker file that hides p. */
  function Marker(p: Path): Path
    requires p != []
  {
    Parent(p) + [MarkerName(Base(p))]
  }

  predicate IsMarker(p: Path) {
    p != [] && IsMarkerName(Base(p))
  }

  /** The path a marker file hides. */
  function Target(m: Path): Path
    requires IsMarker(m)
  {
    Parent(m) + [Strip(Base(m))]
  }

  /** q lies strictly below p. */
  predicate Below(p: Path, q: Path) {
    p < q
  }

  /** q lies at or below p. */
  predicate AtOrBelow(p: Path, q: Path) {
    p <= q
  }

  lemma StripMarkerName(n: Name)
    ensures IsMarkerName(MarkerName(n)) && Strip(MarkerName(n)) == n
  {
  }

  /** Marker and Target are inverse, so distinct paths have distinct markers. */
  lemma TargetOfMarker(p: Path)
    requires p != []
    ensures IsMarker(Marker(p)) && Target(Marker(p)) == p
    ensures Parent(Marker(p)) == Parent(p) && |Marker(p)| == |p|
  {
    StripMarkerName(Base(p));
    assert Parent(Marker(p)) == Parent(p);
    assert p == Parent(p) + [Base(p)];
  }

  lemma MarkerOfTarget(m: Path)
    requires IsMarker(m)
    ensures Target(m) != [] && Marker(Target(m)) == m
    ensures Parent(Target(m)) == Parent(m) && Base(Target(m)) == Strip(Base(m))
  {
    var p := Target(m);
    assert Parent(p) == Parent(m);
    assert MarkerName(Strip(Base(m))) == Base(m);
    assert m == Parent(m) + [Base(m)];
  }

  lemma MarkersDiffer(p: Path, q: Path)
    requires p != [] && q != [] && p != q
    ensures Marker(p) != Marker(q)
  {
    TargetOfMarker(p);
    TargetOfMarker(q);
  }

  /** No plain path is itself a marker. */
  lemma PlainIsNotMarker(p: Path)
    requires PlainPath(p)
    ensures !IsMarker(p)
  {
  }

  lemma PlainParent(p: Path)
    requires PlainPath(p) && p != []
    ensures PlainPath(Parent(p)) && Plain(Base(p))
  {
  }

  lemma PlainChild(p: Path, n: Name)
    requires PlainPath(p) && Plain(n)
    ensures PlainPath(p + [n]) && Parent(p + [n]) == p && Base(p + [n]) == n
  {
  }

  /** A plain path covers a marker exactly when it covers the directory the marker is in. */
  lemma MarkerBelow(a: Path, p: Path)
    requires PlainPath(a) && p != []
    ensures a <= Marker(p) <==> a <= Parent(p)
  {
    TargetOfMarker(p);
    if |a| == |p| {
      assert Plain(a[|a| - 1]) && IsMarkerName(Marker(p)[|p| - 1]);
    }
  }

  lemma BelowParent(a: Path, q: Path)
    requires Below(a, q)
    ensures a <= Parent(q) && (a == Parent(q) || Below(a, Parent(q)))
  {
  }

  /** The opaque marker is not the whiteout of any plain name. */
  lemma OpaqueIsNoWhiteout()
    ensures IsMarkerName(OPAQUE_NAME) && !Plain(Strip(OPAQUE_NAME))
  {
    assert Strip(OPAQUE_NAME) == ".wh..opq";
  }
}
