/** Stacking committed layers, lowest first, with whiteout and opaque markers. */
module LayerMerge {
  import opened Paths
  import opened TreeData

  type Layer = seq<FileEntry>
  type FileMap = map<Path, FileEntry>

  // ---------------------------------------------------------------- what a layer does

  /** A relative path without its empty and "." components, and with ".." resolved where it can be. */
  function Resolve(p: Path): Path {
    if p == [] then []
    else
      var dir, name := Resolve(Parent(p)), Base(p);
      if name == "" || name == "." then dir
      else if name == ".." && dir != [] && Base(dir) != ".." then Parent(dir)
      else dir + [name]
  }

  /** `path.Clean` of a relative path: it resolves the path and writes the empty one as ".". */
  function Clean(p: Path): Path {
    if Resolve(p) == [] then ["."] else Resolve(p)
  }

  lemma {:induction false} ProperIsResolved(p: Path)
    requires ProperPath(p)
    ensures Resolve(p) == p
  {
    if p != [] {
      ProperIsResolved(Parent(p));
      assert Proper(Base(p)) && p == Parent(p) + [Base(p)];
    }
  }

  /** What cleaning does, one component after the other: empty and "." components count for nothing, and
      a name followed by ".." neither; what is left of ".." stands in front. */
  lemma ResolveSteps(p: Path, n: Name)
    ensures Resolve([]) == []
    ensures n == "" || n == "." ==> Resolve(p + [n]) == Resolve(p)
    ensures n != "" && n != "." && n != ".." ==>
              Resolve(p + [n]) == Resolve(p) + [n] && Resolve(p + [n] + [".."]) == Resolve(p)
    ensures (forall m :: m in Resolve(p) ==> m == "..") ==> Resolve(p + [".."]) == Resolve(p) + [".."]
  {
    assert Parent(p + [n]) == p && Base(p + [n]) == n;
    assert Parent(p + [n] + [".."]) == p + [n] && Base(p + [n] + [".."]) == "..";
    assert Parent(p + [".."]) == p && Base(p + [".."]) == "..";
    if Resolve(p) != [] { assert Base(Resolve(p)) in Resolve(p); }
  }

  /** A cleaned path has no empty and no "." component, and ".." only after "..". */
  lemma {:induction false} ResolvedIsClean(p: Path)
    ensures forall i :: 0 <= i < |Resolve(p)| ==> Resolve(p)[i] != "" && Resolve(p)[i] != "."
    ensures forall i :: 0 < i < |Resolve(p)| && Resolve(p)[i] == ".." ==> Resolve(p)[i - 1] == ".."
  {
    if p != [] { ResolvedIsClean(Parent(p)); }
  }

  /** The path a whiteout removes, with everything below it: the rest of its name, joined to its directory. */
  function WhiteoutTarget(p: Path): Path
    requires IsMarker(p)
  {
    Clean(Clean(Parent(p)) + [Strip(Base(p))])
  }

  /** The marker f removes q from the layers below. At the root an opaque marker looks for paths that
      begin with ".". */
  predicate PathHides(p: Path, q: Path) {
    IsMarker(p) && if Base(p) == OPAQUE_NAME then Below(Clean(Parent(p)), q) else WhiteoutTarget(p) <= q
  }

  predicate HiddenBy(f: FileEntry, q: Path) {
    PathHides(f.path, q)
  }

  ghost predicate Hides(layer: Layer, q: Path) {
    exists f :: f in layer && HiddenBy(f, q)
  }

  predicate ListsAt(layer: Layer, i: nat, q: Path)
    requires i < |layer|
  {
    layer[i].path == q && q != [] && !IsMarker(q)
  }

  ghost predicate Lists(layer: Layer, q: Path) {
    exists i :: 0 <= i < |layer| && ListsAt(layer, i, q)
  }

  /** The last entry of the layer for q. */
  function Listing(layer: Layer, q: Path): (f: FileEntry)
    requires Lists(layer, q)
    ensures f in layer && f.path == q && q != [] && !IsMarker(q)
  {
    var last := |layer| - 1;
    if ListsAt(layer, last, q) then layer[last]
    else
      assert forall i :: 0 <= i < last ==> (ListsAt(layer[..last], i, q) <==> ListsAt(layer, i, q));
      Listing(layer[..last], q)
  }

  /** The merged files after one more layer: its own entries, and what it does not hide. */
  ghost function MergeStep(m: FileMap, layer: Layer): FileMap {
    map q | q in m.Keys + (set f | f in layer :: f.path) && (Lists(layer, q) || (q in m && !Hides(layer, q)))
          :: if Lists(layer, q) then Listing(layer, q) else m[q]
  }

  ghost function MergeAll(layers: seq<Layer>): FileMap {
    if layers == [] then map[] else MergeStep(MergeAll(layers[..|layers| - 1]), layers[|layers| - 1])
  }

  lemma ListedPath(layer: Layer, q: Path)
    requires Lists(layer, q)
    ensures q in set f | f in layer :: f.path
  {
    assert Listing(layer, q).path == q;
  }

  lemma MergeStepAt(m: FileMap, layer: Layer, q: Path)
    ensures q in MergeStep(m, layer) <==> Lists(layer, q) || (q in m && !Hides(layer, q))
    ensures Lists(layer, q) ==> MergeStep(m, layer)[q] == Listing(layer, q)
    ensures q in MergeStep(m, layer) && !Lists(layer, q) ==> MergeStep(m, layer)[q] == m[q]
  {
    if Lists(layer, q) { ListedPath(layer, q); }
  }

  /** Layer i is the highest one that lists q. */
  ghost predicate TopLister(layers: seq<Layer>, i: int, q: Path) {
    0 <= i < |layers| && Lists(layers[i], q) && forall j :: i < j < |layers| ==> !Lists(layers[j], q)
  }

  /** No layer strictly above i hides q. */
  ghost predicate UnhiddenAbove(layers: seq<Layer>, i: int, q: Path) {
    0 <= i && forall j :: i < j < |layers| ==> !Hides(layers[j], q)
  }

  lemma TopListerStep(layers: seq<Layer>, q: Path, i: int)
    requires layers != []
    ensures var last, rest := |layers| - 1, layers[..|layers| - 1];
            && (TopLister(layers, i, q) <==> if Lists(layers[last], q) then i == last else TopLister(rest, i, q))
            && (i < last ==> (UnhiddenAbove(layers, i, q) <==> UnhiddenAbove(rest, i, q) && !Hides(layers[last], q)))
            && UnhiddenAbove(layers, last, q)
  {
  }

  ghost predicate Survives(layers: seq<Layer>, q: Path) {
    exists i :: TopLister(layers, i, q) && UnhiddenAbove(layers, i, q)
  }

  lemma SurvivesStep(layers: seq<Layer>, q: Path)
    requires layers != []
    ensures var last, rest := |layers| - 1, layers[..|layers| - 1];
            Survives(layers, q) <==> Lists(layers[last], q) || (Survives(rest, q) && !Hides(layers[last], q))
  {
    var last, rest := |layers| - 1, layers[..|layers| - 1];
    forall i
      ensures TopLister(layers, i, q) <==> if Lists(layers[last], q) then i == last else TopLister(rest, i, q)
      ensures i < last ==> (UnhiddenAbove(layers, i, q) <==> UnhiddenAbove(rest, i, q) && !Hides(layers[last], q))
    {
      TopListerStep(layers, q, i);
    }
    assert UnhiddenAbove(layers, last, q);
    if Lists(layers[last], q) { assert TopLister(layers, last, q); }
  }

  /** The merge holds, at q, the entry of the highest layer that lists q, unless a strictly
      higher layer hides q; a layer's own markers never hide its own entries. */
  lemma {:induction false} MergeIsTopLayer(layers: seq<Layer>, q: Path)
    ensures q in MergeAll(layers) <==> Survives(layers, q)
    ensures forall i :: TopLister(layers, i, q) && q in MergeAll(layers) ==>
              MergeAll(layers)[q] == Listing(layers[i], q)
  {
    if layers != [] {
      var last, rest := |layers| - 1, layers[..|layers| - 1];
      MergeIsTopLayer(rest, q);
      MergeStepAt(MergeAll(rest), layers[last], q);
      SurvivesStep(layers, q);
      forall i | TopLister(layers, i, q) && q in MergeAll(layers)
        ensures MergeAll(layers)[q] == Listing(layers[i], q)
      {
        TopListerStep(layers, q, i);
      }
    }
  }

  /** The files left once the markers of a layer have been applied. */
  ghost function Unhidden(m: FileMap, layer: Layer): FileMap {
    map q | q in m && !Hides(layer, q) :: m[q]
  }

  /** The files once the entries of a layer have been added. */
  ghost function Added(m: FileMap, layer: Layer): FileMap {
    map q | q in m.Keys + (set f | f in layer :: f.path) && (Lists(layer, q) || q in m)
          :: if Lists(layer, q) then Listing(layer, q) else m[q]
  }

  lemma MergeStepIsTwoPasses(m: FileMap, layer: Layer)
    ensures MergeStep(m, layer) == Added(Unhidden(m, layer), layer)
  {
  }

  lemma HidesOneMore(layer: Layer, f: FileEntry, q: Path)
    ensures Hides(layer + [f], q) <==> Hides(layer, q) || HiddenBy(f, q)
  {
    if HiddenBy(f, q) { assert f in layer + [f]; }
    if g :| g in layer && HiddenBy(g, q) { assert g in layer + [f]; }
  }

  lemma ListsOneMore(layer: Layer, f: FileEntry, q: Path)
    ensures var more := layer + [f];
            && (Lists(more, q) <==> Lists(layer, q) || (f.path == q && q != [] && !IsMarker(q)))
            && (Lists(more, q) ==> Listing(more, q) == if f.path == q then f else Listing(layer, q))
  {
    var more := layer + [f];
    assert more[..|layer|] == layer;
    forall i | 0 <= i < |layer|
      ensures ListsAt(more, i, q) == ListsAt(layer, i, q)
    {
    }
    if f.path == q && q != [] && !IsMarker(q) { assert ListsAt(more, |layer|, q); }
    if i :| 0 <= i < |layer| && ListsAt(layer, i, q) { assert ListsAt(more, i, q); }
  }

  lemma AddedAt(m: FileMap, layer: Layer, q: Path)
    ensures q in Added(m, layer) <==> Lists(layer, q) || q in m
    ensures q in Added(m, layer) ==> Added(m, layer)[q] == if Lists(layer, q) then Listing(layer, q) else m[q]
  {
    if Lists(layer, q) { ListedPath(layer, q); }
  }

  /** Adding one more entry of a layer is one map update, or nothing for a marker or the root. */
  lemma AddedOneMore(m: FileMap, layer: Layer, f: FileEntry)
    ensures Added(m, layer + [f]) ==
            if f.path == [] || IsMarker(f.path) then Added(m, layer) else Added(m, layer)[f.path := f]
  {
    var a := Added(m, layer + [f]);
    var b := if f.path == [] || IsMarker(f.path) then Added(m, layer) else Added(m, layer)[f.path := f];
    forall q
      ensures q in a <==> q in b
      ensures q in a ==> a[q] == b[q]
    {
      ListsOneMore(layer, f, q);
      AddedAt(m, layer, q);
      AddedAt(m, layer + [f], q);
    }
  }

  // ---------------------------------------------------------------- the merge loop

  predicate Hit(p: Path, children: bool, q: Path) {
    q == p || (children && Below(p, q))
  }

  function Keep(order: seq<Path>, p: Path, children: bool): (kept: seq<Path>)
    ensures forall q :: q in kept <==> q in order && !Hit(p, children, q)
    ensures |kept| <= |order|
  {
    if order == [] then []
    else
      var last := |order| - 1;
      var front := Keep(order[..last], p, children);
      if Hit(p, children, order[last]) then front else front + [order[last]]
  }

  ghost predicate NoRepeats(order: seq<Path>) {
    forall i, j :: 0 <= i < j < |order| ==> order[i] != order[j]
  }

  lemma {:induction false} KeepNoRepeats(order: seq<Path>, p: Path, children: bool)
    requires NoRepeats(order)
    ensures NoRepeats(Keep(order, p, children))
  {
    if order != [] {
      KeepNoRepeats(order[..|order| - 1], p, children);
    }
  }

  /** The file map once the hits among the first entries of the order are deleted. */
  function Without(m: FileMap, order: seq<Path>, p: Path, children: bool): FileMap {
    map q | q in m && !(q in order && Hit(p, children, q)) :: m[q]
  }

  lemma WithoutOneMore(m: FileMap, order: seq<Path>, q: Path, p: Path, children: bool)
    ensures Without(m, order + [q], p, children) ==
            if Hit(p, children, q) then Without(m, order, p, children) - {q} else Without(m, order, p, children)
    ensures Keep(order + [q], p, children) ==
            if Hit(p, children, q) then Keep(order, p, children) else Keep(order, p, children) + [q]
  {
    assert (order + [q])[..|order|] == order;
  }

  /** Where the order lists every file, nothing that is hit is left. */
  lemma WithoutHits(m: FileMap, order: seq<Path>, p: Path, children: bool)
    requires forall q :: q in m ==> q in order
    ensures Without(m, order, p, children) == map q | q in m && !Hit(p, children, q) :: m[q]
  {
  }

  /** Deleting hits from both keeps the order an enumeration of the map's keys. */
  lemma KeepEnumerates(m: FileMap, order: seq<Path>, p: Path, children: bool)
    requires NoRepeats(order) && forall q :: q in order <==> q in m
    ensures NoRepeats(Keep(order, p, children))
    ensures forall q :: q in Keep(order, p, children) <==> q in Without(m, order, p, children)
  {
    KeepNoRepeats(order, p, children);
  }

  /** The first r elements have been filtered into the first `kept` slots; the rest still stand. */
  ghost predicate Filtering(now: seq<Path>, was: seq<Path>, r: nat, kept: nat, m: FileMap, files: FileMap, p: Path,
                            children: bool)
  {
    && kept <= r <= |was| <= |now|
    && now[..kept] == Keep(was[..r], p, children)
    && now[r..|was|] == was[r..]
    && files == Without(m, was[..r], p, children)
  }

  lemma FilterStep(now: seq<Path>, was: seq<Path>, r: nat, kept: nat, m: FileMap, files: FileMap, p: Path,
                   children: bool)
    requires Filtering(now, was, r, kept, m, files, p, children) && r < |was|
    ensures now[r] == was[r]
    ensures if Hit(p, children, was[r]) then Filtering(now, was, r + 1, kept, m, files - {was[r]}, p, children)
            else Filtering(now[kept := was[r]], was, r + 1, kept + 1, m, files, p, children)
  {
    var q := was[r];
    assert now[r..|was|][0] == was[r..][0];
    assert was[..r + 1] == was[..r] + [q];
    WithoutOneMore(m, was[..r], q, p, children);
    assert now[r + 1..|was|] == now[r..|was|][1..] == was[r..][1..] == was[r + 1..];
    var next := now[kept := q];
    assert next[..kept + 1] == now[..kept] + [q];
    assert next[r + 1..|was|] == now[r + 1..|was|];
  }

  /** Filters the first n elements of the array in place, over the slots it has passed,
      and deletes the dropped paths from the map. */
  method FilterInPlace(a: array<Path>, n: nat, m: FileMap, p: Path, children: bool)
    returns (kept: nat, files: FileMap)
    requires n <= a.Length
    modifies a
    ensures kept <= n
    ensures a[..kept] == Keep(old(a[..n]), p, children)
    ensures files == Without(m, old(a[..n]), p, children)
  {
    ghost var was := a[..n];
    kept := 0;
    files := m;
    for r := 0 to n
      invariant Filtering(a[..], was, r, kept, m, files, p, children)
    {
      ghost var now := a[..];
      FilterStep(now, was, r, kept, m, files, p, children);
      var q := a[r];
      if Hit(p, children, q) {
        files := files - {q};
      } else {
        a[kept] := q;
        kept := kept + 1;
        assert a[..] == now[kept - 1 := q];
      }
    }
    assert was[..n] == was && a[..][..kept] == a[..kept];
  }

  /** q is, or lies below, one of the given paths that are strictly below dir. */
  ghost predicate UnderOneOf(dir: Path, paths: seq<Path>, q: Path) {
    exists p :: p in paths && Below(dir, p) && p <= q
  }

  ghost function NotUnder(m: FileMap, dir: Path, paths: seq<Path>): FileMap {
    map q | q in m && !UnderOneOf(dir, paths, q) :: m[q]
  }

  lemma UnderOneMore(m: FileMap, dir: Path, paths: seq<Path>, p: Path)
    ensures NotUnder(m, dir, paths + [p]) ==
            if Below(dir, p) then map q | q in NotUnder(m, dir, paths) && !Hit(p, true, q) :: NotUnder(m, dir, paths)[q]
            else NotUnder(m, dir, paths)
  {
    forall q
      ensures UnderOneOf(dir, paths + [p], q) <==> UnderOneOf(dir, paths, q) || (Below(dir, p) && p <= q)
    {
      if Below(dir, p) && p <= q { assert p in paths + [p]; }
      if x :| x in paths && Below(dir, x) && x <= q { assert x in paths + [p]; }
    }
  }

  /** Once every listed path has been visited, nothing below dir is left. */
  lemma UnderAll(m: FileMap, dir: Path, paths: seq<Path>)
    requires forall q :: q in m ==> q in paths
    ensures NotUnder(m, dir, paths) == map q | q in m && !Below(dir, q) :: m[q]
  {
    forall q | q in m
      ensures UnderOneOf(dir, paths, q) <==> Below(dir, q)
    {
      if x :| x in paths && Below(dir, x) && x <= q { PrefixChain(dir, x, q); }
    }
  }

  lemma PrefixChain(a: Path, b: Path, c: Path)
    requires a < b && b <= c
    ensures a < c
  {
    assert b == c[..|b|];
  }

  lemma UnhiddenOneMore(m: FileMap, layer: Layer, f: FileEntry)
    ensures Unhidden(m, layer + [f]) == map q | q in Unhidden(m, layer) && !HiddenBy(f, q) :: m[q]
  {
    forall q
      ensures Hides(layer + [f], q) <==> Hides(layer, q) || HiddenBy(f, q)
    {
      HidesOneMore(layer, f, q);
    }
  }

  /** What each kind of marker leaves of the files, as the loop below removes them. */
  lemma MarkerEffect(m: FileMap, p: Path)
    ensures var left := map q | q in m && !PathHides(p, q) :: m[q];
            if !IsMarker(p) then left == m
            else if Base(p) == OPAQUE_NAME then left == map q | q in m && !Below(Clean(Parent(p)), q) :: m[q]
            else left == map q | q in m && !Hit(WhiteoutTarget(p), true, q) :: m[q]
  {
    if IsMarker(p) && Base(p) != OPAQUE_NAME {
      forall q
        ensures PathHides(p, q) <==> Hit(WhiteoutTarget(p), true, q)
      {
      }
    }
  }

  // ---------------------------------------------------------------- the order of the merged list

  /** The elements of the order that are still files. */
  function Restrict(order: seq<Path>, left: set<Path>): seq<Path> {
    if order == [] then []
    else
      var last := |order| - 1;
      var front := Restrict(order[..last], left);
      if order[last] in left then front + [order[last]] else front
  }

  /** A new path goes to the end; one that is known keeps its place. */
  function Appended(order: seq<Path>, layer: Layer): seq<Path> {
    if layer == [] then order
    else
      var front, p := Appended(order, layer[..|layer| - 1]), layer[|layer| - 1].path;
      if p == [] || IsMarker(p) || p in front then front else front + [p]
  }

  /** The order in which the merged files are listed. */
  ghost function OrderAll(layers: seq<Layer>): seq<Path> {
    if layers == [] then []
    else
      var below, layer := layers[..|layers| - 1], layers[|layers| - 1];
      Appended(Restrict(OrderAll(below), Unhidden(MergeAll(below), layer).Keys), layer)
  }

  lemma {:induction false} RestrictAll(order: seq<Path>, left: set<Path>)
    requires forall q :: q in order ==> q in left
    ensures Restrict(order, left) == order
  {
    if order != [] {
      var last := |order| - 1;
      assert order == order[..last] + [order[last]];
      RestrictAll(order[..last], left);
    }
  }

  lemma RestrictOneMore(order: seq<Path>, q: Path, left: set<Path>)
    ensures Restrict(order + [q], left) == if q in left then Restrict(order, left) + [q] else Restrict(order, left)
  {
    assert (order + [q])[..|order|] == order;
  }

  lemma {:induction false} RestrictTwice(order: seq<Path>, some: set<Path>, fewer: set<Path>)
    requires fewer <= some
    ensures Restrict(Restrict(order, some), fewer) == Restrict(order, fewer)
  {
    if order != [] {
      var last := |order| - 1;
      RestrictTwice(order[..last], some, fewer);
      if order[last] in some {
        RestrictOneMore(Restrict(order[..last], some), order[last], fewer);
      }
    }
  }

  lemma {:induction false} KeepIsRestrict(order: seq<Path>, p: Path, children: bool, left: set<Path>)
    requires forall q :: q in order ==> (q in left <==> !Hit(p, children, q))
    ensures Keep(order, p, children) == Restrict(order, left)
  {
    if order != [] {
      var last := |order| - 1;
      assert order[last] in order;
      KeepIsRestrict(order[..last], p, children, left);
    }
  }

  /** The first k paths of the snapshot have been visited. */
  ghost predicate Dropping(was: FileMap, dir: Path, snapshot: seq<Path>, k: nat, files: FileMap, order: seq<Path>) {
    k <= |snapshot| && files == NotUnder(was, dir, snapshot[..k]) && order == Restrict(snapshot, files.Keys)
  }

  lemma DropStep(was: FileMap, dir: Path, snapshot: seq<Path>, k: nat, files: FileMap, order: seq<Path>)
    requires Dropping(was, dir, snapshot, k, files, order) && k < |snapshot|
    ensures var left := if Below(dir, snapshot[k]) then map q | q in files && !Hit(snapshot[k], true, q) :: files[q]
                        else files;
            Dropping(was, dir, snapshot, k + 1, left,
                     if Below(dir, snapshot[k]) then Restrict(order, left.Keys) else order)
  {
    assert snapshot[..k + 1] == snapshot[..k] + [snapshot[k]];
    UnderOneMore(was, dir, snapshot[..k], snapshot[k]);
    RestrictTwice(snapshot, files.Keys, NotUnder(was, dir, snapshot[..k + 1]).Keys);
  }

  /** The first k entries of the layer have been applied. */
  ghost predicate Applying(was: FileMap, before: seq<Path>, layer: Layer, k: nat, files: FileMap, order: seq<Path>) {
    k <= |layer| && files == Unhidden(was, layer[..k]) && order == Restrict(before, files.Keys)
  }

  lemma ApplyStep(was: FileMap, before: seq<Path>, layer: Layer, k: nat, files: FileMap, order: seq<Path>)
    requires Applying(was, before, layer, k, files, order) && k < |layer|
    ensures var left := map q | q in files && !PathHides(layer[k].path, q) :: files[q];
            Applying(was, before, layer, k + 1, left, Restrict(order, left.Keys))
  {
    assert layer[..k + 1] == layer[..k] + [layer[k]];
    UnhiddenOneMore(was, layer[..k], layer[k]);
    RestrictTwice(before, files.Keys, Unhidden(was, layer[..k + 1]).Keys);
  }

  /** The first k entries of the layer have been added. */
  ghost predicate Adding(was: FileMap, before: seq<Path>, layer: Layer, k: nat, files: FileMap, order: seq<Path>) {
    k <= |layer| && files == Added(was, layer[..k]) && order == Appended(before, layer[..k])
  }

  lemma AddStep(was: FileMap, before: seq<Path>, layer: Layer, k: nat, files: FileMap, order: seq<Path>)
    requires Adding(was, before, layer, k, files, order) && k < |layer|
    requires forall q :: q in order <==> q in files
    ensures var f := layer[k];
            if f.path == [] || IsMarker(f.path) then Adding(was, before, layer, k + 1, files, order)
            else Adding(was, before, layer, k + 1, files[f.path := f],
                        if f.path in files then order else order + [f.path])
  {
    assert layer[..k + 1] == layer[..k] + [layer[k]];
    assert layer[..k + 1][..k] == layer[..k];
    AddedOneMore(was, layer[..k], layer[k]);
  }

  lemma NothingAdded(was: FileMap, before: seq<Path>, layer: Layer)
    ensures Adding(was, before, layer, 0, was, before)
  {
    assert Added(was, []) == was;
  }

  /** The order slice, kept in place in a backing array, and the file map. */
  class Merger {
    var buf: array<Path>
    var n: nat
    var files: FileMap

    ghost predicate Valid()
      reads this, buf
    {
      && n <= buf.Length
      && NoRepeats(buf[..n])
      && (forall q :: q in buf[..n] <==> q in files)
      && (forall q :: q in files ==> q != [] && files[q].path == q)
    }

    constructor ()
      ensures Valid() && fresh(buf) && files == map[] && buf[..n] == []
    {
      buf := new Path[0];
      n := 0;
      files := map[];
    }

    /** Appends to the slice, growing the backing array when it is full. */
    method Append(p: Path)
      requires n <= buf.Length
      modifies this, buf
      ensures n == old(n) + 1 <= buf.Length && buf[..n] == old(buf[..n]) + [p]
      ensures files == old(files)
      ensures buf == old(buf) || fresh(buf)
    {
      if n == buf.Length {
        var bigger := new Path[2 * n + 1](i requires 0 <= i reads this, buf => if i < buf.Length then buf[i] else []);
        assert bigger[..n] == buf[..n];
        buf := bigger;
      }
      buf[n] := p;
      n := n + 1;
    }

    method Add(p: Path, f: FileEntry)
      requires Valid() && p != [] && f.path == p
      modifies this, buf
      ensures Valid() && (buf == old(buf) || fresh(buf))
      ensures files == old(files)[p := f]
      ensures buf[..n] == if p in old(files) then old(buf[..n]) else old(buf[..n]) + [p]
    {
      if p !in files {
        Append(p);
      }
      files := files[p := f];
    }

    /** Filters the slice in place, dropping p and, if asked, everything below it. */
    method Del(p: Path, children: bool)
      requires Valid()
      modifies this, buf
      ensures Valid() && buf == old(buf)
      ensures files == map q | q in old(files) && !Hit(p, children, q) :: old(files)[q]
      ensures buf[..n] == Restrict(old(buf[..n]), files.Keys)
    {
      KeepEnumerates(files, buf[..n], p, children);
      WithoutHits(files, buf[..n], p, children);
      KeepIsRestrict(buf[..n], p, children, Without(files, buf[..n], p, children).Keys);
      var kept, rest := FilterInPlace(buf, n, files, p, children);
      n := kept;
      files := rest;
    }

    /** Deletes everything strictly below dir, walking a copy of the order while it shrinks. */
    method DropBelow(dir: Path)
      requires Valid()
      modifies this, buf
      ensures Valid() && buf == old(buf)
      ensures files == map q | q in old(files) && !Below(dir, q) :: old(files)[q]
      ensures buf[..n] == Restrict(old(buf[..n]), files.Keys)
    {
      var snapshot := buf[..n];
      ghost var was := files;
      RestrictAll(snapshot, files.Keys);
      for k := 0 to |snapshot|
        invariant Valid() && buf == old(buf)
        invariant Dropping(was, dir, snapshot, k, files, buf[..n])
      {
        DropStep(was, dir, snapshot, k, files, buf[..n]);
        if Below(dir, snapshot[k]) {
          Del(snapshot[k], true);
        }
      }
      assert snapshot[..|snapshot|] == snapshot;
      UnderAll(was, dir, snapshot);
    }

    /** One entry of the first pass: a marker deletes, anything else does nothing. */
    method ApplyMarker(clean: Path)
      requires Valid()
      modifies this, buf
      ensures Valid() && buf == old(buf)
      ensures files == map q | q in old(files) && !PathHides(clean, q) :: old(files)[q]
      ensures buf[..n] == Restrict(old(buf[..n]), files.Keys)
    {
      MarkerEffect(files, clean);
      RestrictAll(buf[..n], files.Keys);
      if clean == [] {
        return;
      }
      if IsMarkerName(Base(clean)) {
        var dir := Clean(Parent(clean));
        if Base(clean) == OPAQUE_NAME {
          DropBelow(dir);
          return;
        }
        Del(Clean(dir + [Strip(Base(clean))]), true);
      }
    }

    /** First pass over a layer: its markers delete from what lies below. */
    method ApplyMarkers(layer: Layer)
      requires Valid()
      modifies this, buf
      ensures Valid() && buf == old(buf)
      ensures files == Unhidden(old(files), layer)
      ensures buf[..n] == Restrict(old(buf[..n]), files.Keys)
    {
      ghost var was, order := files, buf[..n];
      RestrictAll(order, files.Keys);
      for k := 0 to |layer|
        invariant Valid() && buf == old(buf)
        invariant Applying(was, order, layer, k, files, buf[..n])
      {
        ApplyStep(was, order, layer, k, files, buf[..n]);
        ApplyMarker(layer[k].path);
      }
      assert layer[..|layer|] == layer;
    }

    /** Second pass: the layer's own entries, markers left out. */
    method AddEntries(layer: Layer)
      requires Valid()
      modifies this, buf
      ensures Valid() && (buf == old(buf) || fresh(buf))
      ensures files == Added(old(files), layer)
      ensures buf[..n] == Appended(old(buf[..n]), layer)
    {
      ghost var was, before := files, buf[..n];
      NothingAdded(was, before, layer);
      for k := 0 to |layer|
        invariant Valid() && (buf == old(buf) || fresh(buf))
        invariant Adding(was, before, layer, k, files, buf[..n])
      {
        var clean := layer[k].path;
        AddStep(was, before, layer, k, files, buf[..n]);
        if clean == [] || IsMarkerName(Base(clean)) {
          continue;
        }
        Add(clean, layer[k]);
      }
      assert layer[..|layer|] == layer;
    }

    method MergeLayer(layer: Layer)
      requires Valid()
      modifies this, buf
      ensures Valid() && (buf == old(buf) || fresh(buf))
      ensures files == MergeStep(old(files), layer)
      ensures buf[..n] == Appended(Restrict(old(buf[..n]), Unhidden(old(files), layer).Keys), layer)
    {
      MergeStepIsTwoPasses(files, layer);
      ApplyMarkers(layer);
      AddEntries(layer);
    }
  }
}
