/** Paths written with slashes, as replies and sort keys use them. */
module Rendering {
  import opened Paths
  import opened Ordering

  const SLASH: char := '/'

  function Render(p: Path): string {
    if p == [] then ""
    else if |p| == 1 then p[0]
    else p[0] + [SLASH] + Render(p[1..])
  }

  /** One name is written as it is, and two paths with a slash between them. */
  lemma {:induction false} RenderJoins(p: Path, q: Path)
    requires p != [] && q != []
    ensures Render(p + q) == Render(p) + "/" + Render(q)
    ensures |p| == 1 ==> Render(p) == p[0]
  {
    if |p| == 1 {
      assert (p + q)[1..] == q;
    } else {
      RenderJoins(p[1..], q);
      assert (p + q)[1..] == p[1..] + q;
    }
  }

  lemma SlashSplits(a: string, x: string, b: string, y: string)
    requires SLASH !in a && SLASH !in b && a + [SLASH] + x == b + [SLASH] + y
    ensures a == b && x == y
  {
    var s := a + [SLASH] + x;
    assert s[|a|] == SLASH && s[|b|] == SLASH;
    assert forall i :: 0 <= i < |a| ==> s[i] == a[i] && a[i] in a;
    assert forall i :: 0 <= i < |b| ==> s[i] == b[i] && b[i] in b;
    assert |a| == |b|;
    assert a == s[..|a|] && b == s[..|b|];
    assert x == s[|a| + 1..] && y == s[|b| + 1..];
  }

  lemma NotSplit(a: string, b: string, y: string)
    requires SLASH !in a
    ensures a != b + [SLASH] + y
  {
    assert (b + [SLASH] + y)[|b|] == SLASH;
    assert SLASH in b + [SLASH] + y;
  }

  /** Different paths are written differently. */
  lemma {:induction false} RenderInjective(p: Path, q: Path)
    requires IsSplit(p) && IsSplit(q) && Render(p) == Render(q)
    ensures p == q
  {
    if p == [] || q == [] {
      assert Render([]) == "";
      return;
    }
    NamesFromRender(p, q);
  }

  lemma {:induction false} NamesFromRender(p: Path, q: Path)
    requires p != [] && q != [] && Render(p) == Render(q)
    requires (forall i | 0 <= i < |p| :: SLASH !in p[i]) && (forall i | 0 <= i < |q| :: SLASH !in q[i])
    ensures p == q
  {
    if |p| > 1 && |q| > 1 {
      SlashSplits(p[0], Render(p[1..]), q[0], Render(q[1..]));
      NamesFromRender(p[1..], q[1..]);
      assert p == [p[0]] + p[1..] && q == [q[0]] + q[1..];
    } else if |p| == 1 && |q| > 1 {
      NotSplit(p[0], q[0], Render(q[1..]));
    } else if |q| == 1 && |p| > 1 {
      NotSplit(q[0], p[0], Render(p[1..]));
    }
  }

  /** Sorting items of distinct proper paths puts them in strictly increasing order. */
  lemma SortedPathsAreStrict<T>(path: T -> Path, xs: seq<T>, sorted: seq<T>)
    requires forall i, j :: 0 <= i < j < |xs| ==> path(xs[i]) != path(xs[j])
    requires forall x :: x in xs ==> IsSplit(path(x))
    requires Sorted((x: T) => Render(path(x)), sorted) && multiset(sorted) == multiset(xs)
    ensures StrictlySorted((x: T) => Render(path(x)), sorted)
    ensures forall x :: x in sorted <==> x in xs
    ensures forall i, j :: 0 <= i < j < |sorted| ==> path(sorted[i]) != path(sorted[j])
  {
    SameMultiset(sorted, xs);
    var key := (x: T) => Render(path(x));
    forall i, j | 0 <= i < j < |sorted|
      ensures path(sorted[i]) != path(sorted[j]) && key(sorted[i]) != key(sorted[j])
    {
      assert sorted[i] in xs && sorted[j] in xs;
      var a :| 0 <= a < |xs| && xs[a] == sorted[i];
      var b :| 0 <= b < |xs| && xs[b] == sorted[j];
      assert sorted[i] != sorted[j] && a != b;
      if key(sorted[i]) == key(sorted[j]) {
        RenderInjective(path(sorted[i]), path(sorted[j]));
      }
    }
    SortedDistinct(key, sorted);
  }
}
