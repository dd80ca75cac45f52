/** The byte-wise order on strings, and sorting by a string key. */
module Ordering {
  import opened Paths

  /** a comes strictly before b. */
  predicate Less(a: string, b: string) {
    if b == "" then false
    else if a == "" then true
    else a[0] < b[0] || (a[0] == b[0] && Less(a[1..], b[1..]))
  }

  /** They agree up to some place, where a has the smaller character. */
  ghost predicate SmallerAt(a: string, b: string, i: int) {
    0 <= i < |a| && i < |b| && a[..i] == b[..i] && a[i] < b[i]
  }

  lemma SmallerLater(a: string, b: string, i: nat)
    requires a != "" && b != "" && a[0] == b[0]
    ensures SmallerAt(a[1..], b[1..], i) <==> SmallerAt(a, b, i + 1)
  {
    if i + 1 < |a| && i + 1 < |b| {
      assert a[..i + 1] == [a[0]] + a[1..][..i] && b[..i + 1] == [b[0]] + b[1..][..i];
      assert a[1..][..i] == a[..i + 1][1..] && b[1..][..i] == b[..i + 1][1..];
    }
  }

  /** The shorter of two strings that agree comes first; else the one with the smaller character where
      they first differ. */
  lemma {:induction false} LessExactly(a: string, b: string)
    ensures Less(a, b) <==> a < b || exists i :: SmallerAt(a, b, i)
  {
    if a != "" && b != "" {
      LessExactly(a[1..], b[1..]);
      assert a == [a[0]] + a[1..] && b == [b[0]] + b[1..];
      if a[0] == b[0] {
        if i :| SmallerAt(a, b, i) { SmallerLater(a, b, i - 1); }
        if i :| SmallerAt(a[1..], b[1..], i) { SmallerLater(a, b, i); }
      } else {
        assert SmallerAt(a, b, 0) <==> a[0] < b[0];
        assert forall i :: SmallerAt(a, b, i) && i > 0 ==> a[..i][0] == b[..i][0];
      }
    }
  }

  lemma {:induction false} LessTotal(a: string, b: string)
    ensures Less(a, b) || a == b || Less(b, a)
    ensures !(Less(a, b) && Less(b, a)) && !Less(a, a)
  {
    if a != "" && b != "" {
      LessTotal(a[1..], b[1..]);
      assert a == [a[0]] + a[1..] && b == [b[0]] + b[1..];
    }
    if a != "" {
      LessTotal(a[1..], a[1..]);
    }
  }

  lemma {:induction false} LessTransitive(a: string, b: string, c: string)
    requires Less(a, b) && Less(b, c)
    ensures Less(a, c)
  {
    if a != "" && a[0] == b[0] == c[0] {
      LessTransitive(a[1..], b[1..], c[1..]);
    }
  }

  ghost predicate Sorted<T>(key: T -> string, xs: seq<T>) {
    forall i, j :: 0 <= i < j < |xs| ==> !Less(key(xs[j]), key(xs[i]))
  }

  ghost predicate StrictlySorted<T>(key: T -> string, xs: seq<T>) {
    forall i, j :: 0 <= i < j < |xs| ==> Less(key(xs[i]), key(xs[j]))
  }

  /** Sorted without equal keys is strictly sorted. */
  lemma SortedDistinct<T>(key: T -> string, xs: seq<T>)
    requires Sorted(key, xs)
    requires forall i, j :: 0 <= i < j < |xs| ==> key(xs[i]) != key(xs[j])
    ensures StrictlySorted(key, xs)
  {
    forall i, j | 0 <= i < j < |xs|
      ensures Less(key(xs[i]), key(xs[j]))
    {
      LessTotal(key(xs[i]), key(xs[j]));
    }
  }

  lemma SortedTail<T>(key: T -> string, xs: seq<T>)
    requires StrictlySorted(key, xs) && xs != []
    ensures StrictlySorted(key, xs[1..]) && xs[0] !in xs[1..]
  {
    if xs[0] in xs[1..] {
      var j :| 1 <= j < |xs| && xs[j] == xs[0];
      LessTotal(key(xs[0]), key(xs[j]));
    }
  }

  lemma NonEmptyHas<T>(xs: seq<T>)
    ensures xs == [] || exists x :: x in xs
  {
    if xs != [] { assert xs[0] in xs; }
  }

  /** A strictly sorted list is determined by what it contains. */
  lemma {:induction false} StrictlySortedUnique<T>(key: T -> string, xs: seq<T>, ys: seq<T>)
    requires StrictlySorted(key, xs) && StrictlySorted(key, ys)
    requires forall x :: x in xs <==> x in ys
    ensures xs == ys
  {
    if xs == [] {
      NonEmptyHas(ys);
    } else {
      assert xs[0] in xs;
      assert ys != [];
      assert ys[0] in ys;
      var i :| 0 <= i < |xs| && xs[i] == ys[0];
      var j :| 0 <= j < |ys| && ys[j] == xs[0];
      LessTotal(key(xs[0]), key(ys[0]));
      assert xs[0] == ys[0];
      SortedTail(key, xs);
      SortedTail(key, ys);
      forall x
        ensures x in xs[1..] <==> x in ys[1..]
      {
        assert x in xs <==> x == xs[0] || x in xs[1..];
        assert x in ys <==> x == ys[0] || x in ys[1..];
      }
      StrictlySortedUnique(key, xs[1..], ys[1..]);
    }
  }

  /** The library sort, by insertion. */
  method SortBy<T>(key: T -> string, xs: seq<T>) returns (ys: seq<T>)
    ensures Sorted(key, ys)
    ensures multiset(ys) == multiset(xs)
  {
    ys := [];
    for i := 0 to |xs|
      invariant Sorted(key, ys)
      invariant multiset(ys) == multiset(xs[..i])
    {
      var j := 0;
      while j < |ys| && !Less(key(xs[i]), key(ys[j]))
        invariant 0 <= j <= |ys|
        invariant forall k :: 0 <= k < j ==> !Less(key(xs[i]), key(ys[k]))
      {
        j := j + 1;
      }
      InsertKeepsSorted(key, ys, xs[i], j);
      assert xs[..i + 1] == xs[..i] + [xs[i]];
      assert ys == ys[..j] + ys[j..];
      ys := ys[..j] + [xs[i]] + ys[j..];
    }
    assert xs[..|xs|] == xs;
  }

  lemma InsertKeepsSorted<T>(key: T -> string, ys: seq<T>, x: T, j: nat)
    requires Sorted(key, ys) && j <= |ys|
    requires forall k :: 0 <= k < j ==> !Less(key(x), key(ys[k]))
    requires j < |ys| ==> Less(key(x), key(ys[j]))
    ensures Sorted(key, ys[..j] + [x] + ys[j..])
  {
    var zs := ys[..j] + [x] + ys[j..];
    forall a, b | 0 <= a < b < |zs|
      ensures !Less(key(zs[b]), key(zs[a]))
    {
      if a == j {
        var y := ys[b - 1];
        LessTotal(key(x), key(ys[j]));
        LessTotal(key(x), key(y));
        if Less(key(y), key(x)) {
          LessTransitive(key(y), key(x), key(ys[j]));
        }
      }
    }
  }

  /** The members of a set that are not left are listed, each once. */
  ghost predicate ListsRest(names: set<Name>, rest: set<Name>, listed: seq<Name>) {
    && (forall n :: n in listed <==> n in names && n !in rest)
    && (forall i, j :: 0 <= i < j < |listed| ==> listed[i] != listed[j])
    && |listed| + |rest| == |names|
  }

  lemma ListOneMore(names: set<Name>, rest: set<Name>, listed: seq<Name>, n: Name)
    requires rest <= names && n in rest && ListsRest(names, rest, listed)
    ensures ListsRest(names, rest - {n}, listed + [n])
  {
    var more := listed + [n];
    forall i, j | 0 <= i < j < |more|
      ensures more[i] != more[j]
    {
      assert more[i] in listed;
    }
  }

  /** Set members in name order: what sorting the keys of a map yields. */
  method SortedNames(names: set<Name>) returns (sorted: seq<Name>)
    ensures StrictlySorted((n: Name) => n, sorted)
    ensures forall n :: n in sorted <==> n in names
    ensures |sorted| == |names|
  {
    var listed: seq<Name> := [];
    var rest := names;
    while rest != {}
      invariant rest <= names && ListsRest(names, rest, listed)
      decreases |rest|
    {
      var n :| n in rest;
      ListOneMore(names, rest, listed, n);
      listed := listed + [n];
      rest := rest - {n};
    }
    sorted := SortBy((n: Name) => n, listed);
    SameMultiset(sorted, listed);
    SortedDistinct((n: Name) => n, sorted);
  }

  /** A rearrangement has the same members, and repeats none if the original repeats none. */
  lemma SameMultiset<T>(xs: seq<T>, ys: seq<T>)
    requires multiset(xs) == multiset(ys)
    ensures |xs| == |ys| && (forall x :: x in xs <==> x in ys)
    ensures (forall i, j :: 0 <= i < j < |ys| ==> ys[i] != ys[j]) ==>
              forall i, j :: 0 <= i < j < |xs| ==> xs[i] != xs[j]
  {
    assert |multiset(xs)| == |xs| && |multiset(ys)| == |ys|;
    forall x
      ensures x in xs <==> x in ys
    {
      assert x in multiset(xs) <==> x in multiset(ys);
    }
    if forall i, j :: 0 <= i < j < |ys| ==> ys[i] != ys[j] {
      forall i, j | 0 <= i < j < |xs|
        ensures xs[i] != xs[j]
      {
        if xs[i] == xs[j] {
          assert xs == xs[..i] + [xs[i]] + xs[i + 1..j] + [xs[j]] + xs[j + 1..];
          assert multiset(xs)[xs[i]] >= 2;
          DistinctOnce(ys, xs[i]);
        }
      }
    }
  }

  lemma {:induction false} DistinctOnce<T>(ys: seq<T>, y: T)
    requires forall i, j :: 0 <= i < j < |ys| ==> ys[i] != ys[j]
    ensures multiset(ys)[y] <= 1
  {
    if ys != [] {
      var last := |ys| - 1;
      assert ys == ys[..last] + [ys[last]];
      DistinctOnce(ys[..last], y);
      if y in ys[..last] {
        assert ys[last] != y;
      } else {
        assert y !in multiset(ys[..last]);
      }
    }
  }
}
