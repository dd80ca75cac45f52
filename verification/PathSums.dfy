/** Sums over finite sets of paths. */
module PathSums {
  import opened Paths

  ghost function SumOver(s: set<Path>, f: Path -> int): int {
    if s == {} then 0
    else
      var p :| p in s;
      f(p) + SumOver(s - {p}, f)
  }

  lemma {:induction false} SumTake(s: set<Path>, f: Path -> int, p: Path)
    requires p in s
    ensures SumOver(s, f) == f(p) + SumOver(s - {p}, f)
  {
    var q :| q in s && SumOver(s, f) == f(q) + SumOver(s - {q}, f);
    if q != p {
      SumTake(s - {q}, f, p);
      SumTake(s - {p}, f, q);
      assert s - {q} - {p} == s - {p} - {q};
    }
  }

  lemma {:induction false} SumOfDifference(s: set<Path>, f: Path -> int, g: Path -> int, h: Path -> int)
    requires forall p :: p in s ==> h(p) == f(p) - g(p)
    ensures SumOver(s, h) == SumOver(s, f) - SumOver(s, g)
  {
    if s != {} {
      var p :| p in s;
      SumTake(s, f, p);
      SumTake(s, g, p);
      SumTake(s, h, p);
      SumOfDifference(s - {p}, f, g, h);
    }
  }

  /** Terms that are zero need not be summed. */
  lemma {:induction false} SumWhereNonzero(s: set<Path>, t: set<Path>, f: Path -> int, g: Path -> int)
    requires t <= s
    requires forall p :: p in t ==> f(p) == g(p)
    requires forall p :: p in s - t ==> f(p) == 0
    ensures SumOver(s, f) == SumOver(t, g)
  {
    if s != {} {
      var p :| p in s;
      SumTake(s, f, p);
      if p in t {
        SumTake(t, g, p);
        SumWhereNonzero(s - {p}, t - {p}, f, g);
      } else {
        SumWhereNonzero(s - {p}, t, f, g);
      }
    }
  }

  /** A sum of non-negative terms is zero exactly when every term is. */
  lemma {:induction false} SumIsZero(s: set<Path>, f: Path -> int)
    requires forall p :: p in s ==> f(p) >= 0
    ensures SumOver(s, f) >= 0
    ensures SumOver(s, f) == 0 <==> forall p :: p in s ==> f(p) == 0
  {
    if s != {} {
      var p :| p in s;
      SumTake(s, f, p);
      SumIsZero(s - {p}, f);
      forall q | q in s && f(q) != 0
        ensures SumOver(s, f) != 0
      {
        SumTake(s, f, q);
        SumIsZero(s - {q}, f);
      }
    }
  }
}
