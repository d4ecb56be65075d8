/** Sums over a finite set of ids, in no particular order: what `sum(...)` over a table's rows is. */
module Sums {
  lemma NonEmpty(s: set<int>)
    ensures s == {} || exists x :: x in s
  {
    if forall x :: x !in s {
      assert s == {};
    }
  }

  ghost function Sum(s: set<int>, f: int -> int): int
    decreases s
  {
    if s == {} then 0
    else
      NonEmpty(s);
      var x :| x in s;
      f(x) + Sum(s - {x}, f)
  }

  /** Any element can be the one taken off first. */
  lemma {:induction false} SumWithout(s: set<int>, x: int, f: int -> int)
    requires x in s
    ensures Sum(s, f) == f(x) + Sum(s - {x}, f)
    decreases s
  {
    var first :| first in s && Sum(s, f) == f(first) + Sum(s - {first}, f);
    if first != x {
      SumWithout(s - {first}, x, f);
      SumWithout(s - {x}, first, f);
      assert s - {first} - {x} == s - {x} - {first};
    }
  }

  lemma {:induction false} SumSame(s: set<int>, f: int -> int, g: int -> int)
    requires forall x :: x in s ==> f(x) == g(x)
    ensures Sum(s, f) == Sum(s, g)
    decreases s
  {
    if s != {} {
      NonEmpty(s);
      var x :| x in s;
      SumWithout(s, x, f);
      SumWithout(s, x, g);
      SumSame(s - {x}, f, g);
    }
  }

  lemma {:induction false} SumNotNegative(s: set<int>, f: int -> int)
    requires forall x :: x in s ==> 0 <= f(x)
    ensures 0 <= Sum(s, f)
    decreases s
  {
    if s != {} {
      NonEmpty(s);
      var x :| x in s;
      SumWithout(s, x, f);
      SumNotNegative(s - {x}, f);
    }
  }

  /** Two sums that agree everywhere but at `x` differ by what they say about `x`. */
  lemma SumDelta(s: set<int>, f: int -> int, t: set<int>, g: int -> int, x: int)
    requires s - {x} == t - {x}
    requires forall y :: y in s && y != x ==> f(y) == g(y)
    requires x !in s ==> f(x) == 0
    requires x !in t ==> g(x) == 0
    ensures Sum(t, g) - Sum(s, f) == g(x) - f(x)
  {
    if x in s { SumWithout(s, x, f); } else { assert s - {x} == s; }
    if x in t { SumWithout(t, x, g); } else { assert t - {x} == t; }
    SumSame(s - {x}, f, g);
  }
}
