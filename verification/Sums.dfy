/** Sums over finite sets, whose elements have no order. */
module Sums {

  ghost function SumOver<T>(s: set<T>, f: T -> nat): nat {
    if s == {} then 0 else
    var x :| x in s;
    f(x) + SumOver(s - {x}, f)
  }

  /** Any element may be taken out first. */
  lemma {:induction false} SumSplit<T>(s: set<T>, x: T, f: T -> nat)
    requires x in s
    ensures SumOver(s, f) == f(x) + SumOver(s - {x}, f)
  {
    var first :| first in s && SumOver(s, f) == f(first) + SumOver(s - {first}, f);
    if first != x {
      SumSplit(s - {first}, x, f);
      SumSplit(s - {x}, first, f);
      assert s - {first} - {x} == s - {x} - {first};
    }
  }

  lemma {:induction false} SumAgrees<T>(s: set<T>, f: T -> nat, g: T -> nat)
    requires forall x :: x in s ==> f(x) == g(x)
    ensures SumOver(s, f) == SumOver(s, g)
  {
    if s != {} {
      var x :| x in s;
      SumSplit(s, x, f);
      SumSplit(s, x, g);
      SumAgrees(s - {x}, f, g);
    }
  }

  lemma {:induction false} SumOfFewer<T>(s: set<T>, more: set<T>, f: T -> nat)
    requires s <= more
    ensures SumOver(s, f) <= SumOver(more, f)
  {
    if s != {} {
      var x :| x in s;
      SumSplit(s, x, f);
      SumSplit(more, x, f);
      SumOfFewer(s - {x}, more - {x}, f);
    }
  }
}
