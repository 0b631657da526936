/** Sums over finite sets, independent of the order of summation. */
module Sums {

  ghost function SumOver<T(!new)>(s: set<T>, f: T -> nat): nat {
    if s == {} then 0 else
    var x :| x in s;
    f(x) + SumOver(s - {x}, f)
  }

  /** Any element may be summed first. */
  lemma {:induction false} SumPick<T(!new)>(s: set<T>, f: T -> nat, x: T)
    requires x in s
    ensures SumOver(s, f) == f(x) + SumOver(s - {x}, f)
    decreases |s|
  {
    var y :| y in s && SumOver(s, f) == f(y) + SumOver(s - {y}, f);
    if x != y {
      SumPick(s - {y}, f, x);
      SumPick(s - {x}, f, y);
      assert (s - {y}) - {x} == (s - {x}) - {y};
    }
  }

  lemma {:induction false} SumCongruent<T(!new)>(s: set<T>, f: T -> nat, g: T -> nat)
    requires forall x :: x in s ==> f(x) == g(x)
    ensures SumOver(s, f) == SumOver(s, g)
    decreases |s|
  {
    if s != {} {
      var x :| x in s;
      SumPick(s, f, x);
      SumPick(s, g, x);
      SumCongruent(s - {x}, f, g);
    }
  }

  lemma SumInsert<T(!new)>(s: set<T>, f: T -> nat, x: T)
    requires x !in s
    ensures SumOver(s + {x}, f) == SumOver(s, f) + f(x)
  {
    SumPick(s + {x}, f, x);
    assert (s + {x}) - {x} == s;
  }
}
