/** Sums of an integer-valued function over a finite set. */
module Sums {

  ghost function Sum<T(!new)>(s: set<T>, f: T -> int): int {
    if s == {} then 0
    else
      var x :| x in s;
      f(x) + Sum(s - {x}, f)
  }

  lemma {:induction false} SumRemove<T(!new)>(s: set<T>, f: T -> int, x: T)
    requires x in s
    ensures Sum(s, f) == f(x) + Sum(s - {x}, f)
    decreases s
  {
    var y :| y in s && Sum(s, f) == f(y) + Sum(s - {y}, f);
    if y != x {
      SumRemove(s - {y}, f, x);
      SumRemove(s - {x}, f, y);
      assert s - {y} - {x} == s - {x} - {y};
    }
  }

  lemma {:induction false} SumCongruent<T(!new)>(s: set<T>, f: T -> int, g: T -> int)
    requires forall x :: x in s ==> f(x) == g(x)
    ensures Sum(s, f) == Sum(s, g)
    decreases s
  {
    if s != {} {
      var x :| x in s;
      SumRemove(s, f, x);
      SumRemove(s, g, x);
      SumCongruent(s - {x}, f, g);
    }
  }

  lemma {:induction false} SumAdd<T(!new)>(s: set<T>, f: T -> int, g: T -> int, h: T -> int)
    requires forall x :: x in s ==> h(x) == f(x) + g(x)
    ensures Sum(s, h) == Sum(s, f) + Sum(s, g)
    decreases s
  {
    if s != {} {
      var x :| x in s;
      SumRemove(s, f, x);
      SumRemove(s, g, x);
      SumRemove(s, h, x);
      SumAdd(s - {x}, f, g, h);
    }
  }

  lemma {:induction false} SumZero<T(!new)>(s: set<T>, f: T -> int)
    requires forall x :: x in s ==> f(x) == 0
    ensures Sum(s, f) == 0
    decreases s
  {
    if s != {} {
      var x :| x in s;
      SumRemove(s, f, x);
      SumZero(s - {x}, f);
    }
  }

  /** Elements on which the function is zero do not count. */
  lemma {:induction false} SumExtend<T(!new)>(s: set<T>, t: set<T>, f: T -> int)
    requires s <= t && forall x :: x in t - s ==> f(x) == 0
    ensures Sum(t, f) == Sum(s, f)
    decreases t
  {
    if t - s == {} {
      assert forall x :: x in t ==> x in s || x in t - s;
      assert t == s;
    } else {
      var x :| x in t - s;
      SumRemove(t, f, x);
      SumExtend(s, t - {x}, f);
    }
  }

  lemma {:induction false} SumAtLeast<T(!new)>(s: set<T>, f: T -> int, x: T)
    requires forall y :: y in s ==> f(y) >= 0
    ensures Sum(s, f) >= 0
    ensures x in s ==> Sum(s, f) >= f(x)
    decreases s
  {
    if s != {} {
      var y := if x in s then x else var z :| z in s; z;
      SumRemove(s, f, y);
      SumAtLeast(s - {y}, f, y);
    }
  }

  /** Changing the function at one point, which may be new to the set. */
  lemma SumUpdate<T(!new)>(s: set<T>, f: T -> int, t: set<T>, g: T -> int, x: T)
    requires t == s + {x}
    requires forall y :: y in s && y != x ==> f(y) == g(y)
    ensures Sum(t, g) == Sum(s, f) + g(x) - (if x in s then f(x) else 0)
  {
    SumRemove(t, g, x);
    if x in s { SumRemove(s, f, x); }
    assert t - {x} == s - {x};
    SumCongruent(s - {x}, f, g);
  }
}
