/** Sums over a sequence of a number each element contributes. */
module Sums {

  function SumBy<T>(xs: seq<T>, f: T -> nat): nat {
    if xs == [] then 0 else f(xs[0]) + SumBy(xs[1..], f)
  }

  lemma {:induction false} SumByUpdate<T>(xs: seq<T>, i: nat, x: T, f: T -> nat)
    requires i < |xs|
    ensures SumBy(xs[i := x], f) + f(xs[i]) == SumBy(xs, f) + f(x)
  {
    if i == 0 {
      assert xs[0 := x][1..] == xs[1..];
    } else {
      assert xs[i := x][1..] == xs[1..][i - 1 := x];
      SumByUpdate(xs[1..], i - 1, x, f);
    }
  }

  lemma {:induction false} SumByMember<T>(xs: seq<T>, i: nat, f: T -> nat)
    requires i < |xs|
    ensures f(xs[i]) <= SumBy(xs, f)
  {
    if i > 0 {
      SumByMember(xs[1..], i - 1, f);
    }
  }

  lemma {:induction false} SumByAdd<T>(xs: seq<T>, f: T -> nat, g: T -> nat, h: T -> nat)
    requires forall i | 0 <= i < |xs| :: f(xs[i]) == g(xs[i]) + h(xs[i])
    ensures SumBy(xs, f) == SumBy(xs, g) + SumBy(xs, h)
  {
    if xs != [] {
      SumByAdd(xs[1..], f, g, h);
    }
  }

  lemma {:induction false} SumBySame<T>(xs: seq<T>, f: T -> nat, g: T -> nat)
    requires forall i | 0 <= i < |xs| :: f(xs[i]) == g(xs[i])
    ensures SumBy(xs, f) == SumBy(xs, g)
  {
    if xs != [] {
      SumBySame(xs[1..], f, g);
    }
  }

  lemma {:induction false} SumByZero<T>(xs: seq<T>, f: T -> nat)
    requires forall i | 0 <= i < |xs| :: f(xs[i]) == 0
    ensures SumBy(xs, f) == 0
  {
    if xs != [] {
      SumByZero(xs[1..], f);
    }
  }

  lemma {:induction false} SumByZeroExactly<T>(xs: seq<T>, f: T -> nat)
    ensures SumBy(xs, f) == 0 <==> forall i | 0 <= i < |xs| :: f(xs[i]) == 0
  {
    if forall i | 0 <= i < |xs| :: f(xs[i]) == 0 {
      SumByZero(xs, f);
    } else {
      var i :| 0 <= i < |xs| && f(xs[i]) != 0;
      SumByMember(xs, i, f);
    }
  }

  lemma {:induction false} SumByBound<T>(xs: seq<T>, f: T -> nat, bound: nat)
    requires forall i | 0 <= i < |xs| :: f(xs[i]) <= bound
    ensures SumBy(xs, f) <= |xs| * bound
  {
    if xs != [] {
      SumByBound(xs[1..], f, bound);
      assert |xs| * bound == bound + |xs[1..]| * bound;
    }
  }

  lemma {:induction false} SumByEach<T>(xs: seq<T>, f: T -> nat, each: nat)
    requires forall i | 0 <= i < |xs| :: f(xs[i]) == each
    ensures SumBy(xs, f) == |xs| * each
  {
    if xs != [] {
      SumByEach(xs[1..], f, each);
      assert |xs| * each == each + |xs[1..]| * each;
    }
  }

  lemma {:induction false} SumByConcat<T>(xs: seq<T>, ys: seq<T>, f: T -> nat)
    ensures SumBy(xs + ys, f) == SumBy(xs, f) + SumBy(ys, f)
  {
    if xs == [] {
      assert xs + ys == ys;
    } else {
      assert (xs + ys)[1..] == xs[1..] + ys;
      SumByConcat(xs[1..], ys, f);
    }
  }
}
