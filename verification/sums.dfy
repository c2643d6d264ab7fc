/** Sums of an integer-valued measure over a sequence, the shape of Python's
    `sum(f(x) for x in xs)` and of a running total kept line by line. */
module Sums {

  /** Sum of `f` over `xs`, accumulated left to right. */
  function Sum<T>(xs: seq<T>, f: T -> int): int
    decreases |xs|
  {
    if |xs| == 0 then 0 else Sum(xs[..|xs| - 1], f) + f(xs[|xs| - 1])
  }

  /** Appending one element adds its measure. */
  lemma SumAppend<T>(xs: seq<T>, x: T, f: T -> int)
    ensures Sum(xs + [x], f) == Sum(xs, f) + f(x)
  {
    assert (xs + [x])[..|xs|] == xs;
  }

  /** Replacing one element changes the sum by exactly the change of its measure. */
  lemma {:induction false} SumUpdate<T>(xs: seq<T>, i: nat, x: T, f: T -> int)
    requires i < |xs|
    ensures Sum(xs[i := x], f) == Sum(xs, f) - f(xs[i]) + f(x)
    decreases |xs|
  {
    var n := |xs| - 1;
    if i < n {
      assert xs[i := x][..n] == xs[..n][i := x];
      SumUpdate(xs[..n], i, x, f);
    } else {
      assert xs[i := x][..n] == xs[..n];
    }
  }

  /** Two sequences whose elements have pointwise equal measures have equal sums. */
  lemma {:induction false} SumPointwise<T, U>(xs: seq<T>, f: T -> int, ys: seq<U>, g: U -> int)
    requires |xs| == |ys|
    requires forall i :: 0 <= i < |xs| ==> f(xs[i]) == g(ys[i])
    ensures Sum(xs, f) == Sum(ys, g)
    decreases |xs|
  {
    if |xs| > 0 {
      SumPointwise(xs[..|xs| - 1], f, ys[..|ys| - 1], g);
    }
  }

  /** A sum of non-negative measures is non-negative. */
  lemma {:induction false} SumNonNegative<T>(xs: seq<T>, f: T -> int)
    requires forall i :: 0 <= i < |xs| ==> f(xs[i]) >= 0
    ensures Sum(xs, f) >= 0
    decreases |xs|
  {
    if |xs| > 0 {
      SumNonNegative(xs[..|xs| - 1], f);
    }
  }

  /** A non-empty sum of positive measures is positive. */
  lemma {:induction false} SumPositive<T>(xs: seq<T>, f: T -> int)
    requires |xs| > 0
    requires forall i :: 0 <= i < |xs| ==> f(xs[i]) > 0
    ensures Sum(xs, f) > 0
    decreases |xs|
  {
    if |xs| > 1 {
      SumPositive(xs[..|xs| - 1], f);
    }
  }
}
