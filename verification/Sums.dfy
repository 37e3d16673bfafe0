/** Sums over sequences. */
module Sums {
  function Sum<T>(xs: seq<T>, f: T -> int): int {
    if xs == [] then 0 else Sum(xs[..|xs| - 1], f) + f(xs[|xs| - 1])
  }

  lemma {:induction false} SumAt<T>(xs: seq<T>, f: T -> int, i: int, x: T)
    requires 0 <= i < |xs|
    ensures Sum(xs[i := x], f) == Sum(xs, f) - f(xs[i]) + f(x)
  {
    var n := |xs| - 1;
    if i == n {
      assert xs[i := x][..n] == xs[..n];
    } else {
      SumAt(xs[..n], f, i, x);
      assert xs[i := x][..n] == xs[..n][i := x];
    }
  }

  lemma {:induction false} SumNonNegative<T>(xs: seq<T>, f: T -> int)
    requires forall k :: 0 <= k < |xs| ==> f(xs[k]) >= 0
    ensures Sum(xs, f) >= 0
  {
    if xs != [] {
      SumNonNegative(xs[..|xs| - 1], f);
    }
  }

  lemma {:induction false} SumBound<T>(xs: seq<T>, f: T -> int, i: int)
    requires 0 <= i < |xs| && forall k :: 0 <= k < |xs| ==> f(xs[k]) >= 0
    ensures Sum(xs, f) >= f(xs[i]) >= 0
  {
    var n := |xs| - 1;
    SumNonNegative(xs[..n], f);
    if i < n {
      SumBound(xs[..n], f, i);
    }
  }

  lemma {:induction false} SumBound2<T>(xs: seq<T>, f: T -> int, i: int, j: int)
    requires 0 <= i < j < |xs| && forall k :: 0 <= k < |xs| ==> f(xs[k]) >= 0
    ensures Sum(xs, f) >= f(xs[i]) + f(xs[j])
  {
    var n := |xs| - 1;
    if j == n {
      SumBound(xs[..n], f, i);
    } else {
      SumBound2(xs[..n], f, i, j);
    }
  }

  lemma {:induction false} SumZero<T>(xs: seq<T>, f: T -> int)
    requires forall k :: 0 <= k < |xs| ==> f(xs[k]) == 0
    ensures Sum(xs, f) == 0
  {
    if xs != [] {
      SumZero(xs[..|xs| - 1], f);
    }
  }

  lemma SumPush<T>(xs: seq<T>, f: T -> int, x: T)
    ensures Sum(xs + [x], f) == Sum(xs, f) + f(x)
  {
    assert (xs + [x])[..|xs|] == xs;
  }
}
