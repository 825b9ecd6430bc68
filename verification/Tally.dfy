/** Adding a quantity up over all threads (or any other sequence). */
module Tally {

  function Sum<T>(xs: seq<T>, f: T -> int): int {
    if xs == [] then 0 else Sum(xs[..|xs| - 1], f) + f(xs[|xs| - 1])
  }

  /** Changing one entry changes the sum by the difference. */
  lemma {:induction false} SumUpdate<T>(xs: seq<T>, f: T -> int, i: nat, v: T)
    requires i < |xs|
    ensures Sum(xs[i := v], f) == Sum(xs, f) - f(xs[i]) + f(v)
  {
    var n := |xs| - 1;
    if i < n {
      SumUpdate(xs[..n], f, i, v);
      assert xs[i := v][..n] == xs[..n][i := v];
    } else {
      assert xs[i := v][..n] == xs[..n];
    }
  }

  /** A sum of quantities that are never negative is at least each of them. */
  lemma {:induction false} SumAtLeast<T(!new)>(xs: seq<T>, f: T -> int, i: nat)
    requires i < |xs|
    requires forall x :: f(x) >= 0
    ensures Sum(xs, f) >= f(xs[i])
  {
    var n := |xs| - 1;
    SumNonNegative(xs[..n], f);
    if i < n {
      SumAtLeast(xs[..n], f, i);
      assert xs[..n][i] == xs[i];
    }
  }

  lemma {:induction false} SumNonNegative<T(!new)>(xs: seq<T>, f: T -> int)
    requires forall x :: f(x) >= 0
    ensures Sum(xs, f) >= 0
  {
    if xs != [] {
      SumNonNegative(xs[..|xs| - 1], f);
    }
  }

  /** Nothing contributes: the sum is zero, and for non-negative quantities also conversely. */
  lemma {:induction false} SumZero<T(!new)>(xs: seq<T>, f: T -> int)
    requires forall x :: f(x) >= 0
    ensures Sum(xs, f) == 0 <==> forall i :: 0 <= i < |xs| ==> f(xs[i]) == 0
  {
    if xs != [] {
      var n := |xs| - 1;
      SumZero(xs[..n], f);
      SumNonNegative(xs[..n], f);
      assert forall i :: 0 <= i < n ==> xs[..n][i] == xs[i];
      assert Sum(xs, f) == 0 <==> Sum(xs[..n], f) == 0 && f(xs[n]) == 0;
    }
  }

  lemma {:induction false} SumAtMost<T(!new)>(xs: seq<T>, f: T -> int, bound: int)
    requires forall x :: f(x) <= bound
    ensures Sum(xs, f) <= bound * |xs|
  {
    if xs != [] {
      SumAtMost(xs[..|xs| - 1], f, bound);
    }
  }
}
