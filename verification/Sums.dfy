/** Weighted sums over sequences. */
module Sums {
  function SumOf<T>(xs: seq<T>, w: T -> nat): nat {
    if xs == [] then 0 else SumOf(xs[..|xs| - 1], w) + w(xs[|xs| - 1])
  }

  lemma {:induction false} SumAppend<T>(xs: seq<T>, x: T, w: T -> nat)
    ensures SumOf(xs + [x], w) == SumOf(xs, w) + w(x)
  {
    assert (xs + [x])[..|xs|] == xs;
  }

  lemma {:induction false} SumUpdate<T>(xs: seq<T>, i: nat, x: T, w: T -> nat)
    requires i < |xs|
    ensures SumOf(xs[i := x], w) + w(xs[i]) == SumOf(xs, w) + w(x)
  {
    var n := |xs| - 1;
    if i < n {
      SumUpdate(xs[..n], i, x, w);
      assert xs[i := x][..n] == xs[..n][i := x];
    } else {
      assert xs[i := x][..n] == xs[..n];
    }
  }

  lemma {:induction false} SumZero<T>(xs: seq<T>, w: T -> nat)
    requires forall x :: x in xs ==> w(x) == 0
    ensures SumOf(xs, w) == 0
  {
    if xs != [] {
      SumZero(xs[..|xs| - 1], w);
    }
  }

  lemma {:induction false} SumPositive<T>(xs: seq<T>, w: T -> nat) returns (i: nat)
    requires SumOf(xs, w) > 0
    ensures i < |xs| && w(xs[i]) > 0
  {
    var n := |xs| - 1;
    if w(xs[n]) > 0 {
      i := n;
    } else {
      i := SumPositive(xs[..n], w);
    }
  }
}
