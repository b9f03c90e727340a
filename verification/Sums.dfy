/** Sums of a measure over the elements of a sequence. */
module Sums {
  function Sum<T>(f: T -> nat, xs: seq<T>): nat {
    if xs == [] then 0 else Sum(f, xs[..|xs| - 1]) + f(xs[|xs| - 1])
  }

  lemma {:induction false} SumUpdate<T>(f: T -> nat, xs: seq<T>, i: nat, x: T)
    requires i < |xs|
    ensures Sum(f, xs[i := x]) + f(xs[i]) == Sum(f, xs) + f(x)
  {
    var n := |xs| - 1;
    if i == n {
      assert xs[i := x][..n] == xs[..n];
    } else {
      SumUpdate(f, xs[..n], i, x);
      assert xs[i := x][..n] == xs[..n][i := x];
    }
  }

  lemma SumAppend<T>(f: T -> nat, xs: seq<T>, x: T)
    ensures Sum(f, xs + [x]) == Sum(f, xs) + f(x)
  {
    assert (xs + [x])[..|xs|] == xs;
  }

  lemma {:induction false} SumPositive<T>(f: T -> nat, xs: seq<T>)
    ensures Sum(f, xs) > 0 <==> exists i :: 0 <= i < |xs| && f(xs[i]) > 0
  {
    if xs != [] {
      var n := |xs| - 1;
      SumPositive(f, xs[..n]);
      if Sum(f, xs[..n]) > 0 {
        var i :| 0 <= i < n && f(xs[..n][i]) > 0;
        assert f(xs[i]) > 0;
      }
      if i :| 0 <= i < |xs| && f(xs[i]) > 0 {
        if i < n { assert xs[..n][i] == xs[i]; }
      }
    }
  }

  /** A sum is at least the measure of each element. */
  lemma {:induction false} SumAtLeast<T>(f: T -> nat, xs: seq<T>, i: nat)
    requires i < |xs|
    ensures Sum(f, xs) >= f(xs[i])
  {
    var n := |xs| - 1;
    if i < n {
      SumAtLeast(f, xs[..n], i);
      assert xs[..n][i] == xs[i];
    }
  }
}
