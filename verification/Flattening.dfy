/** What each element of a sequence yields, one after the other. */
module Flattening {
  function Flat<T, R>(f: T -> seq<R>, xs: seq<T>): seq<R> {
    if xs == [] then [] else Flat(f, xs[..|xs| - 1]) + f(xs[|xs| - 1])
  }

  lemma FlatSnoc<T, R>(f: T -> seq<R>, xs: seq<T>, x: T)
    ensures Flat(f, xs + [x]) == Flat(f, xs) + f(x)
  {
    assert (xs + [x])[..|xs|] == xs;
  }

  lemma {:induction false} FlatConcat<T, R>(f: T -> seq<R>, a: seq<T>, b: seq<T>)
    ensures Flat(f, a + b) == Flat(f, a) + Flat(f, b)
  {
    if b == [] {
      assert a + b == a;
    } else {
      var front, last := b[..|b| - 1], b[|b| - 1];
      assert b == front + [last] && a + b == (a + front) + [last];
      calc {
        Flat(f, a + b);
        { FlatSnoc(f, a + front, last); }
        Flat(f, a + front) + f(last);
        { FlatConcat(f, a, front); }
        Flat(f, a) + Flat(f, front) + f(last);
        Flat(f, a) + (Flat(f, front) + f(last));
        { FlatSnoc(f, front, last); }
        Flat(f, a) + Flat(f, b);
      }
    }
  }

  lemma {:induction false} FlatMember<T, R>(f: T -> seq<R>, xs: seq<T>, r: R)
    ensures r in Flat(f, xs) <==> exists i :: 0 <= i < |xs| && r in f(xs[i])
  {
    if xs != [] {
      var n := |xs| - 1;
      FlatMember(f, xs[..n], r);
      assert forall i :: 0 <= i < n ==> xs[..n][i] == xs[i];
    }
  }

  lemma ConcatCount<R>(a: seq<R>, b: seq<R>, r: R)
    ensures multiset(a + b)[r] == multiset(a)[r] + multiset(b)[r]
  {
    assert multiset(a + b) == multiset(a) + multiset(b);
  }

  /** Replacing one element changes the count of r by what that element yields. */
  lemma {:induction false} FlatUpdate<T, R>(f: T -> seq<R>, xs: seq<T>, i: nat, x: T, r: R)
    requires i < |xs|
    ensures multiset(Flat(f, xs[i := x]))[r] + multiset(f(xs[i]))[r] == multiset(Flat(f, xs))[r] + multiset(f(x))[r]
  {
    var front, last := xs[..|xs| - 1], xs[|xs| - 1];
    if i == |front| {
      assert xs[i := x] == front + [x] && xs == front + [last];
      FlatSnoc(f, front, x);
      ConcatCount(Flat(f, front), f(x), r);
    } else {
      FlatUpdate(f, front, i, x, r);
      assert xs[i := x] == front[i := x] + [last];
      FlatSnoc(f, front[i := x], last);
      ConcatCount(Flat(f, front[i := x]), f(last), r);
    }
    ConcatCount(Flat(f, front), f(last), r);
  }

  lemma {:induction false} FlatSame<T>(f: T -> seq<T>, xs: seq<T>)
    requires forall i :: 0 <= i < |xs| ==> f(xs[i]) == [xs[i]]
    ensures Flat(f, xs) == xs
  {
    if xs != [] {
      FlatSame(f, xs[..|xs| - 1]);
    }
  }

  lemma {:induction false} FlatNone<T, R>(f: T -> seq<R>, xs: seq<T>)
    requires forall i :: 0 <= i < |xs| ==> f(xs[i]) == []
    ensures Flat(f, xs) == []
  {
    if xs != [] {
      FlatNone(f, xs[..|xs| - 1]);
    }
  }
}
