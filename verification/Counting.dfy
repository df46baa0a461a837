/** Occurrences of a value in a sequence: the counting arguments about threads rest on these. */
module Counting {

  function Count<X(==)>(xs: seq<X>, x: X): nat {
    if xs == [] then 0
    else Count(xs[..|xs| - 1], x) + if xs[|xs| - 1] == x then 1 else 0
  }

  lemma {:induction false} CountUpdate<X>(xs: seq<X>, i: nat, y: X, x: X)
    requires i < |xs|
    ensures Count(xs[i := y], x) == Count(xs, x) - (if xs[i] == x then 1 else 0) + (if y == x then 1 else 0)
    ensures Count(xs, xs[i]) >= 1
  {
    var n := |xs| - 1;
    if i == n {
      assert xs[i := y][..n] == xs[..n];
    } else {
      assert xs[i := y][..n] == xs[..n][i := y];
      CountUpdate(xs[..n], i, y, x);
    }
  }

  lemma CountSnoc<X>(xs: seq<X>, y: X, x: X)
    ensures Count(xs + [y], x) == Count(xs, x) + if y == x then 1 else 0
  {
    assert (xs + [y])[..|xs|] == xs;
  }

  lemma {:induction false} CountAppend<X>(xs: seq<X>, ys: seq<X>, x: X)
    ensures Count(xs + ys, x) == Count(xs, x) + Count(ys, x)
  {
    if ys == [] {
      assert xs + ys == xs;
    } else {
      var n := |ys| - 1;
      assert xs + ys == (xs + ys[..n]) + [ys[n]];
      CountSnoc(xs + ys[..n], ys[n], x);
      CountAppend(xs, ys[..n], x);
    }
  }

  lemma {:induction false} CountZero<X>(xs: seq<X>, x: X)
    ensures Count(xs, x) == 0 <==> x !in xs
  {
    if xs != [] {
      CountZero(xs[..|xs| - 1], x);
      assert xs == xs[..|xs| - 1] + [xs[|xs| - 1]];
    }
  }

  lemma {:induction false} CountAtMost<X>(xs: seq<X>, x: X)
    ensures Count(xs, x) <= |xs|
  {
    if xs != [] { CountAtMost(xs[..|xs| - 1], x); }
  }

  /** A value found only below index n, and not at i, occurs fewer than n times. */
  lemma {:induction false} CountBelow<X>(xs: seq<X>, n: nat, i: nat, x: X)
    requires i < n <= |xs| && xs[i] != x
    requires forall k :: n <= k < |xs| ==> xs[k] != x
    ensures Count(xs, x) < n
  {
    var last := |xs| - 1;
    if n < |xs| {
      CountBelow(xs[..last], n, i, x);
    } else if i < last {
      CountBelow(xs[..last], last, i, x);
    } else {
      CountAtMost(xs[..last], x);
    }
  }

  /** A value found exactly at the indices below n occurs n times. */
  lemma {:induction false} CountExactly<X>(xs: seq<X>, n: nat, x: X)
    requires n <= |xs| && forall k :: 0 <= k < |xs| ==> (xs[k] == x <==> k < n)
    ensures Count(xs, x) == n
  {
    if xs != [] {
      var last := |xs| - 1;
      CountExactly(xs[..last], if n == |xs| then last else n, x);
    }
  }

  lemma {:induction false} CountIsMultiplicity<X>(xs: seq<X>, x: X)
    ensures Count(xs, x) == multiset(xs)[x]
  {
    if xs != [] {
      CountIsMultiplicity(xs[..|xs| - 1], x);
      assert xs == xs[..|xs| - 1] + [xs[|xs| - 1]];
    }
  }
}
