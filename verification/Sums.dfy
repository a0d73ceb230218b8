/** Sums over the elements of a sequence, for counting where things are. */
module Sums {

  function Sum<T>(xs: seq<T>, f: T -> nat): nat {
    if xs == [] then 0 else Sum(xs[..|xs| - 1], f) + f(xs[|xs| - 1])
  }

  lemma SumPush<T>(xs: seq<T>, x: T, f: T -> nat)
    ensures Sum(xs + [x], f) == Sum(xs, f) + f(x)
  {
    assert (xs + [x])[..|xs|] == xs;
  }

  lemma SumPop<T>(xs: seq<T>, f: T -> nat)
    requires xs != []
    ensures Sum(xs, f) == Sum(xs[..|xs| - 1], f) + f(xs[|xs| - 1])
  {
  }

  lemma {:induction false} SumFront<T>(xs: seq<T>, f: T -> nat)
    requires xs != []
    ensures Sum(xs, f) == f(xs[0]) + Sum(xs[1..], f)
  {
    if |xs| > 1 {
      SumFront(xs[..|xs| - 1], f);
      assert xs[..|xs| - 1][1..] == xs[1..][..|xs| - 2];
    }
  }

  lemma {:induction false} SumUpdate<T>(xs: seq<T>, i: nat, x: T, f: T -> nat)
    requires i < |xs|
    ensures Sum(xs[i := x], f) + f(xs[i]) == Sum(xs, f) + f(x)
    ensures f(xs[i]) <= Sum(xs, f)
  {
    var last := |xs| - 1;
    if i == last {
      assert xs[i := x][..last] == xs[..last];
    } else {
      SumUpdate(xs[..last], i, x, f);
      assert xs[i := x][..last] == xs[..last][i := x];
    }
  }

  lemma SumAt<T>(xs: seq<T>, i: nat, f: T -> nat)
    requires i < |xs|
    ensures f(xs[i]) <= Sum(xs, f)
  {
    SumUpdate(xs, i, xs[i], f);
  }

  lemma {:induction false} SumAtTwo<T>(xs: seq<T>, i: nat, j: nat, f: T -> nat)
    requires i < |xs| && j < |xs| && i != j
    ensures f(xs[i]) + f(xs[j]) <= Sum(xs, f)
  {
    var last := |xs| - 1;
    if i == last {
      SumAt(xs[..last], j, f);
    } else if j == last {
      SumAt(xs[..last], i, f);
    } else {
      SumAtTwo(xs[..last], i, j, f);
    }
  }

  /** A sum is positive exactly when some element contributes to it. */
  lemma {:induction false} SumPositive<T>(xs: seq<T>, f: T -> nat)
    ensures Sum(xs, f) > 0 <==> exists i | 0 <= i < |xs| :: f(xs[i]) > 0
  {
    if xs != [] {
      var last := |xs| - 1;
      SumPositive(xs[..last], f);
      if Sum(xs[..last], f) > 0 {
        var i :| 0 <= i < |xs[..last]| && f(xs[..last][i]) > 0;
        assert f(xs[i]) > 0;
      }
      if i :| 0 <= i < |xs| && f(xs[i]) > 0 {
        SumAt(xs, i, f);
      }
    }
  }

  lemma {:induction false} SumBound<T>(xs: seq<T>, f: T -> nat, bound: nat)
    requires forall i | 0 <= i < |xs| :: f(xs[i]) <= bound
    ensures Sum(xs, f) <= bound * |xs|
  {
    if xs != [] {
      SumBound(xs[..|xs| - 1], f, bound);
      assert bound * |xs| == bound * (|xs| - 1) + bound;
    }
  }
}
