/** Sums over a sequence and sizes of sets, for counts and termination measures. */
module Sums {
  function Sum<T>(s: seq<T>, f: T -> nat): nat {
    if |s| == 0 then 0 else Sum(s[..|s| - 1], f) + f(s[|s| - 1])
  }

  lemma {:induction false} SumUpdate<T>(s: seq<T>, f: T -> nat, i: nat, x: T)
    requires i < |s|
    ensures Sum(s[i := x], f) + f(s[i]) == Sum(s, f) + f(x)
  {
    var n := |s| - 1;
    if i == n {
      assert s[i := x][..n] == s[..n];
    } else {
      SumUpdate(s[..n], f, i, x);
      assert s[i := x][..n] == s[..n][i := x];
    }
  }

  lemma SumSnoc<T>(s: seq<T>, f: T -> nat, x: T)
    ensures Sum(s + [x], f) == Sum(s, f) + f(x)
  {
    assert (s + [x])[..|s|] == s;
  }

  lemma {:induction false} SumBound<T>(s: seq<T>, f: T -> nat, most: nat)
    requires forall x :: f(x) <= most
    ensures Sum(s, f) <= most * |s|
  {
    if |s| > 0 {
      SumBound(s[..|s| - 1], f, most);
      assert most * |s| == most * (|s| - 1) + most;
    }
  }

  /** A set of numbers below n has at most n members. */
  lemma {:induction false} BoundedSet(xs: set<nat>, n: nat)
    requires forall x | x in xs :: x < n
    ensures |xs| <= n
  {
    if n == 0 {
      assert xs == {};
    } else {
      BoundedSet(xs - {n - 1}, n - 1);
    }
  }
}
