/** Sums over sequences, and how they change when one element does. */
module Sums {
  function Total<T>(f: T -> nat, xs: seq<T>): nat {
    if xs == [] then 0 else Total(f, xs[..|xs| - 1]) + f(xs[|xs| - 1])
  }

  lemma {:induction false} TotalUpdate<T>(f: T -> nat, xs: seq<T>, i: nat, x: T)
    requires i < |xs|
    ensures Total(f, xs[i := x]) + f(xs[i]) == Total(f, xs) + f(x)
  {
    var n := |xs| - 1;
    if i == n {
      assert xs[i := x][..n] == xs[..n];
    } else {
      TotalUpdate(f, xs[..n], i, x);
      assert xs[i := x][..n] == xs[..n][i := x];
    }
  }

  function Gather<T, X>(f: T -> multiset<X>, xs: seq<T>): multiset<X> {
    if xs == [] then multiset{} else Gather(f, xs[..|xs| - 1]) + f(xs[|xs| - 1])
  }

  lemma {:induction false} GatherUpdate<T, X>(f: T -> multiset<X>, xs: seq<T>, i: nat, x: T)
    requires i < |xs|
    ensures Gather(f, xs[i := x]) + f(xs[i]) == Gather(f, xs) + f(x)
  {
    var n := |xs| - 1;
    if i == n {
      assert xs[i := x][..n] == xs[..n];
    } else {
      GatherUpdate(f, xs[..n], i, x);
      assert xs[i := x][..n] == xs[..n][i := x];
      var before, after := Gather(f, xs[..n]), Gather(f, xs[..n][i := x]);
      assert (after + f(xs[n])) + f(xs[i]) == (after + f(xs[i])) + f(xs[n]);
      assert (before + f(x)) + f(xs[n]) == (before + f(xs[n])) + f(x);
    }
  }

  /** What one side gains the other loses. */
  lemma Exchange<X>(p: multiset<X>, p': multiset<X>, q: multiset<X>, q': multiset<X>, gone: multiset<X>,
                    come: multiset<X>)
    requires p' + come == p + gone && q' + gone == q + come
    ensures p' + q' == p + q
  {
    forall x: X ensures (p' + q')[x] == (p + q)[x] {
      assert (p' + come)[x] == (p + gone)[x] && (q' + gone)[x] == (q + come)[x];
    }
  }
}
