/** Sequences of different numbers below a bound. */
module Counting {
  ghost predicate Distinct(s: seq<nat>) {
    s != [] ==> s[0] !in s[1..] && Distinct(s[1..])
  }

  lemma {:induction false} DistinctAppend(s: seq<nat>, x: nat)
    requires Distinct(s) && x !in s
    ensures Distinct(s + [x])
  {
    if s != [] {
      DistinctAppend(s[1..], x);
      assert (s + [x])[1..] == s[1..] + [x];
    }
  }

  /** Two sequences have no repetition together if neither has one and they have nothing in common. */
  lemma {:induction false} DistinctConcat(a: seq<nat>, b: seq<nat>)
    ensures Distinct(a + b) <==> Distinct(a) && Distinct(b) && forall x: nat :: !(x in a && x in b)
  {
    if a == [] {
      assert a + b == b;
    } else {
      assert (a + b)[1..] == a[1..] + b;
      DistinctConcat(a[1..], b);
      assert forall x :: x in a <==> x == a[0] || x in a[1..];
    }
  }

  lemma Pigeonhole(s: seq<nat>, n: nat)
    requires Distinct(s) && forall x :: x in s ==> x < n
    ensures |s| <= n
  {
    DistinctCount(s);
    Subset(Elems(s), Below(n));
  }

  function Below(n: nat): (r: set<nat>)
    ensures |r| == n && forall i: nat :: i in r <==> i < n
  {
    if n == 0 then {} else Below(n - 1) + {n - 1}
  }

  ghost function Elems(s: seq<nat>): set<nat> {
    set x | x in s
  }

  lemma {:induction false} DistinctCount(s: seq<nat>)
    requires Distinct(s)
    ensures |Elems(s)| == |s|
  {
    if s != [] {
      DistinctCount(s[1..]);
      assert Elems(s) == Elems(s[1..]) + {s[0]};
    }
  }

  lemma Subset(a: set<nat>, b: set<nat>)
    requires a <= b
    ensures |a| <= |b|
  {
    assert b == a + (b - a);
  }

  lemma {:induction false} DistinctPairs(s: seq<nat>)
    requires forall j, k :: 0 <= j < k < |s| ==> s[j] != s[k]
    ensures Distinct(s)
  {
    if s != [] { DistinctPairs(s[1..]); }
  }

  /** As many different numbers as the bound allows are all of them. */
  lemma AllBelow(s: seq<nat>, n: nat, i: nat)
    requires Distinct(s) && |s| == n && i < n && forall x :: x in s ==> x < n
    ensures i in s
  {
    if i !in s {
      DistinctAppend(s, i);
      Pigeonhole(s + [i], n);
    }
  }
}
