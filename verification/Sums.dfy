/** Sums over sequences, independent of their order. */
module Sums {

  function Sum<T>(s: seq<T>, f: T -> int): int {
    if s == [] then 0 else Sum(s[..|s| - 1], f) + f(s[|s| - 1])
  }

  lemma {:induction false} SumAppend<T>(a: seq<T>, b: seq<T>, f: T -> int)
    ensures Sum(a + b, f) == Sum(a, f) + Sum(b, f)
    decreases |b|
  {
    if b == [] {
      assert a + b == a;
    } else {
      assert (a + b)[..|a + b| - 1] == a + b[..|b| - 1];
      SumAppend(a, b[..|b| - 1], f);
    }
  }

  lemma SumOne<T>(x: T, f: T -> int)
    ensures Sum([x], f) == f(x)
  {
    assert [x][..0] == [];
  }

  lemma SumMiddle<T>(head: seq<T>, x: T, tail: seq<T>, f: T -> int)
    ensures Sum(head + [x] + tail, f) == Sum(head + tail, f) + f(x)
  {
    SumAppend(head + [x], tail, f);
    SumAppend(head, [x], f);
    SumAppend(head, tail, f);
    SumOne(x, f);
  }

  lemma SumWithout<T>(s: seq<T>, i: nat, f: T -> int)
    requires i < |s|
    ensures Sum(s, f) == Sum(s[..i] + s[i + 1..], f) + f(s[i])
  {
    assert s == s[..i] + [s[i]] + s[i + 1..];
    SumMiddle(s[..i], s[i], s[i + 1..], f);
  }

  lemma BagWithout<T>(s: seq<T>, i: nat)
    requires i < |s|
    ensures multiset(s[..i] + s[i + 1..]) == multiset(s) - multiset{s[i]}
  {
    assert s == s[..i] + [s[i]] + s[i + 1..];
  }

  /** A sum depends only on what is summed, not on its order. */
  lemma {:induction false} SumPermutation<T>(a: seq<T>, b: seq<T>, f: T -> int)
    requires multiset(a) == multiset(b)
    ensures Sum(a, f) == Sum(b, f)
    decreases |a|
  {
    if a == [] {
      assert |multiset(b)| == |b|;
    } else {
      var last := |a| - 1;
      assert a[last] in multiset(b);
      var i :| 0 <= i < |b| && b[i] == a[last];
      SumWithout(a, last, f);
      SumWithout(b, i, f);
      BagWithout(a, last);
      BagWithout(b, i);
      assert a[..last] + a[last + 1..] == a[..last];
      SumPermutation(a[..last], b[..i] + b[i + 1..], f);
    }
  }

  lemma {:induction false} SumCong<T>(s: seq<T>, f: T -> int, g: T -> int)
    requires forall x <- s :: f(x) == g(x)
    ensures Sum(s, f) == Sum(s, g)
    decreases |s|
  {
    if s != [] {
      SumCong(s[..|s| - 1], f, g);
    }
  }
}
