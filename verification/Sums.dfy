/** Finite sums over sequences, and that they do not depend on the order of the terms. */
module Sums {
  function Sum<T>(f: T -> real, s: seq<T>): real {
    if s == [] then 0.0 else Sum(f, s[..|s| - 1]) + f(s[|s| - 1])
  }

  lemma {:induction false} SumAppend<T>(f: T -> real, s: seq<T>, x: T)
    ensures Sum(f, s + [x]) == Sum(f, s) + f(x)
  {
    assert (s + [x])[..|s|] == s;
  }

  lemma {:induction false} SumConcat<T>(f: T -> real, a: seq<T>, b: seq<T>)
    ensures Sum(f, a + b) == Sum(f, a) + Sum(f, b)
  {
    if b == [] {
      assert a + b == a;
    } else {
      assert (a + b)[..|a + b| - 1] == a + b[..|b| - 1];
      SumConcat(f, a, b[..|b| - 1]);
    }
  }

  /** `s` without the element at `i`. */
  function Without<T>(s: seq<T>, i: nat): seq<T>
    requires i < |s|
  {
    s[..i] + s[i + 1..]
  }

  lemma {:induction false} SumWithout<T>(f: T -> real, s: seq<T>, i: nat)
    requires i < |s|
    ensures Sum(f, s) == Sum(f, Without(s, i)) + f(s[i])
  {
    var head, tail := s[..i + 1], s[i + 1..];
    assert s == head + tail && head == s[..i] + [s[i]];
    SumConcat(f, head, tail);
    SumAppend(f, s[..i], s[i]);
    SumConcat(f, s[..i], tail);
  }

  lemma ContentsWithout<T>(s: seq<T>, i: nat)
    requires i < |s|
    ensures multiset(Without(s, i)) == multiset(s) - multiset{s[i]}
  {
    assert s == s[..i] + [s[i]] + s[i + 1..];
  }

  lemma {:induction false} SumIgnoresOrder<T>(f: T -> real, a: seq<T>, b: seq<T>)
    requires multiset(a) == multiset(b)
    ensures Sum(f, a) == Sum(f, b)
    decreases |a|
  {
    assert |a| == |multiset(a)| == |multiset(b)| == |b|;
    if a != [] {
      var i := |a| - 1;
      assert a[i] in multiset(b);
      var j :| 0 <= j < |b| && b[j] == a[i];
      SumWithout(f, a, i);
      SumWithout(f, b, j);
      ContentsWithout(a, i);
      ContentsWithout(b, j);
      SumIgnoresOrder(f, Without(a, i), Without(b, j));
    }
  }

  lemma {:induction false} SumBounds<T>(f: T -> real, s: seq<T>, low: real, high: real)
    requires forall x :: x in s ==> low <= f(x) <= high
    ensures low * |s| as real <= Sum(f, s) <= high * |s| as real
  {
    if s == [] {
    } else {
      SumBounds(f, s[..|s| - 1], low, high);
    }
  }
}
