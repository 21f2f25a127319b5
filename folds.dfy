/** `xs.reduce((sum, x) => sum + f(x), 0)` over exact reals, and the algebra
    the invoice totals rely on. */
module Folds {

  /** A left fold from 0: the sum of the prefix, then the last element.
      The empty fold is the initial value. */
  function Sum<T>(xs: seq<T>, f: T -> real): (r: real)
    ensures xs == [] ==> r == 0.0
    decreases |xs|
  {
    if xs == [] then 0.0 else Sum(xs[..|xs| - 1], f) + f(xs[|xs| - 1])
  }

  lemma {:induction false} SumAppend<T>(a: seq<T>, b: seq<T>, f: T -> real)
    ensures Sum(a + b, f) == Sum(a, f) + Sum(b, f)
    decreases |b|
  {
    if b == [] {
      assert a + b == a;
    } else {
      var b' := b[..|b| - 1];
      assert (a + b)[..|a + b| - 1] == a + b';
      assert (a + b)[|a + b| - 1] == b[|b| - 1];
      SumAppend(a, b', f);
    }
  }

  lemma SumSingleton<T>(x: T, f: T -> real)
    ensures Sum([x], f) == f(x)
  {
    assert [x][..0] == [];
  }

  /** Taking the same element out of two equal multisets leaves equal multisets. */
  lemma MultisetRemove<T>(a: seq<T>, x: T, l: seq<T>, r: seq<T>)
    requires multiset(a + [x]) == multiset(l + [x] + r)
    ensures multiset(a) == multiset(l + r)
  {
    assert multiset(a + [x]) == multiset(a) + multiset{x};
    assert multiset(l + [x] + r) == multiset(l) + multiset{x} + multiset(r);
    assert multiset(l + r) == multiset(l) + multiset(r);
    assert multiset(a) == multiset(a + [x]) - multiset{x};
    assert multiset(l + r) == multiset(l + [x] + r) - multiset{x};
  }

  /** Moving one element to the end does not change the fold. */
  lemma SumMoveToEnd<T>(l: seq<T>, x: T, r: seq<T>, f: T -> real)
    ensures Sum(l + [x] + r, f) == Sum(l + r, f) + f(x)
  {
    SumAppend(l + [x], r, f);
    SumAppend(l, [x], f);
    SumAppend(l, r, f);
    SumSingleton(x, f);
  }

  /** The fold does not depend on the order of the elements. */
  lemma {:induction false} SumPermutation<T>(a: seq<T>, b: seq<T>, f: T -> real)
    requires multiset(a) == multiset(b)
    ensures Sum(a, f) == Sum(b, f)
    decreases |a|
  {
    if a == [] {
      assert |b| == |multiset(b)| == 0;
    } else {
      var x := a[|a| - 1];
      var a' := a[..|a| - 1];
      assert a == a' + [x];
      assert x in multiset(b);
      var k :| 0 <= k < |b| && b[k] == x;
      var l, r := b[..k], b[k + 1..];
      assert b == l + [x] + r;
      MultisetRemove(a', x, l, r);
      SumPermutation(a', l + r, f);
      SumMoveToEnd(l, x, r, f);
      SumAppend(a', [x], f);
      SumSingleton(x, f);
    }
  }

  /** Folding a pointwise sum is the sum of the two folds. */
  lemma {:induction false} SumPointwise<T>(xs: seq<T>, f: T -> real, g: T -> real, h: T -> real)
    requires forall i :: 0 <= i < |xs| ==> h(xs[i]) == f(xs[i]) + g(xs[i])
    ensures Sum(xs, h) == Sum(xs, f) + Sum(xs, g)
    decreases |xs|
  {
    if xs != [] {
      SumPointwise(xs[..|xs| - 1], f, g, h);
    }
  }

  /** Folding a scaled value is the scaled fold. */
  lemma {:induction false} SumScaled<T>(xs: seq<T>, f: T -> real, g: T -> real, c: real)
    requires forall i :: 0 <= i < |xs| ==> g(xs[i]) == f(xs[i]) * c
    ensures Sum(xs, g) == Sum(xs, f) * c
    decreases |xs|
  {
    if xs != [] {
      var xs' := xs[..|xs| - 1];
      SumScaled(xs', f, g, c);
      var x := xs[|xs| - 1];
      assert Sum(xs, g) == Sum(xs', g) + g(x);
      assert Sum(xs, f) == Sum(xs', f) + f(x);
      Distributes(Sum(xs', f), f(x), c);
    }
  }

  /** Non-negative terms never produce a negative sum. */
  lemma {:induction false} SumNonnegative<T>(xs: seq<T>, f: T -> real)
    ensures (forall i :: 0 <= i < |xs| ==> f(xs[i]) >= 0.0) ==> Sum(xs, f) >= 0.0
    decreases |xs|
  {
    if xs != [] {
      SumNonnegative(xs[..|xs| - 1], f);
    }
  }

  lemma Distributes(a: real, b: real, c: real)
    ensures (a + b) * c == a * c + b * c
  {
  }
}
