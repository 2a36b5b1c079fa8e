/** The reduction every census statistic is built from: read one column of each
    record, counting an absent column as 0, and add the values up from left to right. */
module Tally {

  /** The numeric columns of one census record, by column name. */
  type Counts = map<string, int>

  /** The value of column `key`, with an absent column read as 0 (the `|| 0` of the source). */
  function Count(m: Counts, key: string): int
  {
    if key in m then m[key] else 0
  }

  /** `xs.reduce((sum, x) => sum + f(x), 0)`: a left fold that starts at 0. */
  function Sum<T>(xs: seq<T>, f: T -> int): int
  {
    if |xs| == 0 then 0 else Sum(xs[..|xs| - 1], f) + f(xs[|xs| - 1])
  }

  /** A sum over a single record is that record's value. */
  lemma SumSingleton<T>(x: T, f: T -> int)
    ensures Sum([x], f) == f(x)
  {
    var xs := [x];
    assert xs[..0] == [] && xs[0] == x;
  }

  /** A sum over a concatenation is the sum of the two parts. */
  lemma {:induction false} SumAppend<T>(a: seq<T>, b: seq<T>, f: T -> int)
    ensures Sum(a + b, f) == Sum(a, f) + Sum(b, f)
  {
    if |b| == 0 {
      assert a + b == a;
    } else {
      var b' := b[..|b| - 1];
      assert (a + b)[..|a + b| - 1] == a + b';
      SumAppend(a, b', f);
    }
  }

  /** Taking the same value out of two reorderings of each other leaves reorderings. */
  lemma MultisetWithout<T>(a: seq<T>, b: seq<T>, i: nat)
    requires multiset(a) == multiset(b) && |a| > 0 && i < |b| && b[i] == a[|a| - 1]
    ensures multiset(a[..|a| - 1]) == multiset(b[..i] + b[i + 1..])
  {
    var x, a', b' := a[|a| - 1], a[..|a| - 1], b[..i] + b[i + 1..];
    assert a == a' + [x];
    assert b == b[..i] + [x] + b[i + 1..];
    calc {
      multiset(a') + multiset{x};
      multiset(b);
      multiset(b[..i]) + multiset{x} + multiset(b[i + 1..]);
      multiset(b') + multiset{x};
    }
    assert multiset(a') == multiset(a') + multiset{x} - multiset{x};
  }

  /** A sequence is its part before `i`, its `i`-th element and its part after `i`. */
  lemma Around<T>(b: seq<T>, i: nat)
    requires i < |b|
    ensures b == (b[..i] + [b[i]]) + b[i + 1..]
  {
  }

  /** A sum without the `i`-th term. */
  lemma SumWithout<T>(b: seq<T>, i: nat, f: T -> int)
    requires i < |b|
    ensures Sum(b, f) == Sum(b[..i] + b[i + 1..], f) + f(b[i])
  {
    Around(b, i);
    SumSplit(b[..i], b[i], b[i + 1..], f);
  }

  lemma SumSplit<T>(p: seq<T>, x: T, q: seq<T>, f: T -> int)
    ensures Sum((p + [x]) + q, f) == Sum(p + q, f) + f(x)
  {
    SumAppend(p + [x], q, f);
    SumAppend(p, [x], f);
    SumAppend(p, q, f);
    SumSingleton(x, f);
  }

  /** The order of the records does not matter: a reordering has the same sum. */
  lemma {:induction false} SumPermutation<T>(a: seq<T>, b: seq<T>, f: T -> int)
    requires multiset(a) == multiset(b)
    ensures Sum(a, f) == Sum(b, f)
  {
    if |a| == 0 {
      assert |b| == |multiset(b)| == 0;
    } else {
      var x := a[|a| - 1];
      assert x in multiset(b);
      var i :| 0 <= i < |b| && b[i] == x;
      MultisetWithout(a, b, i);
      SumPermutation(a[..|a| - 1], b[..i] + b[i + 1..], f);
      SumWithout(b, i, f);
    }
  }

  /** A lower bound on every term bounds the sum from below. */
  lemma {:induction false} SumAtLeast<T>(xs: seq<T>, f: T -> int, lo: int)
    requires forall i :: 0 <= i < |xs| ==> lo <= f(xs[i])
    ensures lo * |xs| <= Sum(xs, f)
  {
    if |xs| > 0 {
      var xs' := xs[..|xs| - 1];
      assert forall i :: 0 <= i < |xs'| ==> xs'[i] == xs[i];
      SumAtLeast(xs', f, lo);
      assert lo * |xs| == lo * |xs'| + lo;
    }
  }

  /** Non-negative terms have a non-negative sum. */
  lemma SumNonNegative<T>(xs: seq<T>, f: T -> int)
    ensures (forall i :: 0 <= i < |xs| ==> f(xs[i]) >= 0) ==> Sum(xs, f) >= 0
  {
    if forall i :: 0 <= i < |xs| ==> f(xs[i]) >= 0 {
      SumAtLeast(xs, f, 0);
    }
  }

  /** An upper bound on every term bounds the sum from above. */
  lemma {:induction false} SumAtMost<T>(xs: seq<T>, f: T -> int, hi: int)
    requires forall i :: 0 <= i < |xs| ==> f(xs[i]) <= hi
    ensures Sum(xs, f) <= hi * |xs|
  {
    if |xs| > 0 {
      var xs' := xs[..|xs| - 1];
      assert forall i :: 0 <= i < |xs'| ==> xs'[i] == xs[i];
      SumAtMost(xs', f, hi);
      assert hi * |xs| == hi * |xs'| + hi;
    }
  }
}
