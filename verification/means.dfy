/** Integer sums, `Math.round` of a quotient, rounded means and extremes.

    Every mean in the source is `Math.round(total / count)` with a positive
    count.  `Math.round(x)` is `floor(x + 1/2)`, so for an integer total `s`
    and count `n > 0` it is `floor((2s + n) / 2n)`, which Dafny's integer
    division (a floor for a positive divisor) computes exactly. */
module Means {
  import Seqs

  /** `values.reduce((a, b) => a + b, 0)`. */
  function Sum(xs: seq<int>): int
  {
    if |xs| == 0 then 0 else xs[0] + Sum(xs[1..])
  }

  /** `Math.round(s / n)`: the integer nearest to s/n, halves rounded up. */
  function RoundDiv(s: int, n: int): (r: int)
    requires n > 0
    ensures 2 * n * r - n <= 2 * s < 2 * n * r + n
  {
    var q := (2 * s + n) / (2 * n);
    assert 2 * s + n == 2 * n * q + (2 * s + n) % (2 * n);
    q
  }

  /** The nearest-integer condition pins the result down: exactly one integer meets it. */
  lemma RoundDivUnique(s: int, n: int, r: int)
    requires n > 0
    requires 2 * n * r - n <= 2 * s < 2 * n * r + n
    ensures r == RoundDiv(s, n)
  {
    var q := RoundDiv(s, n);
    MulCancel(2 * n, r, q + 1);
    MulCancel(2 * n, q, r + 1);
  }

  lemma MulCancel(k: int, a: int, b: int)
    requires k > 0 && k * a < k * b
    ensures a < b
  {
    assert k * (b - a) > 0;
  }

  /** The rounded arithmetic mean of a non-empty list. */
  function RoundedMean(xs: seq<int>): int
    requires |xs| > 0
  {
    RoundDiv(Sum(xs), |xs|)
  }

  /** `Math.min(...xs)` of a non-empty list. */
  function MinOf(xs: seq<int>): (r: int)
    requires |xs| > 0
    ensures r in xs
    ensures forall i :: 0 <= i < |xs| ==> r <= xs[i]
  {
    if |xs| == 1 then xs[0]
    else
      var m := MinOf(xs[1..]);
      if xs[0] <= m then xs[0] else m
  }

  /** `Math.max(...xs)` of a non-empty list. */
  function MaxOf(xs: seq<int>): (r: int)
    requires |xs| > 0
    ensures r in xs
    ensures forall i :: 0 <= i < |xs| ==> xs[i] <= r
  {
    if |xs| == 1 then xs[0]
    else
      var m := MaxOf(xs[1..]);
      if xs[0] >= m then xs[0] else m
  }

  lemma {:induction false} SumAppend(a: seq<int>, b: seq<int>)
    ensures Sum(a + b) == Sum(a) + Sum(b)
  {
    if |a| == 0 {
      assert a + b == b;
    } else {
      assert (a + b)[1..] == a[1..] + b;
      SumAppend(a[1..], b);
    }
  }

  /** Taking one term out of a list takes its value out of the sum. */
  lemma {:induction false} SumRemoveAt(b: seq<int>, i: int)
    requires 0 <= i < |b|
    ensures Sum(b) == b[i] + Sum(b[..i] + b[i+1..])
  {
    var pre, post := b[..i], b[i+1..];
    var mid := [b[i]] + post;
    assert b == pre + mid;
    assert mid[0] == b[i] && mid[1..] == post;
    assert Sum(mid) == b[i] + Sum(post);
    SumAppend(pre, mid);
    SumAppend(pre, post);
  }

  /** A sum does not depend on the order of its terms. */
  lemma {:induction false} SumPermutation(a: seq<int>, b: seq<int>)
    requires multiset(a) == multiset(b)
    ensures Sum(a) == Sum(b)
    decreases |a|
  {
    if |a| == 0 {
      assert |b| == |multiset(b)| == 0;
    } else {
      assert a[0] in multiset(b);
      var i :| 0 <= i < |b| && b[i] == a[0];
      var rest := b[..i] + b[i+1..];
      Seqs.RemoveAt(b, i);
      assert a == [a[0]] + a[1..];
      assert multiset(a[1..]) == multiset(rest);
      SumPermutation(a[1..], rest);
      SumRemoveAt(b, i);
    }
  }

  /** A list whose every term lies in [lo, hi] sums to between n*lo and n*hi. */
  lemma {:induction false} SumBounds(xs: seq<int>, lo: int, hi: int)
    requires forall i :: 0 <= i < |xs| ==> lo <= xs[i] <= hi
    ensures |xs| * lo <= Sum(xs) <= |xs| * hi
  {
    if |xs| > 0 {
      SumBounds(xs[1..], lo, hi);
      assert |xs| * lo == lo + (|xs| - 1) * lo;
      assert |xs| * hi == hi + (|xs| - 1) * hi;
    }
  }

  /** A rounded mean never leaves the range of the values it averages. */
  lemma MeanBetween(xs: seq<int>, lo: int, hi: int)
    requires |xs| > 0
    requires forall i :: 0 <= i < |xs| ==> lo <= xs[i] <= hi
    ensures lo <= RoundedMean(xs) <= hi
  {
    SumBounds(xs, lo, hi);
    RoundedBetween(|xs|, Sum(xs), RoundedMean(xs), lo, hi);
  }

  /** The arithmetic core of `MeanBetween`. */
  lemma RoundedBetween(n: int, s: int, r: int, lo: int, hi: int)
    requires n > 0
    requires 2 * n * r - n <= 2 * s < 2 * n * r + n
    requires n * lo <= s <= n * hi
    ensures lo <= r <= hi
  {
    var k := 2 * n;
    assert k * r < k * (hi + 1) by {
      assert k * (hi + 1) == 2 * (n * hi) + k;
    }
    MulCancel(k, r, hi + 1);
    assert k * lo < k * (r + 1) by {
      assert k * lo == 2 * (n * lo);
      assert k * (r + 1) == 2 * n * r + k;
    }
    MulCancel(k, lo, r + 1);
  }

  /** The rounded mean lies between the list's minimum and maximum. */
  lemma MeanWithinExtremes(xs: seq<int>)
    requires |xs| > 0
    ensures MinOf(xs) <= RoundedMean(xs) <= MaxOf(xs)
  {
    MeanBetween(xs, MinOf(xs), MaxOf(xs));
  }

  /** The mean of one value is that value. */
  lemma MeanOfOne(x: int)
    ensures RoundedMean([x]) == x
  {
    MeanBetween([x], x, x);
  }

  /** Reordering the values does not change their rounded mean. */
  lemma MeanPermutation(a: seq<int>, b: seq<int>)
    requires |a| > 0
    requires multiset(a) == multiset(b)
    ensures |b| > 0
    ensures RoundedMean(a) == RoundedMean(b)
  {
    assert |a| == |multiset(a)| == |multiset(b)| == |b|;
    SumPermutation(a, b);
  }

  /** Reordering the values does not change their extremes. */
  lemma ExtremesPermutation(a: seq<int>, b: seq<int>)
    requires |a| > 0
    requires multiset(a) == multiset(b)
    ensures |b| > 0
    ensures MinOf(a) == MinOf(b) && MaxOf(a) == MaxOf(b)
  {
    assert |a| == |multiset(a)| == |multiset(b)| == |b|;
    assert MinOf(a) in multiset(b) && MaxOf(a) in multiset(b);
    assert MinOf(b) in multiset(a) && MaxOf(b) in multiset(a);
  }

  /** An element no smaller than every element is the maximum. */
  lemma MaxUnique(xs: seq<int>, i: int)
    requires 0 <= i < |xs|
    requires forall k :: 0 <= k < |xs| ==> xs[k] <= xs[i]
    ensures MaxOf(xs) == xs[i]
  {
  }

  /** An element no larger than every element is the minimum. */
  lemma MinUnique(xs: seq<int>, i: int)
    requires 0 <= i < |xs|
    requires forall k :: 0 <= k < |xs| ==> xs[i] <= xs[k]
    ensures MinOf(xs) == xs[i]
  {
  }
}
