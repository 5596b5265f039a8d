/** Column arithmetic shared by every aggregation of the dashboard: pandas'
    `sum`, `mean`, `min` and `max` over a column, with exact `real` values
    standing for the float64 columns. */
module Stats {

  /** The column of `f` over `rows` (pandas `df[col]`). */
  function Map<R, T>(rows: seq<R>, f: R -> T): (r: seq<T>)
    ensures |r| == |rows|
    ensures forall i :: 0 <= i < |rows| ==> r[i] == f(rows[i])
  {
    if rows == [] then [] else [f(rows[0])] + Map(rows[1..], f)
  }

  /** `Series.sum()`; the sum of an empty column is 0. */
  function Sum(xs: seq<real>): real
  {
    if xs == [] then 0.0 else xs[0] + Sum(xs[1..])
  }

  /** `Series.mean()` of a non-empty column. */
  function Mean(xs: seq<real>): real
    requires |xs| > 0
  {
    Sum(xs) / (|xs| as real)
  }

  /** The smallest value of a non-empty column. */
  function Min(xs: seq<real>): (m: real)
    requires |xs| > 0
    ensures m in xs
    ensures forall i :: 0 <= i < |xs| ==> m <= xs[i]
  {
    if |xs| == 1 then xs[0]
    else
      var rest := Min(xs[1..]);
      assert forall i :: 1 <= i < |xs| ==> xs[i] == xs[1..][i - 1];
      if xs[0] <= rest then xs[0] else rest
  }

  /** The largest value of a non-empty column. */
  function Max(xs: seq<real>): (m: real)
    requires |xs| > 0
    ensures m in xs
    ensures forall i :: 0 <= i < |xs| ==> xs[i] <= m
  {
    if |xs| == 1 then xs[0]
    else
      var rest := Max(xs[1..]);
      assert forall i :: 1 <= i < |xs| ==> xs[i] == xs[1..][i - 1];
      if rest <= xs[0] then xs[0] else rest
  }

  /** The column of ones that `count` sums. */
  function One<R>(row: R): real { 1.0 }

  /** Every value between `lo` and `hi` bounds the sum between `n * lo` and `n * hi`. */
  lemma {:induction false} SumBounds(xs: seq<real>, lo: real, hi: real)
    requires forall i :: 0 <= i < |xs| ==> lo <= xs[i] <= hi
    ensures (|xs| as real) * lo <= Sum(xs) <= (|xs| as real) * hi
  {
    if xs != [] {
      var rest := xs[1..];
      assert forall i :: 0 <= i < |rest| ==> rest[i] == xs[i + 1];
      SumBounds(rest, lo, hi);
      var n := |rest| as real;
      assert Sum(xs) == xs[0] + Sum(rest);
      assert |xs| as real == n + 1.0;
      SumStep(n, lo, hi, xs[0], Sum(rest));
    }
  }

  /** One more value within [lo, hi] keeps a running sum of `n` such values within
      [n * lo, n * hi]. */
  lemma SumStep(n: real, lo: real, hi: real, x: real, s: real)
    requires lo <= x <= hi && n * lo <= s <= n * hi
    ensures (n + 1.0) * lo <= x + s <= (n + 1.0) * hi
  {
    assert (n + 1.0) * lo == n * lo + lo;
    assert (n + 1.0) * hi == n * hi + hi;
  }

  /** A column that is `c` everywhere sums to `n * c`. */
  lemma {:induction false} SumOfConstant(xs: seq<real>, c: real)
    requires forall i :: 0 <= i < |xs| ==> xs[i] == c
    ensures Sum(xs) == (|xs| as real) * c
  {
    SumBounds(xs, c, c);
  }

  /** Counting rows: the column of ones sums to the number of rows. */
  lemma SumOfOnes<R>(rows: seq<R>)
    ensures Sum(Map(rows, One)) == |rows| as real
  {
    SumOfConstant(Map(rows, One), 1.0);
  }

  /** A mean lies between any two bounds of its column. */
  lemma MeanBetween(xs: seq<real>, lo: real, hi: real)
    requires |xs| > 0
    requires forall i :: 0 <= i < |xs| ==> lo <= xs[i] <= hi
    ensures lo <= Mean(xs) <= hi
  {
    SumBounds(xs, lo, hi);
    QuotientBounds(Sum(xs), |xs| as real, lo, hi);
  }

  /** A mean lies between the minimum and the maximum of its column. */
  lemma MeanBetweenMinMax(xs: seq<real>)
    requires |xs| > 0
    ensures Min(xs) <= Mean(xs) <= Max(xs)
  {
    MeanBetween(xs, Min(xs), Max(xs));
  }

  /** `n * lo <= a <= n * hi` with `n > 0` puts `a / n` between `lo` and `hi`. */
  lemma QuotientBounds(a: real, n: real, lo: real, hi: real)
    requires n > 0.0 && n * lo <= a <= n * hi
    ensures lo <= a / n <= hi
  {
    assert (a / n) * n == a;
  }

  /** The mean of a column that is `c` everywhere is `c`. */
  lemma MeanOfConstant(xs: seq<real>, c: real)
    requires |xs| > 0
    requires forall i :: 0 <= i < |xs| ==> xs[i] == c
    ensures Mean(xs) == c
  {
    SumOfConstant(xs, c);
  }
}
