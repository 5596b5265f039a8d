/** The spatial-weights step of the hex-grid analysis: pysal's k-nearest-neighbour
    weights (`weights.KNN.from_dataframe`), their row standardisation
    (`w.transform = "R"`) and the spatial lag (`weights.spatial_lag.lag_spatial`).
    Which cells are neighbours is computed by the library and is an input here. */
module SpatialWeights {
  import opened Stats
  import opened Grouping

  /** One entry of a row of the weights matrix: the neighbour's position and its weight. */
  datatype Link = Link(neighbour: nat, weight: real)

  /** One row of the weights matrix per cell. */
  type Weights = seq<seq<Link>>

  /** Neighbour lists as a KNN query returns them for `n` cells: `k` distinct
      neighbours per cell, never the cell itself. */
  ghost predicate IsKnn(knn: seq<seq<nat>>, n: nat, k: nat)
  {
    && |knn| == n
    && forall i :: 0 <= i < n ==>
         && |knn[i]| == k
         && NoDups(knn[i])
         && forall j :: 0 <= j < k ==> knn[i][j] < n && knn[i][j] != i
  }

  /** The binary KNN weights: every neighbour has weight 1. */
  function KnnWeights(knn: seq<seq<nat>>): Weights
  {
    seq(|knn|, i requires 0 <= i < |knn| =>
      seq(|knn[i]|, j requires 0 <= j < |knn[i]| => Link(knn[i][j], 1.0)))
  }

  function WeightOf(l: Link): real { l.weight }

  /** The total weight of one row. */
  function RowSum(row: seq<Link>): real
  {
    Sum(Map(row, WeightOf))
  }

  /** `transform = "R"`: every weight divided by its row's total, rows with no
      weight left as they are. */
  function RowStandardise(w: Weights): Weights
  {
    seq(|w|, i requires 0 <= i < |w| =>
      var s := RowSum(w[i]);
      if s == 0.0 then w[i]
      else seq(|w[i]|, j requires 0 <= j < |w[i]| => Link(w[i][j].neighbour, w[i][j].weight / s)))
  }

  /** The weights in force after `w.transform = "R"` on KNN neighbour lists. */
  function StandardisedKnn(knn: seq<seq<nat>>): Weights
  {
    RowStandardise(KnnWeights(knn))
  }

  /** Every neighbour index is a position of a vector of length `n`. */
  ghost predicate RefersWithin(w: Weights, n: nat)
  {
    forall i, j :: 0 <= i < |w| && 0 <= j < |w[i]| ==> w[i][j].neighbour < n
  }

  /** A row-stochastic matrix over `n` cells: non-negative weights summing to 1 per row. */
  ghost predicate RowStochastic(w: Weights, n: nat)
  {
    && |w| == n
    && RefersWithin(w, n)
    && (forall i, j :: 0 <= i < |w| && 0 <= j < |w[i]| ==> w[i][j].weight >= 0.0)
    && (forall i :: 0 <= i < |w| ==> RowSum(w[i]) == 1.0)
  }

  /** One entry of `W @ x`: the weighted sum of `x` over a row's neighbours. */
  function RowLag(row: seq<Link>, x: seq<real>): real
    requires forall j :: 0 <= j < |row| ==> row[j].neighbour < |x|
  {
    if row == [] then 0.0 else row[0].weight * x[row[0].neighbour] + RowLag(row[1..], x)
  }

  /** `lag_spatial(w, x)`: the matrix-vector product `W @ x`. */
  function Lag(w: Weights, x: seq<real>): (r: seq<real>)
    requires RefersWithin(w, |x|)
    ensures |r| == |w|
  {
    seq(|w|, i requires 0 <= i < |w| => RowLag(w[i], x))
  }

  /** The values of `x` at a row's neighbours. */
  function NeighbourValues(row: seq<Link>, x: seq<real>): (v: seq<real>)
    requires forall j :: 0 <= j < |row| ==> row[j].neighbour < |x|
    ensures |v| == |row|
    ensures forall j :: 0 <= j < |row| ==> v[j] == x[row[j].neighbour]
  {
    seq(|row|, j requires 0 <= j < |row| => x[row[j].neighbour])
  }

  lemma {:induction false} RowSumOfScaled(row: seq<Link>, s: real)
    requires s != 0.0
    ensures RowSum(seq(|row|, j requires 0 <= j < |row| => Link(row[j].neighbour, row[j].weight / s)))
         == RowSum(row) / s
  {
    var scaled := seq(|row|, j requires 0 <= j < |row| => Link(row[j].neighbour, row[j].weight / s));
    if row != [] {
      assert scaled[1..] == seq(|row[1..]|, j requires 0 <= j < |row[1..]| => Link(row[1..][j].neighbour, row[1..][j].weight / s));
      RowSumOfScaled(row[1..], s);
      assert Map(scaled, WeightOf) == [scaled[0].weight] + Map(scaled[1..], WeightOf);
      assert Map(row, WeightOf) == [row[0].weight] + Map(row[1..], WeightOf);
    }
  }

  lemma {:induction false} KnnRowSum(row: seq<Link>)
    requires forall j :: 0 <= j < |row| ==> row[j].weight == 1.0
    ensures RowSum(row) == |row| as real
  {
    SumOfConstant(Map(row, WeightOf), 1.0);
  }

  /** One standardised KNN row: `k` links of weight `1/k`, to the cell's neighbours. */
  lemma StandardisedKnnRow(knn: seq<seq<nat>>, i: nat, k: nat)
    requires i < |knn| && |knn[i]| == k && k >= 1
    ensures |StandardisedKnn(knn)[i]| == k
    ensures forall j :: 0 <= j < k ==> StandardisedKnn(knn)[i][j] == Link(knn[i][j], 1.0 / (k as real))
    ensures RowSum(StandardisedKnn(knn)[i]) == 1.0
  {
    var row := KnnWeights(knn)[i];
    assert |row| == k;
    KnnRowSum(row);
    var scaled := seq(|row|, j requires 0 <= j < |row| => Link(row[j].neighbour, row[j].weight / (k as real)));
    assert StandardisedKnn(knn)[i] == scaled;
    RowSumOfScaled(row, k as real);
  }

  /** With `transform = "R"` on KNN weights (k >= 1), every row sums to 1, every
      weight is 1/k, and every neighbour is a cell of the buffer: the lag is a
      weighted average. */
  lemma StandardisedKnnIsRowStochastic(knn: seq<seq<nat>>, n: nat, k: nat)
    requires k >= 1 && IsKnn(knn, n, k)
    ensures RowStochastic(StandardisedKnn(knn), n)
    ensures forall i, j :: 0 <= i < n && 0 <= j < k ==>
      StandardisedKnn(knn)[i][j] == Link(knn[i][j], 1.0 / (k as real))
  {
    var w := StandardisedKnn(knn);
    var unit := 1.0 / (k as real);
    assert unit > 0.0;
    forall i | 0 <= i < n
      ensures |w[i]| == k
      ensures forall j :: 0 <= j < k ==> w[i][j] == Link(knn[i][j], unit)
      ensures RowSum(w[i]) == 1.0
    {
      StandardisedKnnRow(knn, i, k);
    }
    forall i, j | 0 <= i < |w| && 0 <= j < |w[i]|
      ensures w[i][j].neighbour < n && w[i][j].weight >= 0.0
    {
      assert w[i][j] == Link(knn[i][j], unit);
    }
  }

  /** A row's lag is its weight total times `c` when `x` is `c` at every neighbour. */
  lemma {:induction false} RowLagOfConstant(row: seq<Link>, x: seq<real>, c: real)
    requires forall j :: 0 <= j < |row| ==> row[j].neighbour < |x| && x[row[j].neighbour] == c
    ensures RowLag(row, x) == c * RowSum(row)
  {
    if row != [] {
      RowLagOfConstant(row[1..], x, c);
      assert Map(row, WeightOf) == [row[0].weight] + Map(row[1..], WeightOf);
    }
  }

  /** Non-negative weights and neighbour values within [lo, hi] put a row's lag
      within [lo * total, hi * total]. */
  lemma {:induction false} RowLagBounds(row: seq<Link>, x: seq<real>, lo: real, hi: real)
    requires forall j :: 0 <= j < |row| ==> row[j].neighbour < |x| && row[j].weight >= 0.0
    requires forall j :: 0 <= j < |row| ==> lo <= x[row[j].neighbour] <= hi
    ensures lo * RowSum(row) <= RowLag(row, x) <= hi * RowSum(row)
  {
    if row != [] {
      var rest := row[1..];
      RowLagBounds(rest, x, lo, hi);
      assert Map(row, WeightOf) == [row[0].weight] + Map(rest, WeightOf);
      StepBounds(lo, hi, row[0].weight, x[row[0].neighbour], RowSum(rest), RowLag(rest, x));
    }
  }

  /** One more neighbour, of weight `w >= 0` and value `v` in [lo, hi], keeps a partial
      lag between lo and hi times the partial weight total. */
  lemma StepBounds(lo: real, hi: real, w: real, v: real, total: real, lag: real)
    requires w >= 0.0 && lo <= v <= hi
    requires lo * total <= lag <= hi * total
    ensures lo * (w + total) <= w * v + lag <= hi * (w + total)
  {
    assert (v - lo) * w >= 0.0;
    assert (hi - v) * w >= 0.0;
  }

  /** Rows summing to 1: if a metric is the constant `c` on every cell, every lag of
      it is `c`. */
  lemma LagOfConstant(w: Weights, x: seq<real>, c: real)
    requires RowStochastic(w, |x|)
    requires forall i :: 0 <= i < |x| ==> x[i] == c
    ensures forall i :: 0 <= i < |w| ==> Lag(w, x)[i] == c
  {
    forall i | 0 <= i < |w| ensures Lag(w, x)[i] == c {
      RowLagOfConstant(w[i], x, c);
    }
  }

  /** Each lag is a weighted average of the cell's neighbours, so it lies between
      the smallest and the largest value of the metric among them. */
  lemma LagWithinNeighbours(w: Weights, x: seq<real>, i: nat)
    requires RowStochastic(w, |x|) && i < |w| && |w[i]| > 0
    ensures var v := NeighbourValues(w[i], x);
      Min(v) <= Lag(w, x)[i] <= Max(v)
  {
    var v := NeighbourValues(w[i], x);
    LagRowBounds(w, x, i, Min(v), Max(v));
  }

  lemma LagRowBounds(w: Weights, x: seq<real>, i: nat, lo: real, hi: real)
    requires RowStochastic(w, |x|) && i < |w|
    requires forall j :: 0 <= j < |w[i]| ==> lo <= x[w[i][j].neighbour] <= hi
    ensures lo <= Lag(w, x)[i] <= hi
  {
    RowLagBounds(w[i], x, lo, hi);
  }
}
