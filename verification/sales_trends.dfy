/** Time-series analysis of the sales trend (src/app/api/reports/sales/trends/route.ts):
    moving averages, the half-split direction and strength, the variance
    behind the volatility, and the peak and trough indices. The series
    itself comes from the database aggregation, which is not part of this
    model; `toFixed(2)` rounding is left out. JavaScript's NaN and Infinity,
    which the response serialises as `null`, are `None`. */
module SalesTrends {
  import opened Wrappers
  import Sums

  /** The moving-average entry at `idx`: the sum of `arr.slice(idx - window + 1, idx + 1)`
      divided by the window. For a negative window the slice is empty, so the
      entry is 0. */
  function WindowAverage(data: seq<real>, window: int, idx: int): real
    requires window != 0 && 0 <= idx < |data| && window - 1 <= idx
  {
    if window > 0 then Sums.Sum(data[idx - window + 1 .. idx + 1]) / (window as real) else 0.0
  }

  /** `calculateMovingAverage(data, window)`. A window of 0 is replaced by 7
      before it gets here (`Number(...) || 7`). */
  function MovingAverage(data: seq<real>, window: int): (ma: seq<Option<real>>)
    requires window != 0
    ensures |ma| == |data|
    ensures forall i :: 0 <= i < |data| ==> (ma[i].None? <==> i < window - 1)
    ensures window > 0 ==>
              forall i :: window - 1 <= i < |data| ==>
                ma[i] == Some(Sums.Mean(data[i - window + 1 .. i + 1]))
    ensures window < 0 ==> forall i :: 0 <= i < |data| ==> ma[i] == Some(0.0)
  {
    seq(|data|, i requires 0 <= i < |data| => if i < window - 1 then None else Some(WindowAverage(data, window, i)))
  }

  /** Consecutive moving averages differ by the value entering the window
      less the value leaving it, over the window size. */
  lemma MovingAverageSlides(data: seq<real>, window: int, i: int)
    requires window > 0 && window <= i < |data|
    ensures MovingAverage(data, window)[i].value * (window as real)
         == MovingAverage(data, window)[i - 1].value * (window as real) + data[i] - data[i - window]
  {
    var ma := MovingAverage(data, window);
    var a := i - window;
    assert ma[i].value == Sums.Mean(data[a + 1 .. i + 1]) && ma[i - 1].value == Sums.Mean(data[a .. i]);
    Sums.MeanTimesLength(data[a + 1 .. i + 1]);
    Sums.MeanTimesLength(data[a .. i]);
    SlideSum(data, a, i);
  }

  /** Moving a slice one place right adds the value entering it and drops the one leaving it. */
  lemma SlideSum(data: seq<real>, a: int, i: int)
    requires 0 <= a < i < |data|
    ensures Sums.Sum(data[a + 1 .. i + 1]) == Sums.Sum(data[a .. i]) + data[i] - data[a]
  {
    assert data[a .. i + 1] == data[a .. i] + [data[i]];
    assert data[a .. i + 1] == [data[a]] + data[a + 1 .. i + 1];
    Sums.SumAppend(data[a .. i], [data[i]]);
    Sums.SumSingleton(data[i]);
    Sums.SumCons(data[a], data[a + 1 .. i + 1]);
  }

  /** A moving average stays within the range of the values it averages. */
  lemma MovingAverageBounded(data: seq<real>, window: int, lo: real, hi: real, i: int)
    requires window > 0 && window - 1 <= i < |data|
    requires forall j :: 0 <= j < |data| ==> lo <= data[j] <= hi
    ensures lo <= MovingAverage(data, window)[i].value <= hi
  {
    var slice := data[i - window + 1 .. i + 1];
    assert forall j :: 0 <= j < |slice| ==> slice[j] == data[i - window + 1 + j];
    Sums.MeanBounds(slice, lo, hi);
  }

  /** With a window of one, the moving average is the series itself. */
  lemma MovingAverageOfOne(data: seq<real>, i: int)
    requires 0 <= i < |data|
    ensures MovingAverage(data, 1)[i] == Some(data[i])
  {
    assert data[i .. i + 1] == [data[i]];
    Sums.SumSingleton(data[i]);
  }

  /** The first `floor(n / 2)` values and the rest. */
  function Halves(values: seq<real>): (h: (seq<real>, seq<real>))
    ensures h.0 + h.1 == values
    ensures |h.0| == |values| / 2
    ensures |h.1| == |h.0| || |h.1| == |h.0| + 1
  {
    (values[..|values| / 2], values[|values| / 2..])
  }

  /** The average of one half; NaN (`None`) for the empty first half of a
      one-point series. */
  function HalfAverage(half: seq<real>): (avg: Option<real>)
    ensures avg.None? <==> |half| == 0
    ensures avg.Some? ==> avg.value * (|half| as real) == Sums.Sum(half)
  {
    if |half| == 0 then None else Some(Sums.Mean(half))
  }

  datatype Direction = Upward | Downward | Stable | Neutral

  /** The direction from the two half averages, with 10% tolerance either way.
      Every comparison with NaN is false, so a missing average gives "stable". */
  function Classify(first: Option<real>, second: Option<real>): (d: Direction)
    ensures d != Neutral
    ensures (first.None? || second.None?) ==> d == Stable
  {
    if first.Some? && second.Some? && second.value > first.value * 1.1 then Upward
    else if first.Some? && second.Some? && second.value < first.value * 0.9 then Downward
    else Stable
  }

  /** From a positive baseline the three directions mean exactly: more than
      10% up, more than 10% down, and within 10%. */
  lemma ClassifyPositiveBaseline(a: real, b: real)
    requires a > 0.0
    ensures Classify(Some(a), Some(b)) == Upward <==> b > 1.1 * a
    ensures Classify(Some(a), Some(b)) == Downward <==> b < 0.9 * a
    ensures Classify(Some(a), Some(b)) == Stable <==> 0.9 * a <= b <= 1.1 * a
    ensures Classify(Some(a), Some(b)) == Upward ==> b > a
    ensures Classify(Some(a), Some(b)) == Downward ==> b < a
  {
  }

  /** From a negative baseline the tolerance band is inverted: an unchanged
      average counts as "upward". */
  lemma ClassifyNegativeBaseline(a: real)
    requires a < 0.0
    ensures Classify(Some(a), Some(a)) == Upward
  {
  }

  /** `trendStrength`: the absolute change between the half averages, as a
      percentage of the first; NaN or Infinity (`None`) when the first half is
      empty or averages 0. */
  function Strength(first: Option<real>, second: Option<real>): (s: Option<real>)
    ensures s.None? <==> first.None? || second.None? || first.value == 0.0
    ensures s.Some? ==> s.value >= 0.0
    ensures s.Some? ==> s.value * Abs(first.value) == Abs(second.value - first.value) * 100.0
  {
    if first.None? || second.None? || first.value == 0.0 then None
    else
      var a := first.value;
      var q := (second.value - a) / a * 100.0;
      assert q * a == (second.value - a) * 100.0;
      AbsMul(q, a);
      Some(Abs(q))
  }

  function Abs(x: real): (y: real)
    ensures y >= 0.0 && (y == x || y == -x)
  {
    if x >= 0.0 then x else -x
  }

  lemma AbsMul(x: real, y: real)
    ensures Abs(x) * Abs(y) == Abs(x * y)
  {
    if x >= 0.0 && y < 0.0 {
      assert x * y <= 0.0;
    }
    if x < 0.0 && y >= 0.0 {
      assert x * y <= 0.0;
    }
    if x < 0.0 && y < 0.0 {
      assert x * y > 0.0;
    }
    if x >= 0.0 && y >= 0.0 {
      assert x * y >= 0.0;
    }
  }

  lemma SquareNonNegative(x: real)
    ensures x * x >= 0.0
  {
    if x >= 0.0 {
      assert x * x >= 0.0 * x;
    } else {
      assert x * x == (-x) * (-x);
      assert (-x) * (-x) >= 0.0 * (-x);
    }
  }

  function SquaredDeviations(values: seq<real>, mean: real): (ds: seq<real>)
    ensures |ds| == |values|
    ensures forall i :: 0 <= i < |values| ==> ds[i] == (values[i] - mean) * (values[i] - mean)
  {
    seq(|values|, i requires 0 <= i < |values| => (values[i] - mean) * (values[i] - mean))
  }

  lemma DeviationsNonNegative(values: seq<real>, mean: real)
    ensures forall i :: 0 <= i < |values| ==> SquaredDeviations(values, mean)[i] >= 0.0
  {
    forall i | 0 <= i < |values|
      ensures SquaredDeviations(values, mean)[i] >= 0.0
    {
      SquareNonNegative(values[i] - mean);
    }
  }

  /** The variance whose square root is the reported volatility. */
  function Variance(values: seq<real>): (v: real)
    requires |values| > 0
    ensures v >= 0.0
  {
    var ds := SquaredDeviations(values, Sums.Mean(values));
    DeviationsNonNegative(values, Sums.Mean(values));
    Sums.SumNonNegative(ds);
    Sums.Sum(ds) / (|values| as real)
  }

  /** A flat series has no variance. */
  lemma FlatSeriesHasNoVariance(values: seq<real>, c: real)
    requires |values| > 0
    requires forall i :: 0 <= i < |values| ==> values[i] == c
    ensures Variance(values) == 0.0
  {
    Sums.MeanConstant(values, c);
    var ds := SquaredDeviations(values, Sums.Mean(values));
    Sums.SumBounds(ds, 0.0, 0.0);
  }

  lemma SquareZero(x: real)
    ensures x * x == 0.0 <==> x == 0.0
  {
    if x != 0.0 {
      assert x * x / x == x;
    }
  }

  /** The converse of a flat series having no variance: a variance of zero
      means every value equals the mean. */
  lemma ZeroVarianceIsFlat(values: seq<real>)
    requires |values| > 0
    ensures Variance(values) == 0.0 <==> forall i :: 0 <= i < |values| ==> values[i] == Sums.Mean(values)
  {
    var m := Sums.Mean(values);
    var ds := SquaredDeviations(values, m);
    DeviationsNonNegative(values, m);
    Sums.SumZero(ds);
    assert Variance(values) == 0.0 <==> Sums.Sum(ds) == 0.0;
    forall i | 0 <= i < |values|
      ensures ds[i] == 0.0 <==> values[i] == m
    {
      SquareZero(values[i] - m);
    }
  }

  /** `trendDirection` of a series: "neutral" when empty, otherwise the
      classification of its half averages. */
  function TrendDirection(values: seq<real>): (d: Direction)
    ensures d == Neutral <==> |values| == 0
    ensures |values| == 1 ==> d == Stable
    ensures |values| >= 2 ==>
              var h := Halves(values);
              d == Classify(Some(Sums.Mean(h.0)), Some(Sums.Mean(h.1)))
  {
    if |values| == 0 then Neutral
    else
      var h := Halves(values);
      Classify(HalfAverage(h.0), HalfAverage(h.1))
  }

  /** The `analysis` block: "neutral" with strength and volatility 0 for an
      empty series; otherwise the half-split direction and strength and the
      variance. */
  datatype Analysis = Analysis(direction: Direction, strength: Option<real>, variance: real)

  function Analyze(values: seq<real>): (a: Analysis)
    ensures a.direction == TrendDirection(values)
    ensures |values| == 0 ==> a == Analysis(Neutral, Some(0.0), 0.0)
    ensures |values| == 1 ==> a.strength.None?
    ensures |values| >= 2 ==> (a.strength.Some? <==> Sums.Mean(Halves(values).0) != 0.0)
    ensures a.variance >= 0.0
    ensures |values| >= 1 ==>
              var h := Halves(values);
              a.strength == Strength(HalfAverage(h.0), HalfAverage(h.1)) && a.variance == Variance(values)
  {
    if |values| == 0 then Analysis(Neutral, Some(0.0), 0.0)
    else
      var h := Halves(values);
      var first := HalfAverage(h.0);
      var second := HalfAverage(h.1);
      Analysis(Classify(first, second), Strength(first, second), Variance(values))
  }

  /** Scaling both averages by the same positive factor keeps the class. */
  lemma ClassifyScale(a: real, b: real, c: real)
    requires c > 0.0
    ensures Classify(Some(c * a), Some(c * b)) == Classify(Some(a), Some(b))
  {
    assert c * b - (c * a) * 1.1 == c * (b - a * 1.1);
    assert c * b - (c * a) * 0.9 == c * (b - a * 0.9);
    if b - a * 1.1 > 0.0 {
      assert c * (b - a * 1.1) > 0.0;
    } else {
      assert c * (b - a * 1.1) <= 0.0;
    }
    if b - a * 0.9 < 0.0 {
      assert c * (b - a * 0.9) < 0.0;
    } else {
      assert c * (b - a * 0.9) >= 0.0;
    }
  }

  /** The direction does not depend on the unit of the revenue: scaling every
      value by the same positive factor leaves it unchanged. */
  lemma DirectionScaleInvariant(values: seq<real>, c: real)
    requires |values| >= 2 && c > 0.0
    ensures TrendDirection(Sums.Scale(c, values)) == TrendDirection(values)
  {
    var k := |values| / 2;
    var scaled := Sums.Scale(c, values);
    assert |scaled| == |values|;
    ScaleSlices(c, values, k);
    var a := Sums.Mean(values[..k]);
    var b := Sums.Mean(values[k..]);
    Sums.MeanScale(c, values[..k]);
    Sums.MeanScale(c, values[k..]);
    var sa := Sums.Mean(scaled[..k]);
    var sb := Sums.Mean(scaled[k..]);
    assert sa == c * a && sb == c * b;
    ClassifyScale(a, b, c);
    assert TrendDirection(values) == Classify(Some(a), Some(b));
    assert TrendDirection(scaled) == Classify(Some(sa), Some(sb));
  }

  lemma ScaleSlices(c: real, xs: seq<real>, k: int)
    requires 0 <= k <= |xs|
    ensures Sums.Scale(c, xs)[..k] == Sums.Scale(c, xs[..k])
    ensures Sums.Scale(c, xs)[k..] == Sums.Scale(c, xs[k..])
  {
    var ys := Sums.Scale(c, xs);
    assert forall i :: 0 <= i < k ==> ys[..k][i] == c * xs[..k][i];
    assert forall i :: 0 <= i < |xs| - k ==> ys[k..][i] == c * xs[k..][i];
  }

  /** A flat non-negative series is "stable". */
  lemma FlatSeriesIsStable(values: seq<real>, c: real)
    requires |values| >= 1 && c >= 0.0
    requires forall i :: 0 <= i < |values| ==> values[i] == c
    ensures TrendDirection(values) == Stable
  {
    if |values| >= 2 {
      var h := Halves(values);
      assert forall i :: 0 <= i < |h.0| ==> h.0[i] == values[i];
      assert forall i :: 0 <= i < |h.1| ==> h.1[i] == values[|h.0| + i];
      Sums.MeanConstant(h.0, c);
      Sums.MeanConstant(h.1, c);
    }
  }

  /** `k` is where `indexOf` finds the maximum: a maximal value, and the first one. */
  predicate IsFirstMax(values: seq<real>, k: int) {
    && 0 <= k < |values|
    && (forall i :: 0 <= i < |values| ==> values[i] <= values[k])
    && (forall i :: 0 <= i < k ==> values[i] < values[k])
  }

  predicate IsFirstMin(values: seq<real>, k: int) {
    && 0 <= k < |values|
    && (forall i :: 0 <= i < |values| ==> values[k] <= values[i])
    && (forall i :: 0 <= i < k ==> values[k] < values[i])
  }

  /** There is only one first maximum. */
  lemma FirstMaxUnique(values: seq<real>, k1: int, k2: int)
    requires IsFirstMax(values, k1) && IsFirstMax(values, k2)
    ensures k1 == k2
  {
    assert values[k1] == values[k2];
  }

  /** There is only one first minimum. */
  lemma FirstMinUnique(values: seq<real>, k1: int, k2: int)
    requires IsFirstMin(values, k1) && IsFirstMin(values, k2)
    ensures k1 == k2
  {
    assert values[k1] == values[k2];
  }

  /** `revenueValues.indexOf(Math.max(...revenueValues))`, for the non-empty
      series this code is reached with. */
  method PeakIndex(values: seq<real>) returns (k: int)
    requires |values| > 0
    ensures IsFirstMax(values, k)
  {
    k := 0;
    var j := 1;
    while j < |values|
      invariant 1 <= j <= |values| && 0 <= k < j
      invariant forall i :: 0 <= i < j ==> values[i] <= values[k]
      invariant forall i :: 0 <= i < k ==> values[i] < values[k]
    {
      if values[j] > values[k] {
        k := j;
      }
      j := j + 1;
    }
  }

  /** `revenueValues.indexOf(Math.min(...revenueValues))`. */
  method TroughIndex(values: seq<real>) returns (k: int)
    requires |values| > 0
    ensures IsFirstMin(values, k)
  {
    k := 0;
    var j := 1;
    while j < |values|
      invariant 1 <= j <= |values| && 0 <= k < j
      invariant forall i :: 0 <= i < j ==> values[k] <= values[i]
      invariant forall i :: 0 <= i < k ==> values[k] < values[i]
    {
      if values[j] < values[k] {
        k := j;
      }
      j := j + 1;
    }
  }
}
