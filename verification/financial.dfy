/** Pure arithmetic of the financial report (src/app/api/reports/financial/route.ts):
    the health score and its status, the profit margin of each period, and the
    first-to-last growth percentages. Averages come from the database
    aggregation, which is not part of this model; `toFixed(2)` rounding is
    left out, so all values are exact reals. */
module FinancialReport {
  import opened Wrappers
  import Sums

  /** The averages the health score reads. */
  datatype HealthMetrics = HealthMetrics(avgCurrentRatio: real, avgCashFlowRatio: real, avgLiquidityRatio: real,
                                         avgOpexRatio: real, avgOperationProfit: real)

  /** Current-ratio factor: present when the average is positive, full at 1.5 or more. */
  function CurrentRatioFactor(avg: real): (f: Option<real>)
    ensures f.Some? <==> avg > 0.0
    ensures f.Some? ==> 0.0 < f.value <= 20.0
    ensures f.Some? ==> (f.value == 20.0 <==> avg >= 1.5)
  {
    if avg <= 0.0 then None else if avg >= 1.5 then Some(20.0) else Some(avg / 1.5 * 20.0)
  }

  /** Cash-flow and liquidity factors: present when positive, full at 1 or more. */
  function UnitRatioFactor(avg: real): (f: Option<real>)
    ensures f.Some? <==> avg > 0.0
    ensures f.Some? ==> 0.0 < f.value <= 20.0
    ensures f.Some? ==> (f.value == 20.0 <==> avg >= 1.0)
  {
    if avg <= 0.0 then None else if avg >= 1.0 then Some(20.0) else Some(avg * 20.0)
  }

  /** Operating-expense factor: present when positive, full at 30 or less, and
      losing one point per point above 30, down to 0. */
  function OpexFactor(avg: real): (f: Option<real>)
    ensures f.Some? <==> avg > 0.0
    ensures f.Some? ==> 0.0 <= f.value <= 20.0
    ensures f.Some? ==> (f.value == 20.0 <==> avg <= 30.0)
    ensures f.Some? ==> (f.value == 0.0 <==> avg >= 50.0)
  {
    if avg <= 0.0 then None
    else if avg <= 30.0 then Some(20.0)
    else Some(if 20.0 - (avg - 30.0) > 0.0 then 20.0 - (avg - 30.0) else 0.0)
  }

  /** Profitability factor: a full 20 when the operation profit is positive, absent otherwise. */
  function ProfitFactor(avg: real): (f: Option<real>)
    ensures f.Some? <==> avg > 0.0
    ensures f.Some? ==> f.value == 20.0
  {
    if avg > 0.0 then Some(20.0) else None
  }

  function Present(f: Option<real>): seq<real> {
    if f.Some? then [f.value] else []
  }

  /** The contributions of the factors whose average is positive, in source order. */
  function Factors(h: HealthMetrics): (fs: seq<real>)
    ensures |fs| <= 5
    ensures forall i :: 0 <= i < |fs| ==> 0.0 <= fs[i] <= 20.0
    ensures |fs| == 0 <==>
              h.avgCurrentRatio <= 0.0 && h.avgCashFlowRatio <= 0.0 && h.avgLiquidityRatio <= 0.0
              && h.avgOpexRatio <= 0.0 && h.avgOperationProfit <= 0.0
  {
    Present(CurrentRatioFactor(h.avgCurrentRatio))
    + Present(UnitRatioFactor(h.avgCashFlowRatio))
    + Present(UnitRatioFactor(h.avgLiquidityRatio))
    + Present(OpexFactor(h.avgOpexRatio))
    + Present(ProfitFactor(h.avgOperationProfit))
  }

  datatype HealthStatus = Excellent | Good | Fair | Poor

  /** The status thresholds 80 / 60 / 40. */
  function Status(score: real): (st: HealthStatus)
    ensures st == Excellent <==> score >= 80.0
    ensures st == Good <==> 60.0 <= score < 80.0
    ensures st == Fair <==> 40.0 <= score < 60.0
    ensures st == Poor <==> score < 40.0
  {
    if score >= 80.0 then Excellent else if score >= 60.0 then Good else if score >= 40.0 then Fair else Poor
  }

  /** `calculateHealthScore` as written: the plain average of the present
      factors, so at most 20; 0 when no factor is present. */
  function HealthScoreAsWritten(h: HealthMetrics): (score: real)
    ensures 0.0 <= score <= 20.0
    ensures |Factors(h)| == 0 ==> score == 0.0
  {
    var fs := Factors(h);
    if |fs| > 0 then
      Sums.MeanBounds(fs, 0.0, 20.0);
      Sums.Mean(fs)
    else
      0.0
  }

  /** With the score as written, the status is "poor" for every input. */
  lemma StatusAlwaysPoorAsWritten(h: HealthMetrics)
    ensures Status(HealthScoreAsWritten(h)) == Poor
  {
  }

  /** The evidently intended score: the average factor, out of 20, scaled to
      the 0-100 range the thresholds are written for. */
  function HealthScore(h: HealthMetrics): (score: real)
    ensures 0.0 <= score <= 100.0
    ensures |Factors(h)| == 0 ==> score == 0.0
    ensures score == 5.0 * HealthScoreAsWritten(h)
  {
    var fs := Factors(h);
    if |fs| > 0 then
      Sums.MeanBounds(fs, 0.0, 20.0);
      Sums.Mean(fs) * 5.0
    else
      0.0
  }

  /** Healthy on every factor: each average reaches the level at which its
      factor is full. */
  predicate HealthyOnEveryFactor(h: HealthMetrics) {
    && h.avgCurrentRatio >= 1.5 && h.avgCashFlowRatio >= 1.0 && h.avgLiquidityRatio >= 1.0
    && 0.0 < h.avgOpexRatio <= 30.0 && h.avgOperationProfit > 0.0
  }

  /** A company that is healthy on every factor is "excellent" under the
      corrected score, and "poor" under the score as written. */
  lemma HealthyIsExcellent(h: HealthMetrics)
    requires HealthyOnEveryFactor(h)
    ensures Status(HealthScore(h)) == Excellent
    ensures Status(HealthScoreAsWritten(h)) == Poor
  {
    assert Factors(h) == [20.0, 20.0, 20.0, 20.0, 20.0];
    Sums.MeanConstant(Factors(h), 20.0);
  }

  /** Under the corrected score the lower statuses are reached too. */
  lemma CorrectedStatusesReachable()
    ensures Status(HealthScore(HealthMetrics(1.05, 0.0, 0.0, 0.0, 0.0))) == Good
    ensures Status(HealthScore(HealthMetrics(0.75, 0.0, 0.0, 0.0, 0.0))) == Fair
    ensures Status(HealthScore(HealthMetrics(0.3, 0.0, 0.0, 0.0, 0.0))) == Poor
  {
    assert Factors(HealthMetrics(1.05, 0.0, 0.0, 0.0, 0.0)) == [14.0];
    Sums.SumSingleton(14.0);
    assert Factors(HealthMetrics(0.75, 0.0, 0.0, 0.0, 0.0)) == [10.0];
    Sums.SumSingleton(10.0);
    assert Factors(HealthMetrics(0.3, 0.0, 0.0, 0.0, 0.0)) == [4.0];
    Sums.SumSingleton(4.0);
  }

  /** `profitMargin`: operation profit as a percentage of gross profit, 0 when
      the gross profit is not positive. */
  function ProfitMargin(grossProfit: real, operationProfit: real): (m: real)
    ensures grossProfit <= 0.0 ==> m == 0.0
    ensures grossProfit > 0.0 ==> m * grossProfit == operationProfit * 100.0
  {
    if grossProfit > 0.0 then operationProfit / grossProfit * 100.0 else 0.0
  }

  /** With a positive gross profit, the margin has the sign of the operation
      profit, and is 100 exactly when all of the gross profit remains. */
  lemma ProfitMarginSign(grossProfit: real, operationProfit: real)
    requires grossProfit > 0.0
    ensures ProfitMargin(grossProfit, operationProfit) > 0.0 <==> operationProfit > 0.0
    ensures ProfitMargin(grossProfit, operationProfit) == 0.0 <==> operationProfit == 0.0
    ensures ProfitMargin(grossProfit, operationProfit) == 100.0 <==> operationProfit == grossProfit
  {
    ScaledQuotientSign(operationProfit, grossProfit);
    var m := ProfitMargin(grossProfit, operationProfit);
    assert m * grossProfit == operationProfit * 100.0;
    assert (m - 100.0) * grossProfit == (operationProfit - grossProfit) * 100.0;
    if m == 100.0 {
      assert (operationProfit - grossProfit) * 100.0 == 0.0;
    }
    if operationProfit == grossProfit {
      assert (m - 100.0) * grossProfit == 0.0;
    }
  }

  /** `Math.abs(first || 1)`: the magnitude of the first value, or 1 when it is 0. */
  function GrowthDivisor(first: real): (d: real)
    ensures d > 0.0
    ensures first != 0.0 ==> d == (if first > 0.0 then first else -first)
  {
    var v := if first != 0.0 then first else 1.0;
    if v > 0.0 then v else -v
  }

  /** Growth from `first` to `last` as a percentage of |first| (or of 1 when first is 0). */
  function PercentGrowth(first: real, last: real): (g: real)
    ensures g * GrowthDivisor(first) == (last - first) * 100.0
    ensures g > 0.0 <==> last > first
    ensures g == 0.0 <==> last == first
  {
    var d := GrowthDivisor(first);
    ScaledQuotientSign(last - first, d);
    (last - first) / d * 100.0
  }

  /** A percentage of a positive base keeps the sign of the numerator. */
  lemma ScaledQuotientSign(a: real, d: real)
    requires d > 0.0
    ensures (a / d * 100.0) * d == a * 100.0
    ensures a / d * 100.0 > 0.0 <==> a > 0.0
    ensures a / d * 100.0 == 0.0 <==> a == 0.0
  {
    var g := a / d * 100.0;
    assert g * d == a * 100.0;
    if g > 0.0 {
      assert g * d > 0.0;
    }
    if a > 0.0 {
      assert a / d > 0.0;
    }
  }

  /** One period of the financial trend. */
  datatype Period = Period(netWorth: real, operationProfit: real, workingCapital: real)

  datatype Growth = Growth(netWorthGrowth: real, profitGrowth: real, capitalGrowth: real)

  /** `growthAnalysis`: compares the first and last periods; none for fewer than two. */
  function GrowthAnalysis(trend: seq<Period>): (r: Option<Growth>)
    ensures r.None? <==> |trend| < 2
    ensures r.Some? ==>
              var first := trend[0];
              var last := trend[|trend| - 1];
              && r.value.netWorthGrowth * GrowthDivisor(first.netWorth) == (last.netWorth - first.netWorth) * 100.0
              && r.value.profitGrowth * GrowthDivisor(first.operationProfit)
                 == (last.operationProfit - first.operationProfit) * 100.0
              && r.value.capitalGrowth * GrowthDivisor(first.workingCapital)
                 == (last.workingCapital - first.workingCapital) * 100.0
  {
    if |trend| < 2 then None
    else
      var first := trend[0];
      var last := trend[|trend| - 1];
      Some(Growth(PercentGrowth(first.netWorth, last.netWorth),
                  PercentGrowth(first.operationProfit, last.operationProfit),
                  PercentGrowth(first.workingCapital, last.workingCapital)))
  }

  /** Only the first and last periods matter: the periods in between can be
      anything. */
  lemma GrowthIgnoresMiddle(trend: seq<Period>, middle: seq<Period>)
    requires |trend| >= 2
    ensures GrowthAnalysis(trend) == GrowthAnalysis([trend[0]] + middle + [trend[|trend| - 1]])
  {
  }
}
