/** Period-over-period growth (src/app/api/reports/sales/growth/route.ts):
    `calculateGrowth`, the choice of the last two periods, and the totals and
    averages over all periods. The per-period figures come from the database
    aggregation, which is not part of this model; rounding is left out. */
module SalesGrowth {
  import opened Wrappers
  import Sums

  /** The growth rate in percent: 0 from 0 to 0, 100 from 0 to anything else,
      and otherwise the change relative to the previous value. */
  function GrowthRate(curr: real, prev: real): (rate: real)
    ensures prev == 0.0 ==> rate == (if curr == 0.0 then 0.0 else 100.0)
    ensures prev != 0.0 ==> rate * prev == (curr - prev) * 100.0
  {
    if prev == 0.0 then (if curr == 0.0 then 0.0 else 100.0) else (curr - prev) / prev * 100.0
  }

  /** From a positive previous value, the rate has the sign of the change. */
  lemma GrowthRateSign(curr: real, prev: real)
    requires prev > 0.0
    ensures GrowthRate(curr, prev) > 0.0 <==> curr > prev
    ensures GrowthRate(curr, prev) < 0.0 <==> curr < prev
    ensures GrowthRate(curr, prev) >= -100.0 <==> curr >= 0.0
  {
    var r := GrowthRate(curr, prev);
    assert r * prev == (curr - prev) * 100.0;
    if r > 0.0 {
      assert r * prev > 0.0;
    }
    if r < 0.0 {
      assert r * prev < 0.0;
    }
    if curr > prev {
      assert (curr - prev) / prev > 0.0;
    }
    if curr < prev {
      assert (curr - prev) / prev < 0.0;
    }
    assert (r + 100.0) * prev == curr * 100.0;
    if r >= -100.0 {
      assert (r + 100.0) * prev >= 0.0;
    } else {
      assert (r + 100.0) * prev < 0.0;
    }
  }

  datatype Metric = Metric(current: real, previous: real, growth: real, growthRate: real)

  /** `calculateGrowth(curr, prev)`. */
  function CalculateGrowth(curr: real, prev: real): (m: Metric)
    ensures m.current == curr && m.previous == prev
    ensures m.previous + m.growth == m.current
    ensures m.growthRate == GrowthRate(curr, prev)
  {
    Metric(curr, prev, curr - prev, GrowthRate(curr, prev))
  }

  const ZeroMetric: Metric := Metric(0.0, 0.0, 0.0, 0.0)

  /** One aggregated period, oldest first. */
  datatype PeriodData = PeriodData(revenue: real, orders: real, avgOrderValue: real)

  datatype GrowthMetrics = GrowthMetrics(revenue: Metric, orders: Metric, avgOrderValue: Metric)

  datatype OverallTrend = OverallTrend(totalRevenue: real, totalOrders: real, avgRevenue: real, avgOrders: real)

  /** The response body: the metrics, and the overall trend (absent from the
      "insufficient data" response). */
  datatype GrowthReport = GrowthReport(metrics: GrowthMetrics, overall: Option<OverallTrend>)

  function Revenues(periods: seq<PeriodData>): (r: seq<real>)
    ensures |r| == |periods| && forall i :: 0 <= i < |periods| ==> r[i] == periods[i].revenue
  {
    seq(|periods|, i requires 0 <= i < |periods| => periods[i].revenue)
  }

  function Orders(periods: seq<PeriodData>): (r: seq<real>)
    ensures |r| == |periods| && forall i :: 0 <= i < |periods| ==> r[i] == periods[i].orders
  {
    seq(|periods|, i requires 0 <= i < |periods| => periods[i].orders)
  }

  /** The report for the aggregated periods: with fewer than two, all-zero
      metrics; otherwise the growth of the last period over the one before it,
      and totals and averages over every period. */
  function Report(periods: seq<PeriodData>): (r: GrowthReport)
    ensures |periods| < 2 ==> r == GrowthReport(GrowthMetrics(ZeroMetric, ZeroMetric, ZeroMetric), None)
    ensures |periods| >= 2 ==>
              var curr := periods[|periods| - 1];
              var prev := periods[|periods| - 2];
              && r.metrics.revenue == CalculateGrowth(curr.revenue, prev.revenue)
              && r.metrics.orders == CalculateGrowth(curr.orders, prev.orders)
              && r.metrics.avgOrderValue == CalculateGrowth(curr.avgOrderValue, prev.avgOrderValue)
              && r.overall.Some?
              && r.overall.value.totalRevenue == Sums.Sum(Revenues(periods))
              && r.overall.value.totalOrders == Sums.Sum(Orders(periods))
              && r.overall.value.avgRevenue * (|periods| as real) == r.overall.value.totalRevenue
              && r.overall.value.avgOrders * (|periods| as real) == r.overall.value.totalOrders
  {
    if |periods| < 2 then
      GrowthReport(GrowthMetrics(ZeroMetric, ZeroMetric, ZeroMetric), None)
    else
      var curr := periods[|periods| - 1];
      var prev := periods[|periods| - 2];
      var n := |periods| as real;
      var totalRevenue := Sums.Sum(Revenues(periods));
      var totalOrders := Sums.Sum(Orders(periods));
      GrowthReport(
        GrowthMetrics(CalculateGrowth(curr.revenue, prev.revenue),
                      CalculateGrowth(curr.orders, prev.orders),
                      CalculateGrowth(curr.avgOrderValue, prev.avgOrderValue)),
        Some(OverallTrend(totalRevenue, totalOrders, totalRevenue / n, totalOrders / n)))
  }

  /** When one more period arrives, the current period of the old report is
      the previous period of the new one, and the total grows by its revenue. */
  lemma ReportShifts(periods: seq<PeriodData>, next: PeriodData)
    requires |periods| >= 2
    ensures Report(periods + [next]).metrics.revenue.previous == Report(periods).metrics.revenue.current
    ensures Report(periods + [next]).metrics.revenue.current == next.revenue
    ensures Report(periods + [next]).overall.value.totalRevenue
         == Report(periods).overall.value.totalRevenue + next.revenue
  {
    assert Revenues(periods + [next]) == Revenues(periods) + [next.revenue];
    Sums.SumAppend(Revenues(periods), [next.revenue]);
    Sums.SumSingleton(next.revenue);
  }
}
