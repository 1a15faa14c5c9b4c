/** The monthly part of the sales summary (src/app/api/reports/sales/summary/route.ts):
    the rolling window of the last twelve calendar months, the `year-MM`
    lookup keys, the zero-filled trend, the ratio guards and the
    month-over-month growth rate. The totals and the per-month sums come from
    database aggregations, which are not part of this model. */
module SalesSummary {
  import opened Decimal
  import SalesGrowth

  const MonthNames: seq<string> := ["Jan", "Feb", "Mar", "Apr", "May", "Jun", "Jul", "Aug", "Sep", "Oct", "Nov", "Dec"]

  /** One entry of `months`: a calendar month with its zero-based index. */
  datatype MonthSlot = MonthSlot(year: int, monthIndex: int, name: string)

  /** The number of months since January of year 0; consecutive calendar
      months have consecutive serials. */
  function Serial(year: int, monthIndex: int): int {
    year * 12 + monthIndex
  }

  /** A serial determines its calendar month. */
  lemma SerialInjective(y1: int, m1: int, y2: int, m2: int)
    requires 0 <= m1 < 12 && 0 <= m2 < 12
    ensures Serial(y1, m1) == Serial(y2, m2) <==> y1 == y2 && m1 == m2
  {
    assert Serial(y1, m1) / 12 == y1 && Serial(y1, m1) % 12 == m1;
    assert Serial(y2, m2) / 12 == y2 && Serial(y2, m2) % 12 == m2;
  }

  /** `new Date(year, monthIndex - back, 1)`: a month index outside 0..11
      carries into the year, by floor division. */
  function MonthBack(year: int, monthIndex: int, back: int): (m: MonthSlot)
    ensures 0 <= m.monthIndex < 12
    ensures m.name == MonthNames[m.monthIndex]
    ensures Serial(m.year, m.monthIndex) == Serial(year, monthIndex) - back
  {
    var t := monthIndex - back;
    assert (year + t / 12) * 12 == year * 12 + (t / 12) * 12;
    MonthSlot(year + t / 12, t % 12, MonthNames[t % 12])
  }

  /** `months`: the twelve calendar months ending with the current one, oldest first. */
  function MonthWindow(year: int, monthIndex: int): (w: seq<MonthSlot>)
    ensures |w| == 12
    ensures forall k :: 0 <= k < 12 ==> 0 <= w[k].monthIndex < 12 && w[k].name == MonthNames[w[k].monthIndex]
    ensures forall k :: 0 <= k < 12 ==> Serial(w[k].year, w[k].monthIndex) == Serial(year, monthIndex) - 11 + k
    ensures 0 <= monthIndex < 12 ==> w[11].year == year && w[11].monthIndex == monthIndex
  {
    var w := seq(12, k requires 0 <= k < 12 => MonthBack(year, monthIndex, 11 - k));
    if 0 <= monthIndex < 12 then
      SerialInjective(w[11].year, w[11].monthIndex, year, monthIndex);
      w
    else
      w
  }

  /** Each entry is the month after the one before it, with December rolling
      over into January of the next year. */
  lemma WindowConsecutive(year: int, monthIndex: int, k: int)
    requires 0 <= k < 11
    ensures var w := MonthWindow(year, monthIndex);
            if w[k].monthIndex == 11
            then w[k + 1].year == w[k].year + 1 && w[k + 1].monthIndex == 0
            else w[k + 1].year == w[k].year && w[k + 1].monthIndex == w[k].monthIndex + 1
  {
    var w := MonthWindow(year, monthIndex);
    if w[k].monthIndex == 11 {
      SerialInjective(w[k + 1].year, w[k + 1].monthIndex, w[k].year + 1, 0);
    } else {
      SerialInjective(w[k + 1].year, w[k + 1].monthIndex, w[k].year, w[k].monthIndex + 1);
    }
  }

  /** No calendar month appears twice in the window. */
  lemma WindowDistinct(year: int, monthIndex: int, k1: int, k2: int)
    requires 0 <= k1 < 12 && 0 <= k2 < 12
    ensures var w := MonthWindow(year, monthIndex);
            w[k1].year == w[k2].year && w[k1].monthIndex == w[k2].monthIndex <==> k1 == k2
  {
    var w := MonthWindow(year, monthIndex);
    SerialInjective(w[k1].year, w[k1].monthIndex, w[k2].year, w[k2].monthIndex);
  }

  /** `String(n).padStart(2, "0")`. */
  function Pad2(n: int): (s: string)
    ensures |s| >= 2
    ensures n >= 0 ==> AllDigits(s)
  {
    var d := IntToDecimal(n);
    IntToDecimalAllDigits(n);
    if |d| >= 2 then d else "0" + d
  }

  lemma {:induction false} LeadingZeroValue(s: string)
    requires AllDigits(s)
    ensures AllDigits("0" + s) && DigitsValue("0" + s) == DigitsValue(s)
    decreases |s|
  {
    if |s| > 0 {
      LeadingZeroValue(s[..|s| - 1]);
      assert ("0" + s)[..|s|] == "0" + s[..|s| - 1];
    }
  }

  /** The padded rendering of a non-negative number reads back as that number. */
  lemma Pad2RoundTrip(n: nat)
    ensures AllDigits(Pad2(n)) && DigitsValue(Pad2(n)) == n
  {
    NatRoundTrip(n);
    LeadingZeroValue(NatToDecimal(n));
  }

  /** Two-digit numbers pad to exactly two characters. */
  lemma Pad2Length(n: int)
    requires 0 <= n < 100
    ensures |Pad2(n)| == 2
  {
    if n >= 10 {
      assert NatToDecimal(n) == NatToDecimal(n / 10) + [DigitChar(n % 10)];
    }
  }

  /** The lookup key `${year}-${MM}`, e.g. "2025-03", with a one-based month. */
  function MonthKey(year: int, month: int): string {
    IntToDecimal(year) + "-" + Pad2(month)
  }

  /** For a month 1..12 the key is the year's rendering, a dash, and the
      two-digit month, so the year and the month can be read back from it. */
  lemma MonthKeyLayout(year: int, month: int)
    requires 1 <= month <= 12
    ensures var key := MonthKey(year, month);
            && |key| == |IntToDecimal(year)| + 3
            && key[..|key| - 3] == IntToDecimal(year)
            && key[|key| - 3] == '-'
            && key[|key| - 2..] == Pad2(month)
  {
    Pad2Length(month);
  }

  /** Keys identify months: two months share a key exactly when they are the
      same calendar month, so the aggregate's keys and the window's keys align. */
  lemma MonthKeyInjective(y1: int, m1: int, y2: int, m2: int)
    requires 1 <= m1 <= 12 && 1 <= m2 <= 12
    ensures MonthKey(y1, m1) == MonthKey(y2, m2) <==> y1 == y2 && m1 == m2
  {
    var k1 := MonthKey(y1, m1);
    var k2 := MonthKey(y2, m2);
    MonthKeyLayout(y1, m1);
    MonthKeyLayout(y2, m2);
    if k1 == k2 {
      IntToDecimalInjective(y1, y2);
      Pad2RoundTrip(m1);
      Pad2RoundTrip(m2);
    }
  }

  /** One row of the monthly aggregation, `month` one-based as `$month` yields it. */
  datatype MonthAgg = MonthAgg(year: int, month: int, revenue: real, orders: real)

  datatype Totals = Totals(revenue: real, orders: real)

  /** The key a row is filed under. */
  function AggKey(a: MonthAgg): string {
    MonthKey(a.year, a.month)
  }

  /** `monthMap`: every row under its key, a later row replacing an earlier one. */
  function BuildMonthMap(aggs: seq<MonthAgg>): (m: map<string, Totals>)
    ensures |m| <= |aggs|
  {
    if |aggs| == 0 then map[]
    else
      var last := aggs[|aggs| - 1];
      BuildMonthMap(aggs[..|aggs| - 1])[AggKey(last) := Totals(last.revenue, last.orders)]
  }

  /** The keys of the rows, in order. */
  function RowKeys(aggs: seq<MonthAgg>): (ks: seq<string>)
    ensures |ks| == |aggs| && forall i :: 0 <= i < |aggs| ==> ks[i] == AggKey(aggs[i])
  {
    seq(|aggs|, i requires 0 <= i < |aggs| => AggKey(aggs[i]))
  }

  /** The map's keys are exactly the keys of the rows. */
  lemma {:induction false} MonthMapKeys(aggs: seq<MonthAgg>)
    ensures forall k :: k in BuildMonthMap(aggs) <==> k in RowKeys(aggs)
    decreases |aggs|
  {
    if |aggs| > 0 {
      var init := aggs[..|aggs| - 1];
      var ks := RowKeys(aggs);
      var last := AggKey(aggs[|aggs| - 1]);
      MonthMapKeys(init);
      RowKeysInit(aggs);
      forall k
        ensures k in BuildMonthMap(aggs) <==> k in ks
      {
        InInitOrLast(ks, k);
      }
    }
  }

  lemma RowKeysInit(aggs: seq<MonthAgg>)
    requires |aggs| > 0
    ensures RowKeys(aggs[..|aggs| - 1]) == RowKeys(aggs)[..|aggs| - 1]
  {
  }

  /** An element of a sequence is in all but its last entry, or is that entry. */
  lemma InInitOrLast(ks: seq<string>, k: string)
    requires |ks| > 0
    ensures k in ks <==> k in ks[..|ks| - 1] || k == ks[|ks| - 1]
  {
    assert ks == ks[..|ks| - 1] + [ks[|ks| - 1]];
  }

  /** A key no row has is absent from the map. */
  lemma {:induction false} MonthMapAbsent(aggs: seq<MonthAgg>, key: string)
    requires forall i :: 0 <= i < |aggs| ==> AggKey(aggs[i]) != key
    ensures key !in BuildMonthMap(aggs)
    decreases |aggs|
  {
    if |aggs| > 0 {
      var init := aggs[..|aggs| - 1];
      assert forall i :: 0 <= i < |init| ==> init[i] == aggs[i];
      MonthMapAbsent(init, key);
    }
  }

  /** A key maps to the last row that has it. */
  lemma {:induction false} MonthMapLast(aggs: seq<MonthAgg>, j: int)
    requires 0 <= j < |aggs|
    requires forall i :: j < i < |aggs| ==> AggKey(aggs[i]) != AggKey(aggs[j])
    ensures AggKey(aggs[j]) in BuildMonthMap(aggs)
    ensures BuildMonthMap(aggs)[AggKey(aggs[j])] == Totals(aggs[j].revenue, aggs[j].orders)
    decreases |aggs|
  {
    if j < |aggs| - 1 {
      var init := aggs[..|aggs| - 1];
      assert forall i :: 0 <= i < |init| ==> init[i] == aggs[i];
      assert AggKey(aggs[|aggs| - 1]) != AggKey(aggs[j]);
      MonthMapLast(init, j);
    }
  }

  /** The average order value of a month: revenue per order, 0 without orders. */
  function AvgOrderValue(revenue: real, orders: real): (v: real)
    ensures orders <= 0.0 ==> v == 0.0
    ensures orders > 0.0 ==> v * orders == revenue
  {
    if orders > 0.0 then revenue / orders else 0.0
  }

  /** `targetCompletionRate`: achieved as a percentage of target, 0 without a target. */
  function TargetCompletionRate(totalAchieved: real, totalTarget: real): (r: real)
    ensures totalTarget <= 0.0 ==> r == 0.0
    ensures totalTarget > 0.0 ==> r * totalTarget == totalAchieved * 100.0
  {
    if totalTarget > 0.0 then totalAchieved / totalTarget * 100.0 else 0.0
  }

  datatype TrendPoint = TrendPoint(month: string, year: int, revenue: real, orders: real, avgOrderValue: real)

  /** One trend point: the month's aggregated figures, or zeros when the
      aggregation has no row for it. */
  function Point(slot: MonthSlot, monthMap: map<string, Totals>): (p: TrendPoint)
    ensures p.month == slot.name && p.year == slot.year
    ensures p.avgOrderValue == AvgOrderValue(p.revenue, p.orders)
    ensures MonthKey(slot.year, slot.monthIndex + 1) !in monthMap ==>
              p.revenue == 0.0 && p.orders == 0.0 && p.avgOrderValue == 0.0
    ensures MonthKey(slot.year, slot.monthIndex + 1) in monthMap ==>
              var t := monthMap[MonthKey(slot.year, slot.monthIndex + 1)];
              p.revenue == t.revenue && p.orders == t.orders
  {
    var key := MonthKey(slot.year, slot.monthIndex + 1);
    var t := if key in monthMap then monthMap[key] else Totals(0.0, 0.0);
    TrendPoint(slot.name, slot.year, t.revenue, t.orders, AvgOrderValue(t.revenue, t.orders))
  }

  /** `trend`: one point per month of the window. */
  function Trend(year: int, monthIndex: int, aggs: seq<MonthAgg>): (trend: seq<TrendPoint>)
    ensures |trend| == 12
    ensures forall k :: 0 <= k < 12 ==>
              trend[k] == Point(MonthWindow(year, monthIndex)[k], BuildMonthMap(aggs))
  {
    var w := MonthWindow(year, monthIndex);
    var m := BuildMonthMap(aggs);
    seq(12, k requires 0 <= k < 12 => Point(w[k], m))
  }

  /** Rows of other calendar months are filed under other keys. */
  lemma OtherMonthsOtherKeys(aggs: seq<MonthAgg>, year: int, month: int, from: int)
    requires 1 <= month <= 12 && 0 <= from
    requires forall i :: from <= i < |aggs| ==> 1 <= aggs[i].month <= 12
    requires forall i :: from <= i < |aggs| ==> !(aggs[i].year == year && aggs[i].month == month)
    ensures forall i :: from <= i < |aggs| ==> AggKey(aggs[i]) != MonthKey(year, month)
  {
    forall i | from <= i < |aggs|
      ensures AggKey(aggs[i]) != MonthKey(year, month)
    {
      MonthKeyInjective(aggs[i].year, aggs[i].month, year, month);
    }
  }

  /** A calendar month no row belongs to has no entry in the map. */
  lemma MonthWithoutRows(aggs: seq<MonthAgg>, year: int, month: int)
    requires 1 <= month <= 12
    requires forall i :: 0 <= i < |aggs| ==> 1 <= aggs[i].month <= 12
    requires forall i :: 0 <= i < |aggs| ==> !(aggs[i].year == year && aggs[i].month == month)
    ensures MonthKey(year, month) !in BuildMonthMap(aggs)
  {
    OtherMonthsOtherKeys(aggs, year, month, 0);
    MonthMapAbsent(aggs, MonthKey(year, month));
  }

  /** The entry of a calendar month holds its last row. */
  lemma MonthWithLastRow(aggs: seq<MonthAgg>, j: int)
    requires 0 <= j < |aggs| && 1 <= aggs[j].month <= 12
    requires forall i :: 0 <= i < |aggs| ==> 1 <= aggs[i].month <= 12
    requires forall i :: j < i < |aggs| ==> !(aggs[i].year == aggs[j].year && aggs[i].month == aggs[j].month)
    ensures MonthKey(aggs[j].year, aggs[j].month) in BuildMonthMap(aggs)
    ensures BuildMonthMap(aggs)[MonthKey(aggs[j].year, aggs[j].month)] == Totals(aggs[j].revenue, aggs[j].orders)
  {
    OtherMonthsOtherKeys(aggs, aggs[j].year, aggs[j].month, j + 1);
    MonthMapLast(aggs, j);
  }

  /** A month of the window with no aggregated row shows zero revenue,
      orders and average. */
  lemma TrendZeroFill(year: int, monthIndex: int, aggs: seq<MonthAgg>, k: int)
    requires 0 <= k < 12
    requires forall i :: 0 <= i < |aggs| ==> 1 <= aggs[i].month <= 12
    requires var slot := MonthWindow(year, monthIndex)[k];
             forall i :: 0 <= i < |aggs| ==> !(aggs[i].year == slot.year && aggs[i].month == slot.monthIndex + 1)
    ensures var p := Trend(year, monthIndex, aggs)[k];
            p.revenue == 0.0 && p.orders == 0.0 && p.avgOrderValue == 0.0
  {
    var slot := MonthWindow(year, monthIndex)[k];
    assert MonthKey(slot.year, slot.monthIndex + 1) !in BuildMonthMap(aggs) by {
      MonthWithoutRows(aggs, slot.year, slot.monthIndex + 1);
    }
  }

  /** A month of the window shows the figures of the last aggregated row for
      that calendar month. */
  lemma TrendPicksAggregate(year: int, monthIndex: int, aggs: seq<MonthAgg>, k: int, j: int)
    requires 0 <= k < 12 && 0 <= j < |aggs|
    requires forall i :: 0 <= i < |aggs| ==> 1 <= aggs[i].month <= 12
    requires var slot := MonthWindow(year, monthIndex)[k];
             aggs[j].year == slot.year && aggs[j].month == slot.monthIndex + 1
    requires forall i :: j < i < |aggs| ==> !(aggs[i].year == aggs[j].year && aggs[i].month == aggs[j].month)
    ensures var p := Trend(year, monthIndex, aggs)[k];
            p.revenue == aggs[j].revenue && p.orders == aggs[j].orders
  {
    var slot := MonthWindow(year, monthIndex)[k];
    var key := MonthKey(slot.year, slot.monthIndex + 1);
    assert key == MonthKey(aggs[j].year, aggs[j].month);
    assert key in BuildMonthMap(aggs) && BuildMonthMap(aggs)[key] == Totals(aggs[j].revenue, aggs[j].orders) by {
      MonthWithLastRow(aggs, j);
    }
  }

  /** The month-over-month `growthRate`: the last trend point against the one
      before it (or against 0 when there is none). */
  function MonthOverMonth(trend: seq<TrendPoint>): (g: real)
    requires |trend| >= 1
    ensures var curr := trend[|trend| - 1].revenue;
            var prev := if |trend| >= 2 then trend[|trend| - 2].revenue else 0.0;
            && (prev == 0.0 ==> g == (if curr == 0.0 then 0.0 else 100.0))
            && (prev != 0.0 ==> g * prev == (curr - prev) * 100.0)
  {
    var prev := if |trend| >= 2 then trend[|trend| - 2].revenue else 0.0;
    SalesGrowth.GrowthRate(trend[|trend| - 1].revenue, prev)
  }

  /** Over the twelve-month trend, the growth rate compares the current
      calendar month with the one before it. */
  lemma GrowthComparesLastTwoMonths(year: int, monthIndex: int, aggs: seq<MonthAgg>)
    requires 0 <= monthIndex < 12
    ensures var trend := Trend(year, monthIndex, aggs);
            var w := MonthWindow(year, monthIndex);
            && w[11].year == year && w[11].monthIndex == monthIndex
            && Serial(w[10].year, w[10].monthIndex) + 1 == Serial(year, monthIndex)
            && MonthOverMonth(trend) == SalesGrowth.GrowthRate(trend[11].revenue, trend[10].revenue)
  {
  }
}
