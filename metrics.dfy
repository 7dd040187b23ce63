/**
 * The dashboard's headline numbers: totals read from a `$group` with a
 * null key, and the period-over-period growth percentage.
 */
module Metrics {
  import opened DashboardRecords

  /** The single document `{ $group: { _id: null, total: { $sum: '$total' } } }` produces. */
  datatype AggregateRow = AggregateRow(total: real)

  /**
   * The result of grouping all of `rs` under one null key: one row with the
   * summed total, or no row at all when nothing matched.
   */
  function SumAll(rs: seq<ReservationDoc>): (agg: seq<AggregateRow>)
    ensures |agg| <= 1
    ensures agg == [] <==> rs == []
  {
    if rs == [] then [] else [AggregateRow(Sum(Totals(rs)))]
  }

  /** `aggregateResult?.[0]?.total || 0`. */
  function GetAggregateTotal(agg: seq<AggregateRow>): (total: real)
    ensures agg == [] ==> total == 0.0
  {
    if agg == [] then 0.0 else agg[0].total
  }

  /**
   * Reading the total back from a null-key group gives the sum of the
   * grouped totals, including the case of no documents, where the group
   * stage outputs nothing and the total is 0.
   */
  lemma AggregateTotalIsSum(rs: seq<ReservationDoc>)
    ensures GetAggregateTotal(SumAll(rs)) == Sum(Totals(rs))
  {
  }

  /** A revenue over a window never exceeds the revenue over all reservations when totals are non-negative. */
  lemma {:induction false} WindowRevenueBounded(rs: seq<ReservationDoc>, w: Window)
    requires forall i :: 0 <= i < |rs| ==> rs[i].total >= 0.0
    ensures 0.0 <= Sum(Totals(ReservationsIn(rs, w))) <= Sum(Totals(rs))
    decreases |rs|
  {
    if rs != [] {
      var init := rs[..|rs| - 1];
      var last := rs[|rs| - 1];
      WindowRevenueBounded(init, w);
      assert Totals(rs) == Totals(init) + [last.total];
      SumAppend(Totals(init), [last.total]);
      if w.Contains(last.createdAt) {
        assert Totals(ReservationsIn(rs, w)) == Totals(ReservationsIn(init, w)) + [last.total];
        SumAppend(Totals(ReservationsIn(init, w)), [last.total]);
      }
    }
  }

  /** The revenues of the two windows add up to at most the total revenue. */
  lemma {:induction false} PeriodRevenuesBounded(rs: seq<ReservationDoc>, now: int)
    requires forall i :: 0 <= i < |rs| ==> rs[i].total >= 0.0
    ensures Sum(Totals(ReservationsIn(rs, CurrentWindow(now)))) + Sum(Totals(ReservationsIn(rs, PreviousWindow(now))))
      <= Sum(Totals(rs))
    decreases |rs|
  {
    if rs != [] {
      var init := rs[..|rs| - 1];
      var last := rs[|rs| - 1];
      var cur, prev := CurrentWindow(now), PreviousWindow(now);
      PeriodRevenuesBounded(init, now);
      assert Totals(rs) == Totals(init) + [last.total];
      SumAppend(Totals(init), [last.total]);
      WindowsDisjoint(now, last.createdAt);
      if cur.Contains(last.createdAt) {
        assert Totals(ReservationsIn(rs, cur)) == Totals(ReservationsIn(init, cur)) + [last.total];
        SumAppend(Totals(ReservationsIn(init, cur)), [last.total]);
      } else if prev.Contains(last.createdAt) {
        assert Totals(ReservationsIn(rs, prev)) == Totals(ReservationsIn(init, prev)) + [last.total];
        SumAppend(Totals(ReservationsIn(init, prev)), [last.total]);
      }
    }
  }

  /** The two windows together count each reservation at most once. */
  lemma {:induction false} PeriodCountsBounded(rs: seq<ReservationDoc>, now: int)
    ensures |ReservationsIn(rs, CurrentWindow(now))| + |ReservationsIn(rs, PreviousWindow(now))| <= |rs|
    decreases |rs|
  {
    if rs != [] {
      PeriodCountsBounded(rs[..|rs| - 1], now);
      WindowsDisjoint(now, rs[|rs| - 1].createdAt);
    }
  }

  /** `Math.round(x)`: the integer nearest to `x`, halves rounding up. */
  predicate RoundsTo(g: int, x: real)
  {
    (g as real) - 0.5 <= x < (g as real) + 0.5
  }

  /**
   * `calculateGrowth`: with no previous value, 100 for any positive current
   * value and 0 otherwise; else the percentage change, rounded as
   * `Math.round` does.
   */
  function CalculateGrowth(current: real, previous: real): (g: int)
    ensures previous == 0.0 ==> g == if current > 0.0 then 100 else 0
    ensures previous != 0.0 ==> RoundsTo(g, (current - previous) / previous * 100.0)
  {
    if previous == 0.0 then (if current > 0.0 then 100 else 0)
    else ((current - previous) / previous * 100.0 + 0.5).Floor
  }

  /** Worked values, including a negative half that rounds up toward zero. */
  lemma GrowthExamples()
    ensures CalculateGrowth(150.0, 100.0) == 50
    ensures CalculateGrowth(50.0, 100.0) == -50
    ensures CalculateGrowth(5.0, 0.0) == 100
    ensures CalculateGrowth(0.0, 0.0) == 0
    ensures CalculateGrowth(195.0, 200.0) == -2
    ensures CalculateGrowth(1.0, 3.0) == -67
  {
    assert (195.0 - 200.0) / 200.0 * 100.0 + 0.5 == -2.0;
    assert (1.0 - 3.0) / 3.0 * 100.0 + 0.5 == -400.0 / 6.0 + 0.5;
  }

  /** With a positive previous value and a non-negative current one, the growth is at least -100. */
  lemma GrowthAtLeastMinusHundred(current: real, previous: real)
    requires current >= 0.0 && previous > 0.0
    ensures CalculateGrowth(current, previous) >= -100
  {
    assert previous / previous == 1.0;
    assert (current - previous) / previous == current / previous - previous / previous;
    assert current / previous >= 0.0;
  }

  /** No decrease means no negative growth. */
  lemma GrowthNonNegative(current: real, previous: real)
    requires current >= previous >= 0.0
    ensures CalculateGrowth(current, previous) >= 0
  {
    if previous > 0.0 {
      assert (current - previous) / previous >= 0.0;
    }
  }

  /** For a fixed positive previous value, growth never decreases as the current value grows. */
  lemma GrowthMonotone(c1: real, c2: real, previous: real)
    requires c1 <= c2 && previous > 0.0
    ensures CalculateGrowth(c1, previous) <= CalculateGrowth(c2, previous)
  {
    assert (c2 - previous) / previous - (c1 - previous) / previous == (c2 - c1) / previous;
    assert (c2 - c1) / previous >= 0.0;
  }

  /** Equal values give zero growth. */
  lemma GrowthOfEqual(x: real)
    ensures CalculateGrowth(x, x) == 0
  {
    if x != 0.0 {
      assert (x - x) / x == 0.0;
    }
  }
}
