/**
 * The dashboard overview response: the headline statistics with their
 * 30-day growth figures, the five newest reservations, the top flights
 * and the per-category table, all read from one snapshot of the flight
 * and reservation collections.
 */
module DashboardOverview {
  import opened Js
  import opened DashboardRecords
  import opened Metrics
  import opened TopFlights
  import opened CategoryStats
  import NewestFirst

  const RecentCount: nat := 5

  /** The `stats` object. */
  datatype DashboardStats = DashboardStats(
    totalRevenue: real,
    totalFlights: nat,
    totalReservations: nat,
    totalCustomers: nat,
    revenueGrowth: int,
    flightsGrowth: int,
    reservationsGrowth: int,
    customersGrowth: int)

  /** The whole response body. */
  datatype Overview = Overview(
    stats: DashboardStats,
    recentReservations: seq<ReservationDoc>,
    topFlights: seq<TopFlight>,
    categoryStats: map<string, CategoryStat>)

  /** `Reservation.find().sort({ createdAt: -1 }).limit(5)`. */
  function RecentReservations(rs: seq<ReservationDoc>): (recent: seq<ReservationDoc>)
    ensures |recent| == if |rs| <= RecentCount then |rs| else RecentCount
    ensures NewestFirst.Sorted(recent, ReservationCreated) && multiset(recent) <= multiset(rs)
    ensures forall x, y :: x in multiset(rs) - multiset(recent) && y in recent ==> y.createdAt >= x.createdAt
  {
    NewestFirst.NewestTaken(rs, RecentCount, ReservationCreated);
    NewestFirst.Take(NewestFirst.Sort(rs, ReservationCreated), RecentCount)
  }

  /** The headline statistics, each read from the same snapshot. */
  function BuildStats(flights: seq<FlightDoc>, rs: seq<ReservationDoc>, now: int): (s: DashboardStats)
    ensures s.totalRevenue == Sum(Totals(rs))
    ensures s.totalFlights == |flights| && s.totalReservations == |rs|
    ensures s.totalCustomers == |DistinctEmails(rs)| <= s.totalReservations
  {
    var cur, prev := CurrentWindow(now), PreviousWindow(now);
    var curRs, prevRs := ReservationsIn(rs, cur), ReservationsIn(rs, prev);
    AggregateTotalIsSum(rs);
    DistinctEmailsBound(rs);
    DashboardStats(
      GetAggregateTotal(SumAll(rs)),
      |flights|,
      |rs|,
      |DistinctEmails(rs)|,
      CalculateGrowth(GetAggregateTotal(SumAll(curRs)), GetAggregateTotal(SumAll(prevRs))),
      CalculateGrowth(|FlightsIn(flights, cur)| as real, |FlightsIn(flights, prev)| as real),
      CalculateGrowth(|curRs| as real, |prevRs| as real),
      CalculateGrowth(|DistinctEmails(curRs)| as real, |DistinctEmails(prevRs)| as real))
  }

  /** The overview computed from the flights, the reservations and the current time. */
  function GetDashboardOverview(flights: seq<FlightDoc>, rs: seq<ReservationDoc>, now: int): (o: Overview)
    ensures o.stats.totalRevenue == Sum(Totals(rs))
    ensures o.stats.totalFlights == |flights| && o.stats.totalReservations == |rs|
    ensures o.stats.totalCustomers == |DistinctEmails(rs)| <= o.stats.totalReservations
    ensures |o.recentReservations| == if |rs| <= RecentCount then |rs| else RecentCount
    ensures |o.topFlights| <= TopCount
  {
    Overview(
      BuildStats(flights, rs, now),
      RecentReservations(rs),
      TopFlightRows(rs, flights),
      Stats(GroupBy(CategoryItems(flights)), GroupBy(RevenueItems(rs, flights))))
  }

  /**
   * The growth figures compare the last 30 days with the 30 days before:
   * revenue by summed totals, the others by counts of flights, of
   * reservations and of distinct customer emails created in each window.
   */
  lemma GrowthFigures(flights: seq<FlightDoc>, rs: seq<ReservationDoc>, now: int)
    ensures var s := GetDashboardOverview(flights, rs, now).stats;
      var cur, prev := CurrentWindow(now), PreviousWindow(now);
      && s.revenueGrowth == CalculateGrowth(Sum(Totals(ReservationsIn(rs, cur))), Sum(Totals(ReservationsIn(rs, prev))))
      && s.flightsGrowth == CalculateGrowth(|FlightsIn(flights, cur)| as real, |FlightsIn(flights, prev)| as real)
      && s.reservationsGrowth == CalculateGrowth(|ReservationsIn(rs, cur)| as real, |ReservationsIn(rs, prev)| as real)
      && s.customersGrowth == CalculateGrowth(|DistinctEmails(ReservationsIn(rs, cur))| as real, |DistinctEmails(ReservationsIn(rs, prev))| as real)
  {
    AggregateTotalIsSum(ReservationsIn(rs, CurrentWindow(now)));
    AggregateTotalIsSum(ReservationsIn(rs, PreviousWindow(now)));
  }

  /** Count-based growth figures are never below -100. */
  lemma CountGrowthBounded(flights: seq<FlightDoc>, rs: seq<ReservationDoc>, now: int)
    ensures var s := GetDashboardOverview(flights, rs, now).stats;
      s.flightsGrowth >= -100 && s.reservationsGrowth >= -100 && s.customersGrowth >= -100
  {
    var cur, prev := CurrentWindow(now), PreviousWindow(now);
    var curRs, prevRs := ReservationsIn(rs, cur), ReservationsIn(rs, prev);
    var pairs := [
      (|FlightsIn(flights, cur)| as real, |FlightsIn(flights, prev)| as real),
      (|curRs| as real, |prevRs| as real),
      (|DistinctEmails(curRs)| as real, |DistinctEmails(prevRs)| as real)];
    forall k | 0 <= k < 3
      ensures CalculateGrowth(pairs[k].0, pairs[k].1) >= -100
    {
      if pairs[k].1 > 0.0 {
        GrowthAtLeastMinusHundred(pairs[k].0, pairs[k].1);
      }
    }
    assert CalculateGrowth(pairs[0].0, pairs[0].1) >= -100;
    assert CalculateGrowth(pairs[1].0, pairs[1].1) >= -100;
    assert CalculateGrowth(pairs[2].0, pairs[2].1) >= -100;
  }

  /** The recent reservations are the newest ones, newest first. */
  lemma RecentAreNewest(flights: seq<FlightDoc>, rs: seq<ReservationDoc>, now: int)
    ensures var recent := GetDashboardOverview(flights, rs, now).recentReservations;
      && NewestFirst.Sorted(recent, ReservationCreated)
      && multiset(recent) <= multiset(rs)
      && forall x, y :: x in multiset(rs) - multiset(recent) && y in recent ==> y.createdAt >= x.createdAt
  {
    NewestFirst.NewestTaken(rs, RecentCount, ReservationCreated);
  }

  /** With no flights and no reservations, every figure is zero and every list is empty. */
  lemma EmptyOverview(now: int)
    ensures GetDashboardOverview([], [], now) ==
      Overview(DashboardStats(0.0, 0, 0, 0, 0, 0, 0, 0), [], [], map[])
  {
    assert DistinctEmails([]) == {};
    assert FlightsIn([], CurrentWindow(now)) == [] && FlightsIn([], PreviousWindow(now)) == [];
    assert ReservationsIn([], CurrentWindow(now)) == [] && ReservationsIn([], PreviousWindow(now)) == [];
    assert TopFlightsAgg([]) == [] by {
      assert FlightItems([]) == [];
    }
    assert GroupBy(RevenueItems([], [])) == [];
    assert GroupBy(CategoryItems([])) == [];
  }
}
