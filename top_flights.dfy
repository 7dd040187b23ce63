/**
 * The dashboard's top flights: reservations grouped by flight, ranked by
 * reservation count and then revenue, cut to five, and joined with the
 * flights that still exist.
 */
module TopFlights {
  import opened Js
  import opened DashboardRecords
  import NewestFirst

  const TopCount: nat := 5

  /** The `(flight, total)` pairs the grouping stage reads from the reservations. */
  function FlightItems(rs: seq<ReservationDoc>): (items: seq<(Key, real)>)
    ensures |items| == |rs|
    ensures forall i :: 0 <= i < |rs| ==> items[i] == (rs[i].flight, rs[i].total)
  {
    if rs == [] then [] else FlightItems(rs[..|rs| - 1]) + [(rs[|rs| - 1].flight, rs[|rs| - 1].total)]
  }

  /** `{ reservationCount: -1, totalRevenue: -1 }`: `a` may come before `b`. */
  predicate RanksAbove(a: Group, b: Group)
  {
    a.count > b.count || (a.count == b.count && a.sum >= b.sum)
  }

  /** Every group may come before every later one. */
  predicate Ranked(gs: seq<Group>)
  {
    forall i, j :: 0 <= i < j < |gs| ==> RanksAbove(gs[i], gs[j])
  }

  /** Puts `g` into a ranked sequence, keeping it ranked. */
  function RankInsert(gs: seq<Group>, g: Group): (r: seq<Group>)
    requires Ranked(gs)
    ensures Ranked(r)
    ensures |r| == |gs| + 1
    ensures multiset(r) == multiset(gs) + multiset{g}
  {
    if gs == [] || RanksAbove(g, gs[0]) then [g] + gs
    else
      var rest := RankInsert(gs[1..], g);
      HeadRanksAbove(gs[0], gs[1..], g, rest);
      assert gs == [gs[0]] + gs[1..];
      [gs[0]] + rest
  }

  /** Prepending a group that ranks above `g` and above the rest of its sequence keeps the result ranked. */
  lemma HeadRanksAbove(h: Group, tail: seq<Group>, g: Group, rest: seq<Group>)
    requires Ranked([h] + tail) && Ranked(rest)
    requires !RanksAbove(g, h)
    requires multiset(rest) == multiset(tail) + multiset{g}
    ensures Ranked([h] + rest)
  {
    forall j | 0 <= j < |rest|
      ensures RanksAbove(h, rest[j])
    {
      assert rest[j] in multiset(rest);
      if rest[j] != g {
        assert rest[j] in multiset(tail);
        var k :| 0 <= k < |tail| && tail[k] == rest[j];
        assert ([h] + tail)[0] == h && ([h] + tail)[k + 1] == rest[j];
      }
    }
    var r := [h] + rest;
    forall i, j | 0 <= i < j < |r|
      ensures RanksAbove(r[i], r[j])
    {
      if i > 0 {
        assert r[i] == rest[i - 1] && r[j] == rest[j - 1];
      } else {
        assert r[j] == rest[j - 1];
      }
    }
  }

  /** `$sort`: the groups, best ranked first. Groups that tie on both fields may come in any order. */
  function RankSort(gs: seq<Group>): (r: seq<Group>)
    ensures Ranked(r)
    ensures |r| == |gs|
    ensures multiset(r) == multiset(gs)
  {
    if gs == [] then []
    else
      assert gs == gs[..|gs| - 1] + [gs[|gs| - 1]];
      RankInsert(RankSort(gs[..|gs| - 1]), gs[|gs| - 1])
  }

  /** The aggregation's output: group by flight, sort, `$limit: 5`. */
  function TopFlightsAgg(rs: seq<ReservationDoc>): (top: seq<Group>)
    ensures |top| <= TopCount && Ranked(top)
    ensures multiset(top) <= multiset(GroupBy(FlightItems(rs)))
  {
    var t := RankSort(GroupBy(FlightItems(rs)));
    var top := NewestFirst.Take(t, TopCount);
    assert t == top + t[|top|..];
    assert multiset(t) == multiset(top) + multiset(t[|top|..]);
    top
  }

  /**
   * The ranking keeps the five best-ranked flights (all of them when there
   * are fewer), best first, each exactly once, and no flight left out
   * ranks strictly above one that was kept.
   */
  lemma {:induction false} TopFlightsRanked(rs: seq<ReservationDoc>)
    ensures var gs := GroupBy(FlightItems(rs));
      var top := TopFlightsAgg(rs);
      && |top| == (if |gs| <= TopCount then |gs| else TopCount)
      && Ranked(top)
      && multiset(top) <= multiset(gs)
      && forall x, y :: x in multiset(gs) - multiset(top) && y in top ==> RanksAbove(y, x)
  {
    var gs := GroupBy(FlightItems(rs));
    var t := RankSort(gs);
    var top := TopFlightsAgg(rs);
    var rest := t[|top|..];
    assert t == top + rest;
    assert multiset(t) == multiset(top) + multiset(rest);
    RankedSplit(t, |top|);
    forall x, y | x in multiset(gs) - multiset(top) && y in top
      ensures RanksAbove(y, x)
    {
      assert x in rest;
    }
  }

  /** In a ranked sequence, everything before a cut point may come before everything after it. */
  lemma RankedSplit(t: seq<Group>, k: nat)
    requires Ranked(t) && k <= |t|
    ensures forall x, y :: x in t[k..] && y in t[..k] ==> RanksAbove(y, x)
  {
    forall x, y | x in t[k..] && y in t[..k]
      ensures RanksAbove(y, x)
    {
      var i :| 0 <= i < |t[k..]| && t[k..][i] == x;
      var j :| 0 <= j < k && t[..k][j] == y;
      assert t[j] == y && t[k + i] == x;
    }
  }

  /** Each group in the ranking carries the count and the revenue of exactly the reservations of its flight. */
  lemma TopFlightsCounted(rs: seq<ReservationDoc>, g: Group)
    requires g in TopFlightsAgg(rs)
    ensures g.count == CountOf(FlightItems(rs), g.key) && g.sum == SumOf(FlightItems(rs), g.key)
    ensures g.count > 0
  {
    var gs := GroupBy(FlightItems(rs));
    TopFlightsRanked(rs);
    assert g in multiset(TopFlightsAgg(rs));
    assert g in multiset(gs);
    var i :| 0 <= i < |gs| && gs[i] == g;
    GroupByGroups(FlightItems(rs), i);
  }

  /** Equal counts are ordered by revenue: of two flights with three reservations each, the richer comes first. */
  lemma TieBrokenByRevenue()
    ensures RankSort([Group(Some("A"), 3, 300.0), Group(Some("B"), 3, 500.0)])
         == [Group(Some("B"), 3, 500.0), Group(Some("A"), 3, 300.0)]
  {
    var a, b := Group(Some("A"), 3, 300.0), Group(Some("B"), 3, 500.0);
    assert [a, b][..1] == [a];
    assert RankSort([a]) == [a] by { assert [a][..0] == []; }
  }

  // The join with the flight collection.

  /** A row of the top-flights table. */
  datatype TopFlight = TopFlight(
    id: string,
    title: string,
    overview: string,
    category: Option<string>,
    rating: real,
    price: real,
    mainImage: string,
    reservationCount: nat,
    totalRevenue: real)

  /** `.map(item => item._id).filter(Boolean)`: the non-null flight ids of the ranking. */
  function FlightIds(agg: seq<Group>): (ids: seq<string>)
    ensures |ids| <= |agg|
    ensures forall id :: id in ids <==> exists i :: 0 <= i < |agg| && agg[i].key == Some(id)
  {
    if agg == [] then []
    else
      var rest := FlightIds(agg[1..]);
      assert forall i :: 0 < i < |agg| ==> agg[i] == agg[1..][i - 1];
      if agg[0].key.Some? then [agg[0].key.value] + rest else rest
  }

  /** `Flight.find({ _id: { $in: ids } })`: the flights whose id is listed, in collection order. */
  function Fetched(catalog: seq<FlightDoc>, ids: seq<string>): (fs: seq<FlightDoc>)
    ensures forall f :: f in fs <==> f in catalog && f.id in ids
  {
    if catalog == [] then []
    else
      var init := Fetched(catalog[..|catalog| - 1], ids);
      var last := catalog[|catalog| - 1];
      assert forall f :: f in catalog <==> f in catalog[..|catalog| - 1] || f == last;
      if last.id in ids then init + [last] else init
  }

  /** `new Map(flights.map(f => [f._id.toString(), f]))`: a later flight with the same id replaces an earlier one. */
  function FlightIndex(fs: seq<FlightDoc>): (index: map<string, FlightDoc>)
    ensures index.Keys == set f | f in fs :: f.id
    ensures forall id :: id in index ==> index[id] in fs && index[id].id == id
  {
    if fs == [] then map[]
    else
      var init := fs[..|fs| - 1];
      var last := fs[|fs| - 1];
      assert fs == init + [last];
      assert forall f :: f in fs <==> f in init || f == last;
      FlightIndex(init)[last.id := last]
  }

  /** The row for one ranked group, if its flight is in the index. */
  function RowFor(g: Group, index: map<string, FlightDoc>): (row: Option<TopFlight>)
    ensures row.Some? <==> g.key.Some? && g.key.value in index
    ensures row.Some? ==> var f := index[g.key.value];
      && row.value.id == f.id && row.value.title == f.title && row.value.category == f.category
      && row.value.reservationCount == g.count && row.value.totalRevenue == g.sum
  {
    if g.key.Some? && g.key.value in index then
      var f := index[g.key.value];
      Some(TopFlight(f.id, f.title, f.overview, f.category, f.rating, f.price, f.mainImage, g.count, g.sum))
    else None
  }

  /** The `.map(...)` and `.filter(Boolean)` over the ranking: rows for the groups whose flight was found. */
  function JoinRows(agg: seq<Group>, index: map<string, FlightDoc>): (rows: seq<TopFlight>)
    ensures |rows| <= |agg|
  {
    if agg == [] then []
    else
      var row := RowFor(agg[0], index);
      (if row.Some? then [row.value] else []) + JoinRows(agg[1..], index)
  }

  /** The top-flights table: empty when no ranked group has a flight id, else the join. */
  function JoinTopFlights(agg: seq<Group>, catalog: seq<FlightDoc>): (rows: seq<TopFlight>)
    ensures |rows| <= |agg|
    ensures FlightIds(agg) == [] ==> rows == []
  {
    var ids := FlightIds(agg);
    if |ids| == 0 then [] else JoinRows(agg, FlightIndex(Fetched(catalog, ids)))
  }

  /** The join works group by group, so it keeps the ranking's order. */
  lemma {:induction false} JoinRowsAppend(a: seq<Group>, b: seq<Group>, index: map<string, FlightDoc>)
    ensures JoinRows(a + b, index) == JoinRows(a, index) + JoinRows(b, index)
    decreases |a|
  {
    if a == [] {
      assert a + b == b;
    } else {
      assert (a + b)[0] == a[0] && (a + b)[1..] == a[1..] + b;
      JoinRowsAppend(a[1..], b, index);
    }
  }

  /** A group yields a row exactly when its id is non-null and its flight is found; the row carries the group's figures. */
  lemma {:induction false} JoinRowsMembers(agg: seq<Group>, index: map<string, FlightDoc>, row: TopFlight)
    ensures row in JoinRows(agg, index) <==> exists i :: 0 <= i < |agg| && RowFor(agg[i], index) == Some(row)
    decreases |agg|
  {
    if agg != [] {
      JoinRowsMembers(agg[1..], index, row);
      if exists i :: 0 <= i < |agg| && RowFor(agg[i], index) == Some(row) {
        var i :| 0 <= i < |agg| && RowFor(agg[i], index) == Some(row);
        if i > 0 {
          assert agg[1..][i - 1] == agg[i];
        }
      }
      if exists i :: 0 <= i < |agg[1..]| && RowFor(agg[1..][i], index) == Some(row) {
        var i :| 0 <= i < |agg[1..]| && RowFor(agg[1..][i], index) == Some(row);
        assert agg[i + 1] == agg[1..][i];
      }
    }
  }

  /** Only groups whose key names a flight can yield a row, and the row describes that flight. */
  lemma RowForFlight(g: Group, index: map<string, FlightDoc>)
    requires forall id :: id in index ==> index[id].id == id
    ensures RowFor(g, index).Some? <==> g.key.Some? && g.key.value in index
    ensures RowFor(g, index).Some? ==> var row := RowFor(g, index).value;
      Some(row.id) == g.key && row.reservationCount == g.count && row.totalRevenue == g.sum
  {
  }

  /** Fetching only the listed flights changes nothing for the listed ids. */
  lemma {:induction false} FetchedIndex(catalog: seq<FlightDoc>, ids: seq<string>, id: string)
    requires id in ids
    ensures id in FlightIndex(Fetched(catalog, ids)) <==> id in FlightIndex(catalog)
    ensures id in FlightIndex(catalog) ==> FlightIndex(Fetched(catalog, ids))[id] == FlightIndex(catalog)[id]
    decreases |catalog|
  {
    if catalog != [] {
      var init := catalog[..|catalog| - 1];
      var last := catalog[|catalog| - 1];
      FetchedIndex(init, ids, id);
      if last.id in ids {
        assert Fetched(catalog, ids) == Fetched(init, ids) + [last];
        assert (Fetched(init, ids) + [last])[..|Fetched(init, ids)|] == Fetched(init, ids);
      }
    }
  }

  /** With no flight ids, no group can yield a row. */
  lemma {:induction false} NoIdsNoRows(agg: seq<Group>, index: map<string, FlightDoc>)
    requires FlightIds(agg) == []
    ensures JoinRows(agg, index) == []
    decreases |agg|
  {
    if agg != [] {
      NoIdsNoRows(agg[1..], index);
    }
  }

  /** Rows agree when the two indexes agree on every key the ranking uses. */
  lemma {:induction false} JoinRowsSameLookups(agg: seq<Group>, i1: map<string, FlightDoc>, i2: map<string, FlightDoc>)
    requires forall i :: 0 <= i < |agg| && agg[i].key.Some? ==>
      (agg[i].key.value in i1 <==> agg[i].key.value in i2) &&
      (agg[i].key.value in i1 ==> i1[agg[i].key.value] == i2[agg[i].key.value])
    ensures JoinRows(agg, i1) == JoinRows(agg, i2)
    decreases |agg|
  {
    if agg != [] {
      assert forall i :: 0 < i < |agg| ==> agg[1..][i - 1] == agg[i];
      JoinRowsSameLookups(agg[1..], i1, i2);
    }
  }

  /**
   * The `flightIds.length` guard and the `$in` fetch do not change the
   * result: the table is the plain lookup of every ranked group in the
   * whole flight collection, dropping groups with a null id or a flight
   * that no longer exists.
   */
  lemma JoinIsLookup(agg: seq<Group>, catalog: seq<FlightDoc>)
    ensures JoinTopFlights(agg, catalog) == JoinRows(agg, FlightIndex(catalog))
  {
    var ids := FlightIds(agg);
    if |ids| == 0 {
      NoIdsNoRows(agg, FlightIndex(catalog));
    } else {
      forall i | 0 <= i < |agg| && agg[i].key.Some?
        ensures agg[i].key.value in FlightIndex(Fetched(catalog, ids)) <==> agg[i].key.value in FlightIndex(catalog)
        ensures agg[i].key.value in FlightIndex(catalog) ==>
          FlightIndex(Fetched(catalog, ids))[agg[i].key.value] == FlightIndex(catalog)[agg[i].key.value]
      {
        assert agg[i].key.value in ids;
        FetchedIndex(catalog, ids, agg[i].key.value);
      }
      JoinRowsSameLookups(agg, FlightIndex(Fetched(catalog, ids)), FlightIndex(catalog));
    }
  }

  /** The top-flights table of the dashboard. */
  function TopFlightRows(rs: seq<ReservationDoc>, catalog: seq<FlightDoc>): (rows: seq<TopFlight>)
    ensures |rows| <= TopCount
  {
    TopFlightsRanked(rs);
    JoinIsLookup(TopFlightsAgg(rs), catalog);
    JoinTopFlights(TopFlightsAgg(rs), catalog)
  }

  /**
   * Every row of the table names an existing flight and carries the number
   * and the summed totals of that flight's reservations; there are at most five rows.
   */
  lemma TopFlightRowsCounted(rs: seq<ReservationDoc>, catalog: seq<FlightDoc>, row: TopFlight)
    requires row in TopFlightRows(rs, catalog)
    ensures exists f :: f in catalog && f.id == row.id
    ensures row.reservationCount == CountOf(FlightItems(rs), Some(row.id)) > 0
    ensures row.totalRevenue == SumOf(FlightItems(rs), Some(row.id))
  {
    var agg := TopFlightsAgg(rs);
    var index := FlightIndex(catalog);
    JoinIsLookup(agg, catalog);
    JoinRowsMembers(agg, index, row);
    var i :| 0 <= i < |agg| && RowFor(agg[i], index) == Some(row);
    RowForFlight(agg[i], index);
    TopFlightsCounted(rs, agg[i]);
  }
}
