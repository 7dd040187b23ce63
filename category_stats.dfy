/**
 * The dashboard's per-category table: how many flights each category has
 * and how much revenue its reservations brought, merged from two grouping
 * stages into one object keyed by category name.
 */
module CategoryStats {
  import opened Js
  import opened DashboardRecords

  const Uncategorized: string := "uncategorized"

  /** `category._id || 'uncategorized'`: a missing or empty category is filed as "uncategorized". */
  function CategoryName(k: Key): (name: string)
    ensures name != ""
    ensures name != Uncategorized ==> k == Some(name)
    ensures k == Some(name) || k == None || k == Some("")
  {
    if k.None? || k.value == "" then Uncategorized else k.value
  }

  /** One entry of the table. */
  datatype CategoryStat = CategoryStat(count: nat, revenue: real)

  /** The category names the groups are filed under. */
  function Names(gs: seq<Group>): (names: set<string>)
    ensures gs == [] ==> names == {}
  {
    set g | g in gs :: CategoryName(g.key)
  }

  /** The last group filed under `name`: the one whose assignment survives. */
  function LastWith(gs: seq<Group>, name: string): (r: Option<Group>)
    ensures r.Some? <==> name in Names(gs)
    ensures r.Some? ==> r.value in gs && CategoryName(r.value.key) == name
  {
    if gs == [] then None
    else
      var init := gs[..|gs| - 1];
      var last := gs[|gs| - 1];
      assert gs == init + [last];
      assert forall g :: g in gs <==> g in init || g == last;
      assert Names(gs) == Names(init) + {CategoryName(last.key)};
      if CategoryName(last.key) == name then Some(last) else LastWith(init, name)
  }

  /** No group after position `i` is filed under `name`. */
  predicate After(gs: seq<Group>, i: int, name: string)
  {
    forall j :: i < j < |gs| && 0 <= j ==> CategoryName(gs[j].key) != name
  }

  /** The group `LastWith` picks is filed under `name` and no later group is. */
  lemma {:induction false} LastWithIsLast(gs: seq<Group>, name: string)
    requires name in Names(gs)
    ensures exists i :: 0 <= i < |gs| && gs[i] == LastWith(gs, name).value && After(gs, i, name)
    decreases |gs|
  {
    var init := gs[..|gs| - 1];
    var last := gs[|gs| - 1];
    if CategoryName(last.key) == name {
      assert gs[|gs| - 1] == LastWith(gs, name).value && After(gs, |gs| - 1, name);
    } else {
      var g :| g in gs && CategoryName(g.key) == name;
      assert g in init by { assert gs == init + [last]; }
      LastWithIsLast(init, name);
      var i :| 0 <= i < |init| && init[i] == LastWith(init, name).value && After(init, i, name);
      assert gs[i] == LastWith(gs, name).value && After(gs, i, name);
    }
  }

  /**
   * The merged table: an entry for every name either grouping files
   * something under; its count is that of the last flight-count group
   * filed under the name, its revenue that of the last revenue group, and
   * either is 0 when there is no such group.
   */
  function Stats(counts: seq<Group>, revenues: seq<Group>): (stats: map<string, CategoryStat>)
    ensures stats.Keys == Names(counts) + Names(revenues)
    ensures forall name :: name in stats ==> stats[name] == Entry(LastWith(counts, name), LastWith(revenues, name))
  {
    map name | name in Names(counts) + Names(revenues) :: Entry(LastWith(counts, name), LastWith(revenues, name))
  }

  /** The entry made from the last count group and the last revenue group of a name, 0 for a missing one. */
  function Entry(count: Option<Group>, revenue: Option<Group>): CategoryStat
  {
    CategoryStat(if count.Some? then count.value.count else 0, if revenue.Some? then revenue.value.sum else 0.0)
  }

  /** One more group adds its name. */
  lemma SnocNames(gs: seq<Group>, i: int)
    requires 0 <= i < |gs|
    ensures Names(gs[..i + 1]) == Names(gs[..i]) + {CategoryName(gs[i].key)}
  {
    var a, b := gs[..i + 1], gs[..i];
    assert forall g :: g in a <==> g in b || g == gs[i];
  }

  /** One more group becomes the last group for its name and leaves the other names alone. */
  lemma SnocLast(gs: seq<Group>, i: int, name: string)
    requires 0 <= i < |gs|
    ensures LastWith(gs[..i + 1], name) == if name == CategoryName(gs[i].key) then Some(gs[i]) else LastWith(gs[..i], name)
  {
    var a := gs[..i + 1];
    assert a != [] && a[..|a| - 1] == gs[..i] && a[|a| - 1] == gs[i];
  }

  /** Filing one more flight-count group sets its name's entry to its count and a zero revenue. */
  lemma CountStep(counts: seq<Group>, i: int)
    requires 0 <= i < |counts|
    ensures Stats(counts[..i + 1], []) == Stats(counts[..i], [])[CategoryName(counts[i].key) := CategoryStat(counts[i].count, 0.0)]
  {
    var a, b := counts[..i + 1], counts[..i];
    var n := CategoryName(counts[i].key);
    SnocNames(counts, i);
    var lhs, rhs := Stats(a, []), Stats(b, [])[n := CategoryStat(counts[i].count, 0.0)];
    assert lhs.Keys == rhs.Keys;
    forall name | name in lhs.Keys
      ensures lhs[name] == rhs[name]
    {
      SnocLast(counts, i, name);
      assert LastWith([], name) == None;
    }
    SameEntries(lhs, rhs);
  }

  /** Filing one more revenue group creates its name's entry if needed, then sets the entry's revenue. */
  lemma RevenueStep(counts: seq<Group>, revenues: seq<Group>, i: int)
    requires 0 <= i < |revenues|
    ensures var s := Stats(counts, revenues[..i]);
      var key := CategoryName(revenues[i].key);
      var base := if key in s then s else s[key := CategoryStat(0, 0.0)];
      Stats(counts, revenues[..i + 1]) == base[key := base[key].(revenue := revenues[i].sum)]
  {
    var s := Stats(counts, revenues[..i]);
    var n := CategoryName(revenues[i].key);
    var base := if n in s then s else s[n := CategoryStat(0, 0.0)];
    RevenueStepOn(counts, revenues, i, base);
  }

  /** `RevenueStep` for the entries before the update, whether or not the name was new. */
  lemma RevenueStepOn(counts: seq<Group>, revenues: seq<Group>, i: int, base: map<string, CategoryStat>)
    requires 0 <= i < |revenues|
    requires var s := Stats(counts, revenues[..i]);
      var n := CategoryName(revenues[i].key);
      base == if n in s then s else s[n := CategoryStat(0, 0.0)]
    ensures var n := CategoryName(revenues[i].key);
      Stats(counts, revenues[..i + 1]) == base[n := base[n].(revenue := revenues[i].sum)]
  {
    var n := CategoryName(revenues[i].key);
    var lhs, rhs := Stats(counts, revenues[..i + 1]), base[n := base[n].(revenue := revenues[i].sum)];
    SnocNames(revenues, i);
    forall name | name in lhs.Keys
      ensures lhs[name] == rhs[name]
    {
      RevenueEntry(counts, revenues, i, base, name);
    }
    SameEntries(lhs, rhs);
  }

  /** One entry of `RevenueStepOn`. */
  lemma RevenueEntry(counts: seq<Group>, revenues: seq<Group>, i: int, base: map<string, CategoryStat>, name: string)
    requires 0 <= i < |revenues|
    requires var s := Stats(counts, revenues[..i]);
      var n := CategoryName(revenues[i].key);
      base == if n in s then s else s[n := CategoryStat(0, 0.0)]
    requires name in Stats(counts, revenues[..i + 1])
    ensures var n := CategoryName(revenues[i].key);
      var rhs := base[n := base[n].(revenue := revenues[i].sum)];
      name in rhs && Stats(counts, revenues[..i + 1])[name] == rhs[name]
  {
    SnocNames(revenues, i);
    SnocLast(revenues, i, name);
  }

  lemma SameEntries(m1: map<string, CategoryStat>, m2: map<string, CategoryStat>)
    requires m1.Keys == m2.Keys
    requires forall name | name in m1 :: m1[name] == m2[name]
    ensures m1 == m2
  {
  }

  /**
   * The two `forEach` passes that fill `categoryStats`: the flight counts
   * first, each resetting its entry, then the revenues, each creating a
   * zero entry when its name is new and overwriting the entry's revenue.
   */
  method MergeCategoryStats(counts: seq<Group>, revenues: seq<Group>) returns (stats: map<string, CategoryStat>)
    ensures stats == Stats(counts, revenues)
  {
    stats := map[];
    for i := 0 to |counts|
      invariant stats == Stats(counts[..i], [])
    {
      CountStep(counts, i);
      var key := CategoryName(counts[i].key);
      stats := stats[key := CategoryStat(counts[i].count, 0.0)];
    }
    assert counts[..|counts|] == counts;
    assert revenues[..0] == [];
    for i := 0 to |revenues|
      invariant stats == Stats(counts, revenues[..i])
    {
      RevenueStep(counts, revenues, i);
      var key := CategoryName(revenues[i].key);
      if key !in stats {
        stats := stats[key := CategoryStat(0, 0.0)];
      }
      stats := stats[key := stats[key].(revenue := revenues[i].sum)];
    }
    assert revenues[..|revenues|] == revenues;
  }

  /** A category with flights but no revenue shows revenue 0; one with revenue but no flights shows count 0. */
  lemma ZeroDefaults(counts: seq<Group>, revenues: seq<Group>, name: string)
    ensures name in Names(counts) && name !in Names(revenues) ==> Stats(counts, revenues)[name].revenue == 0.0
    ensures name !in Names(counts) && name in Names(revenues) ==> Stats(counts, revenues)[name].count == 0
  {
  }

  /**
   * A missing category, an empty one and one literally named
   * "uncategorized" share one entry, and the group met last decides it:
   * the entry does not add the groups up.
   */
  lemma UncategorizedCollide()
    ensures var counts := [Group(None, 2, 0.0), Group(Some(""), 3, 0.0), Group(Some(Uncategorized), 4, 0.0)];
      var revenues := [Group(Some(Uncategorized), 1, 70.0), Group(None, 2, 50.0)];
      Stats(counts, revenues) == map[Uncategorized := CategoryStat(4, 50.0)]
  {
    var counts := [Group(None, 2, 0.0), Group(Some(""), 3, 0.0), Group(Some(Uncategorized), 4, 0.0)];
    var revenues := [Group(Some(Uncategorized), 1, 70.0), Group(None, 2, 50.0)];
    assert counts[..2][..1] == [counts[0]] && counts[..2] == [counts[0], counts[1]];
    assert counts[..2] == counts[..|counts| - 1];
    assert revenues[..1] == revenues[..|revenues| - 1];
    assert Names(counts) == {Uncategorized};
    assert Names(revenues) == {Uncategorized};
  }

  // Where the two groupings come from.

  /** `Flight.aggregate([{ $group: { _id: '$category', count: { $sum: 1 } } }])` reads one item per flight. */
  function CategoryItems(flights: seq<FlightDoc>): (items: seq<(Key, real)>)
    ensures |items| == |flights|
    ensures forall i :: 0 <= i < |flights| ==> items[i] == (flights[i].category, 0.0)
  {
    if flights == [] then []
    else CategoryItems(flights[..|flights| - 1]) + [(flights[|flights| - 1].category, 0.0)]
  }

  /** `$lookup` on the flight id: the flights whose id is the reservation's flight, in collection order. */
  function Lookup(catalog: seq<FlightDoc>, flight: Key): (fs: seq<FlightDoc>)
    ensures forall f :: f in fs <==> f in catalog && Some(f.id) == flight
    ensures fs != [] <==> exists f :: f in catalog && Some(f.id) == flight
    ensures |fs| <= |catalog|
  {
    if catalog == [] then []
    else
      var init := catalog[..|catalog| - 1];
      var last := catalog[|catalog| - 1];
      assert forall f :: f in catalog <==> f in init || f == last;
      Lookup(init, flight) + (if Some(last.id) == flight then [last] else [])
  }

  /** `$unwind: '$flight'`: one `(category, total)` item per looked-up flight, none when the lookup is empty. */
  function Unwound(fs: seq<FlightDoc>, total: real): (items: seq<(Key, real)>)
    ensures |items| == |fs|
    ensures forall i :: 0 <= i < |fs| ==> items[i] == (fs[i].category, total)
  {
    if fs == [] then [] else Unwound(fs[..|fs| - 1], total) + [(fs[|fs| - 1].category, total)]
  }

  /** The items the revenue grouping reads: every reservation joined with its flight and unwound. */
  function RevenueItems(rs: seq<ReservationDoc>, catalog: seq<FlightDoc>): (items: seq<(Key, real)>)
    ensures forall it :: it in items ==> exists r, f :: r in rs && f in catalog && Some(f.id) == r.flight && it == (f.category, r.total)
  {
    if rs == [] then []
    else
      var init := rs[..|rs| - 1];
      var last := rs[|rs| - 1];
      UnwoundFrom(catalog, last);
      assert forall r :: r in init ==> r in rs;
      RevenueItems(init, catalog) + Unwound(Lookup(catalog, last.flight), last.total)
  }

  /** Every item unwound from one reservation's lookup pairs the reservation's total with the category of a flight it references. */
  lemma UnwoundFrom(catalog: seq<FlightDoc>, r: ReservationDoc)
    ensures forall it :: it in Unwound(Lookup(catalog, r.flight), r.total) ==>
      exists f :: f in catalog && Some(f.id) == r.flight && it == (f.category, r.total)
  {
    var fs := Lookup(catalog, r.flight);
    var items := Unwound(fs, r.total);
    forall it | it in items
      ensures exists f :: f in catalog && Some(f.id) == r.flight && it == (f.category, r.total)
    {
      var i :| 0 <= i < |items| && items[i] == it;
      assert fs[i] in fs;
    }
  }

  /** The dashboard's `categoryStats` object. */
  method CategoryStatsOf(flights: seq<FlightDoc>, rs: seq<ReservationDoc>) returns (stats: map<string, CategoryStat>)
    ensures stats == Stats(GroupBy(CategoryItems(flights)), GroupBy(RevenueItems(rs, flights)))
  {
    stats := MergeCategoryStats(GroupBy(CategoryItems(flights)), GroupBy(RevenueItems(rs, flights)));
  }

  /** A reservation whose flight no longer exists adds nothing to any category's revenue. */
  lemma MissingFlightNoRevenue(rs: seq<ReservationDoc>, r: ReservationDoc, catalog: seq<FlightDoc>)
    requires forall f :: f in catalog ==> Some(f.id) != r.flight
    ensures RevenueItems(rs + [r], catalog) == RevenueItems(rs, catalog)
  {
    assert (rs + [r])[..|rs + [r]| - 1] == rs;
  }

  /** Flight ids are unique within the collection. */
  predicate UniqueIds(catalog: seq<FlightDoc>)
  {
    forall i, j :: 0 <= i < j < |catalog| ==> catalog[i].id != catalog[j].id
  }

  /** With unique ids, the lookup finds at most one flight. */
  lemma {:induction false} LookupUnique(catalog: seq<FlightDoc>, flight: Key)
    requires UniqueIds(catalog)
    ensures |Lookup(catalog, flight)| <= 1
    decreases |catalog|
  {
    if catalog != [] {
      var init := catalog[..|catalog| - 1];
      var last := catalog[|catalog| - 1];
      LookupUnique(init, flight);
    }
  }

  /** The summed amount of key `k` over two runs of items is the sum of the two. */
  lemma {:induction false} SumOfAppend(a: seq<(Key, real)>, b: seq<(Key, real)>, k: Key)
    ensures SumOf(a + b, k) == SumOf(a, k) + SumOf(b, k)
    decreases |b|
  {
    if b == [] {
      assert a + b == a;
    } else {
      var c := a + b;
      assert c[..|c| - 1] == a + b[..|b| - 1] && c[|c| - 1] == b[|b| - 1];
      SumOfAppend(a, b[..|b| - 1], k);
    }
  }

  /** The reservation's total when its flight exists and is filed under category key `k`, else 0. */
  function Contribution(r: ReservationDoc, catalog: seq<FlightDoc>, k: Key): real
  {
    var fs := Lookup(catalog, r.flight);
    if fs != [] && fs[0].category == k then r.total else 0.0
  }

  /** The revenue of category key `k`: the totals of the reservations whose flight is filed under `k`. */
  function CategoryRevenue(rs: seq<ReservationDoc>, catalog: seq<FlightDoc>, k: Key): real
  {
    if rs == [] then 0.0 else CategoryRevenue(rs[..|rs| - 1], catalog, k) + Contribution(rs[|rs| - 1], catalog, k)
  }

  /** With unique flight ids, the revenue grouping sums exactly each reservation's total under its flight's category. */
  lemma {:induction false} RevenueItemsSum(rs: seq<ReservationDoc>, catalog: seq<FlightDoc>, k: Key)
    requires UniqueIds(catalog)
    ensures SumOf(RevenueItems(rs, catalog), k) == CategoryRevenue(rs, catalog, k)
    decreases |rs|
  {
    if rs != [] {
      var init := rs[..|rs| - 1];
      var last := rs[|rs| - 1];
      RevenueItemsSum(init, catalog, k);
      var fs := Lookup(catalog, last.flight);
      SumOfAppend(RevenueItems(init, catalog), Unwound(fs, last.total), k);
      LookupUnique(catalog, last.flight);
      if fs != [] {
        assert Unwound(fs, last.total) == [(fs[0].category, last.total)];
        assert [(fs[0].category, last.total)][..0] == [];
      }
    }
  }

  /** For a named category, the table's entry is the group for exactly that category key. */
  lemma {:induction false} LastWithIsFind(gs: seq<Group>, name: string)
    requires DistinctKeys(gs) && name != Uncategorized && name != ""
    ensures LastWith(gs, name) == Find(gs, Some(name))
  {
    var r := LastWith(gs, name);
    if r.Some? {
      var i :| 0 <= i < |gs| && gs[i] == r.value;
      FindDistinct(gs, i);
    }
  }

  /**
   * For a category other than "uncategorized", the entry counts the flights
   * filed under it and sums the totals of the reservations of those flights;
   * the entry exists exactly when some flight is filed under the category.
   */
  lemma NamedCategoryStat(flights: seq<FlightDoc>, rs: seq<ReservationDoc>, name: string)
    requires UniqueIds(flights) && name != Uncategorized && name != ""
    ensures var stats := Stats(GroupBy(CategoryItems(flights)), GroupBy(RevenueItems(rs, flights)));
      && (name in stats <==> Some(name) in KeysOf(CategoryItems(flights)) + KeysOf(RevenueItems(rs, flights)))
      && (name in stats ==> stats[name] == CategoryStat(CountOf(CategoryItems(flights), Some(name)), CategoryRevenue(rs, flights, Some(name))))
  {
    var counts, revenues := GroupBy(CategoryItems(flights)), GroupBy(RevenueItems(rs, flights));
    LastWithIsFind(counts, name);
    LastWithIsFind(revenues, name);
    RevenueItemsSum(rs, flights, Some(name));
  }
}
