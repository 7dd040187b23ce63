/**
 * The documents the dashboard reads, the 30-day reporting windows, and the
 * in-memory meaning of the aggregation stages it runs: `$sum` over a
 * collection and `$group` by a key with a count and a sum per key.
 */
module DashboardRecords {
  import opened Js

  /** A flight as the dashboard reads it. */
  datatype FlightDoc = FlightDoc(
    id: string,
    title: string,
    overview: string,
    category: Option<string>,
    price: real,
    rating: real,
    mainImage: string,
    createdAt: int)

  /** A reservation as the dashboard reads it; `flight` is null when the reference is missing. */
  datatype ReservationDoc = ReservationDoc(
    id: string,
    flight: Option<string>,
    total: real,
    email: string,
    createdAt: int)

  const MsPerDay: int := 86400000
  const WindowLength: int := 30 * MsPerDay

  /** A half-open time range `[start, end)`; no `end` means up to now and beyond. */
  datatype Window = Window(start: int, end: Option<int>)
  {
    predicate Contains(t: int)
    {
      start <= t && (end.None? || t < end.value)
    }
  }

  /** `createdAt >= now - 30 days`. */
  function CurrentWindow(now: int): (w: Window)
    ensures w.Contains(now)
    ensures forall t :: w.Contains(t) <==> now - t <= WindowLength
  {
    Window(now - WindowLength, None)
  }

  /** `now - 60 days <= createdAt < now - 30 days`. */
  function PreviousWindow(now: int): (w: Window)
    ensures forall t :: w.Contains(t) <==> WindowLength < now - t <= 2 * WindowLength
  {
    Window(now - 2 * WindowLength, Some(now - WindowLength))
  }

  /** No instant lies in both windows, so a record counts toward one period at most. */
  lemma WindowsDisjoint(now: int, t: int)
    ensures !(CurrentWindow(now).Contains(t) && PreviousWindow(now).Contains(t))
  {
  }

  /** Together the two windows cover exactly the last 60 days. */
  lemma WindowsCoverSixtyDays(now: int, t: int)
    ensures CurrentWindow(now).Contains(t) || PreviousWindow(now).Contains(t)
        <==> Window(now - 2 * WindowLength, None).Contains(t)
  {
  }

  /** The sum of a sequence of amounts. */
  function Sum(xs: seq<real>): real
  {
    if xs == [] then 0.0 else Sum(xs[..|xs| - 1]) + xs[|xs| - 1]
  }

  /** The sum of a concatenation is the sum of the parts. */
  lemma {:induction false} SumAppend(xs: seq<real>, ys: seq<real>)
    ensures Sum(xs + ys) == Sum(xs) + Sum(ys)
    decreases |ys|
  {
    if ys != [] {
      var init := ys[..|ys| - 1];
      assert (xs + ys)[..|xs + ys| - 1] == xs + init;
      assert (xs + ys)[|xs + ys| - 1] == ys[|ys| - 1];
      SumAppend(xs, init);
      assert Sum(xs + ys) == Sum(xs + init) + ys[|ys| - 1];
    } else {
      assert xs + ys == xs;
    }
  }

  /** A sum of non-negative amounts is non-negative. */
  lemma {:induction false} SumNonNegative(xs: seq<real>)
    requires forall i :: 0 <= i < |xs| ==> xs[i] >= 0.0
    ensures Sum(xs) >= 0.0
    decreases |xs|
  {
    if xs != [] {
      SumNonNegative(xs[..|xs| - 1]);
    }
  }

  /** The totals of some reservations. */
  function Totals(rs: seq<ReservationDoc>): (ts: seq<real>)
    ensures |ts| == |rs| && forall i :: 0 <= i < |rs| ==> ts[i] == rs[i].total
  {
    if rs == [] then [] else Totals(rs[..|rs| - 1]) + [rs[|rs| - 1].total]
  }

  /**
   * The `$match` on `createdAt`: the documents stamped within `w`, in their
   * original order. Each document kept occurs as often as in the input.
   */
  function In<T(!new)>(xs: seq<T>, stamp: T -> int, w: Window): (r: seq<T>)
    ensures |r| <= |xs|
    ensures forall x :: x in r <==> x in xs && w.Contains(stamp(x))
    ensures forall x :: multiset(r)[x] == if w.Contains(stamp(x)) then multiset(xs)[x] else 0
  {
    if xs == [] then []
    else
      var init := In(xs[..|xs| - 1], stamp, w);
      var last := xs[|xs| - 1];
      assert xs == xs[..|xs| - 1] + [last];
      if w.Contains(stamp(last)) then init + [last] else init
  }

  /** Matching distributes over concatenation, so the filter keeps the input's order. */
  lemma {:induction false} InAppend<T(!new)>(xs: seq<T>, ys: seq<T>, stamp: T -> int, w: Window)
    ensures In(xs + ys, stamp, w) == In(xs, stamp, w) + In(ys, stamp, w)
  {
    if ys == [] {
      assert xs + ys == xs;
    } else {
      var init := ys[..|ys| - 1];
      var last := ys[|ys| - 1];
      assert (xs + ys)[..|xs + ys| - 1] == xs + init;
      InAppend(xs, init, stamp, w);
    }
  }

  function ReservationCreated(r: ReservationDoc): int
  {
    r.createdAt
  }

  function FlightCreated(f: FlightDoc): int
  {
    f.createdAt
  }

  /** The reservations created within `w`. */
  function ReservationsIn(rs: seq<ReservationDoc>, w: Window): seq<ReservationDoc>
  {
    In(rs, ReservationCreated, w)
  }

  /** The flights created within `w`. */
  function FlightsIn(fs: seq<FlightDoc>, w: Window): seq<FlightDoc>
  {
    In(fs, FlightCreated, w)
  }

  /** `distinct('email')`: the set of emails used by the reservations. */
  function DistinctEmails(rs: seq<ReservationDoc>): (emails: set<string>)
    ensures forall i :: 0 <= i < |rs| ==> rs[i].email in emails
    ensures forall e :: e in emails ==> exists i :: 0 <= i < |rs| && rs[i].email == e
  {
    set i | 0 <= i < |rs| :: rs[i].email
  }

  /** There are no more distinct emails than reservations. */
  lemma {:induction false} DistinctEmailsBound(rs: seq<ReservationDoc>)
    ensures |DistinctEmails(rs)| <= |rs|
    decreases |rs|
  {
    if rs != [] {
      var init := rs[..|rs| - 1];
      DistinctEmailsBound(init);
      assert DistinctEmails(rs) == DistinctEmails(init) + {rs[|rs| - 1].email} by {
        forall e | e in DistinctEmails(rs) ensures e in DistinctEmails(init) + {rs[|rs| - 1].email} {
          var i :| 0 <= i < |rs| && rs[i].email == e;
          if i < |init| { assert init[i].email == e; }
        }
      }
    }
  }

  // `$group` by a key with `{ $sum: 1 }` and `{ $sum: <amount> }`.

  /** A grouping key: a flight id or a category, null when the field is missing. */
  type Key = Option<string>

  /** One output document of a grouping stage: the key, how many inputs had it, and their summed amount. */
  datatype Group = Group(key: Key, count: nat, sum: real)

  /** How many of the `(key, amount)` items have key `k`. */
  function CountOf(items: seq<(Key, real)>, k: Key): nat
  {
    if items == [] then 0
    else CountOf(items[..|items| - 1], k) + (if items[|items| - 1].0 == k then 1 else 0)
  }

  /** The summed amount of the items with key `k`. */
  function SumOf(items: seq<(Key, real)>, k: Key): real
  {
    if items == [] then 0.0
    else SumOf(items[..|items| - 1], k) + (if items[|items| - 1].0 == k then items[|items| - 1].1 else 0.0)
  }

  function KeysOf(items: seq<(Key, real)>): set<Key>
  {
    set i | 0 <= i < |items| :: items[i].0
  }

  function GroupKeys(gs: seq<Group>): set<Key>
  {
    set i | 0 <= i < |gs| :: gs[i].key
  }

  /** No two groups share a key. */
  predicate DistinctKeys(gs: seq<Group>)
  {
    forall i, j :: 0 <= i < j < |gs| ==> gs[i].key != gs[j].key
  }

  /** The group with key `k`, if any. */
  function Find(gs: seq<Group>, k: Key): (g: Option<Group>)
    ensures g.Some? <==> k in GroupKeys(gs)
    ensures g.Some? ==> g.value in gs && g.value.key == k
  {
    if gs == [] then None
    else if gs[0].key == k then Some(gs[0])
    else
      var rest := Find(gs[1..], k);
      assert GroupKeys(gs) == {gs[0].key} + GroupKeys(gs[1..]) by {
        forall x | x in GroupKeys(gs) ensures x in {gs[0].key} + GroupKeys(gs[1..]) {
          var i :| 0 <= i < |gs| && gs[i].key == x;
          if i > 0 { assert gs[1..][i - 1].key == x; }
        }
        forall x | x in GroupKeys(gs[1..]) ensures x in GroupKeys(gs) {
          var i :| 0 <= i < |gs[1..]| && gs[1..][i].key == x;
          assert gs[i + 1].key == x;
        }
      }
      rest
  }

  /** The count recorded for `k` (0 when there is no group for it). */
  function CountIn(gs: seq<Group>, k: Key): nat
  {
    var g := Find(gs, k);
    if g.Some? then g.value.count else 0
  }

  /** The sum recorded for `k` (0 when there is no group for it). */
  function SumIn(gs: seq<Group>, k: Key): real
  {
    var g := Find(gs, k);
    if g.Some? then g.value.sum else 0.0
  }

  /** With distinct keys, each group is the one `Find` returns for its key. */
  lemma {:induction false} FindDistinct(gs: seq<Group>, i: int)
    requires DistinctKeys(gs) && 0 <= i < |gs|
    ensures Find(gs, gs[i].key) == Some(gs[i])
  {
    if i > 0 {
      assert gs[0].key != gs[i].key;
      assert gs[1..][i - 1] == gs[i];
      FindDistinct(gs[1..], i - 1);
    }
  }

  /** The group for `k` after one more item with `amount`: a fresh group, or the old one bumped. */
  function Bumped(g: Option<Group>, k: Key, amount: real): Group
  {
    if g.Some? then g.value.(count := g.value.count + 1, sum := g.value.sum + amount) else Group(k, 1, amount)
  }

  /** Adds one item to the groups: bumps its key's group, or appends a new group for a new key. */
  function AddItem(gs: seq<Group>, k: Key, amount: real): seq<Group>
  {
    if gs == [] then [Group(k, 1, amount)]
    else if gs[0].key == k then [Bumped(Some(gs[0]), k, amount)] + gs[1..]
    else [gs[0]] + AddItem(gs[1..], k, amount)
  }

  lemma FindCons(g: Group, gs: seq<Group>, k: Key)
    ensures Find([g] + gs, k) == if g.key == k then Some(g) else Find(gs, k)
  {
    assert ([g] + gs)[0] == g && ([g] + gs)[1..] == gs;
  }

  /** What adding an item does: only the group of its key changes, and keys stay distinct. */
  ghost predicate AddsItem(gs: seq<Group>, k: Key, amount: real, r: seq<Group>)
  {
    && DistinctKeys(r)
    && GroupKeys(r) == GroupKeys(gs) + {k}
    && forall k' :: Find(r, k') == if k' == k then Some(Bumped(Find(gs, k), k, amount)) else Find(gs, k')
  }

  /** Adding an item changes the group of its key only, and keeps the keys distinct. */
  lemma {:induction false} AddItemSpec(gs: seq<Group>, k: Key, amount: real)
    requires DistinctKeys(gs)
    ensures AddsItem(gs, k, amount, AddItem(gs, k, amount))
  {
    if gs == [] {
      var r := AddItem(gs, k, amount);
      forall k' ensures Find(r, k') == if k' == k then Some(Bumped(Find(gs, k), k, amount)) else Find(gs, k') {
        FindCons(r[0], [], k');
        assert r == [r[0]] + [];
      }
      GroupKeysCons(r[0], []);
      assert r == [r[0]] + [];
    } else if gs[0].key == k {
      AddItemToFirst(gs, k, amount);
    } else {
      AddItemSpec(gs[1..], k, amount);
      AddItemPastFirst(gs, k, amount);
    }
  }

  lemma AddItemToFirst(gs: seq<Group>, k: Key, amount: real)
    requires DistinctKeys(gs) && gs != [] && gs[0].key == k
    ensures AddsItem(gs, k, amount, AddItem(gs, k, amount))
  {
    var r := AddItem(gs, k, amount);
    var g0 := gs[0];
    assert gs == [g0] + gs[1..];
    GroupKeysCons(g0, gs[1..]);
    var b := Bumped(Some(g0), k, amount);
    GroupKeysCons(b, gs[1..]);
    forall k' ensures Find(r, k') == if k' == k then Some(Bumped(Find(gs, k), k, amount)) else Find(gs, k') {
      FindCons(b, gs[1..], k');
      FindCons(g0, gs[1..], k');
    }
    assert DistinctKeys(r) by {
      forall i, j | 0 <= i < j < |r| ensures r[i].key != r[j].key {
        assert r[j] == gs[j];
        if i > 0 { assert r[i] == gs[i]; }
      }
    }
  }

  lemma AddItemPastFirst(gs: seq<Group>, k: Key, amount: real)
    requires DistinctKeys(gs) && gs != [] && gs[0].key != k
    requires AddsItem(gs[1..], k, amount, AddItem(gs[1..], k, amount))
    ensures AddsItem(gs, k, amount, AddItem(gs, k, amount))
  {
    var r := AddItem(gs, k, amount);
    var g0 := gs[0];
    var rest := AddItem(gs[1..], k, amount);
    assert r == [g0] + rest;
    assert gs == [g0] + gs[1..];
    GroupKeysCons(g0, gs[1..]);
    GroupKeysCons(g0, rest);
    assert g0.key !in GroupKeys(gs[1..]) by {
      forall i | 0 <= i < |gs[1..]| ensures gs[1..][i].key != g0.key {
        assert gs[1..][i] == gs[i + 1];
      }
    }
    forall k' ensures Find(r, k') == if k' == k then Some(Bumped(Find(gs, k), k, amount)) else Find(gs, k') {
      FindCons(g0, rest, k');
      FindCons(g0, gs[1..], k');
      FindCons(g0, gs[1..], k);
    }
    assert DistinctKeys(r) by {
      forall i, j | 0 <= i < j < |r| ensures r[i].key != r[j].key {
        assert r[j] == rest[j - 1];
        if i == 0 {
          assert r[j].key in GroupKeys(rest);
        } else {
          assert r[i] == rest[i - 1];
        }
      }
    }
  }

  lemma GroupKeysCons(g: Group, gs: seq<Group>)
    ensures GroupKeys([g] + gs) == {g.key} + GroupKeys(gs)
  {
    var c := [g] + gs;
    forall x | x in GroupKeys(c) ensures x in {g.key} + GroupKeys(gs) {
      var i :| 0 <= i < |c| && c[i].key == x;
      if i > 0 { assert gs[i - 1].key == x; }
    }
    forall x | x in GroupKeys(gs) ensures x in GroupKeys(c) {
      var i :| 0 <= i < |gs| && gs[i].key == x;
      assert c[i + 1].key == x;
    }
    assert c[0].key == g.key;
  }

  /**
   * `$group` by key: one group per distinct key, holding how many items
   * have that key and their summed amount. Groups come in order of first
   * appearance; the database itself promises no order.
   */
  function GroupBy(items: seq<(Key, real)>): (gs: seq<Group>)
    ensures DistinctKeys(gs)
    ensures GroupKeys(gs) == KeysOf(items)
    ensures forall k :: CountIn(gs, k) == CountOf(items, k) && SumIn(gs, k) == SumOf(items, k)
  {
    if items == [] then []
    else
      var init := items[..|items| - 1];
      var last := items[|items| - 1];
      assert KeysOf(items) == KeysOf(init) + {last.0} by {
        forall x | x in KeysOf(items) ensures x in KeysOf(init) + {last.0} {
          var i :| 0 <= i < |items| && items[i].0 == x;
          if i < |init| { assert init[i].0 == x; }
        }
        forall x | x in KeysOf(init) ensures x in KeysOf(items) {
          var i :| 0 <= i < |init| && init[i].0 == x;
          assert items[i].0 == x;
        }
      }
      var gs := GroupBy(init);
      AddItemSpec(gs, last.0, last.1);
      AddItem(gs, last.0, last.1)
  }

  /** Each output group carries the count and the sum of exactly the items with its key. */
  lemma GroupByGroups(items: seq<(Key, real)>, i: int)
    requires 0 <= i < |GroupBy(items)|
    ensures var g := GroupBy(items)[i];
      g.count == CountOf(items, g.key) && g.sum == SumOf(items, g.key) && g.count > 0
  {
    var gs := GroupBy(items);
    FindDistinct(gs, i);
    assert gs[i].key in GroupKeys(gs);
    CountOfPositive(items, gs[i].key);
  }

  /** A key that occurs among the items is counted at least once. */
  lemma {:induction false} CountOfPositive(items: seq<(Key, real)>, k: Key)
    requires k in KeysOf(items)
    ensures CountOf(items, k) > 0
    decreases |items|
  {
    var init := items[..|items| - 1];
    if items[|items| - 1].0 != k {
      var i :| 0 <= i < |items| && items[i].0 == k;
      assert init[i].0 == k;
      CountOfPositive(init, k);
    }
  }
}
