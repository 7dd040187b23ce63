/**
 * Newest-first ordering on a creation timestamp (`sort({ createdAt: -1 })`),
 * used by the reservation list and by the dashboard's recent-activity feed,
 * and `limit(n)`.
 */
module NewestFirst {

  /** Timestamps never increase along `s`. Entries with equal timestamps may come in any order. */
  predicate Sorted<T>(s: seq<T>, stamp: T -> int)
  {
    forall i, j :: 0 <= i < j < |s| ==> stamp(s[i]) >= stamp(s[j])
  }

  /** Puts `x` into a newest-first sequence, keeping it newest first. */
  function Insert<T(==)>(s: seq<T>, x: T, stamp: T -> int): (r: seq<T>)
    requires Sorted(s, stamp)
    ensures Sorted(r, stamp)
    ensures |r| == |s| + 1
    ensures multiset(r) == multiset(s) + multiset{x}
  {
    if s == [] || stamp(s[0]) <= stamp(x) then [x] + s
    else
      assert s == [s[0]] + s[1..];
      SortedTail(s, stamp);
      var rest := Insert(s[1..], x, stamp);
      HeadNewest(s[0], s[1..], x, rest, stamp);
      [s[0]] + rest
  }

  /** Dropping the newest element keeps a sequence newest first. */
  lemma SortedTail<T>(s: seq<T>, stamp: T -> int)
    requires Sorted(s, stamp) && s != []
    ensures Sorted(s[1..], stamp)
  {
    forall i, j | 0 <= i < j < |s| - 1
      ensures stamp(s[1..][i]) >= stamp(s[1..][j])
    {
      assert s[1..][i] == s[i + 1] && s[1..][j] == s[j + 1];
    }
  }

  /** Prepending an element no older than everything in `rest` keeps `rest` newest first. */
  lemma HeadNewest<T>(h: T, tail: seq<T>, x: T, rest: seq<T>, stamp: T -> int)
    requires Sorted([h] + tail, stamp) && Sorted(rest, stamp)
    requires stamp(h) > stamp(x)
    requires multiset(rest) == multiset(tail) + multiset{x}
    ensures Sorted([h] + rest, stamp)
  {
    forall j | 0 <= j < |rest|
      ensures stamp(h) >= stamp(rest[j])
    {
      assert rest[j] in multiset(rest);
      if rest[j] != x {
        assert rest[j] in multiset(tail);
        var k :| 0 <= k < |tail| && tail[k] == rest[j];
        assert ([h] + tail)[0] == h && ([h] + tail)[k + 1] == rest[j];
      }
    }
    var r := [h] + rest;
    forall i, j | 0 <= i < j < |r|
      ensures stamp(r[i]) >= stamp(r[j])
    {
      if i > 0 {
        assert r[i] == rest[i - 1] && r[j] == rest[j - 1];
      } else {
        assert r[j] == rest[j - 1];
      }
    }
  }

  /** The elements of `s`, newest first. */
  function Sort<T(==)>(s: seq<T>, stamp: T -> int): (r: seq<T>)
    ensures Sorted(r, stamp)
    ensures |r| == |s|
    ensures multiset(r) == multiset(s)
  {
    if s == [] then []
    else
      assert s == s[..|s| - 1] + [s[|s| - 1]];
      Insert(Sort(s[..|s| - 1], stamp), s[|s| - 1], stamp)
  }

  /** `limit(n)`: the first `n` elements, or all of them when there are fewer. */
  function Take<T>(s: seq<T>, n: nat): (r: seq<T>)
    ensures |r| == if |s| <= n then |s| else n
    ensures r <= s
  {
    if |s| <= n then s else s[..n]
  }

  /**
   * The `n` newest elements: as many as there are up to `n`, newest first,
   * drawn from `s`, and no element left out is newer than one kept.
   */
  lemma {:induction false} NewestTaken<T>(s: seq<T>, n: nat, stamp: T -> int)
    ensures var r := Take(Sort(s, stamp), n);
      && |r| == (if |s| <= n then |s| else n)
      && Sorted(r, stamp)
      && multiset(r) <= multiset(s)
      && forall x, y :: x in multiset(s) - multiset(r) && y in r ==> stamp(y) >= stamp(x)
  {
    TakeNewest(Sort(s, stamp), n, stamp);
  }

  /** Cutting a newest-first sequence keeps it newest first and leaves out nothing newer than what it keeps. */
  lemma TakeNewest<T>(t: seq<T>, n: nat, stamp: T -> int)
    requires Sorted(t, stamp)
    ensures var r := Take(t, n);
      && Sorted(r, stamp)
      && multiset(r) <= multiset(t)
      && forall x, y :: x in multiset(t) - multiset(r) && y in r ==> stamp(y) >= stamp(x)
  {
    var r := Take(t, n);
    var rest := t[|r|..];
    assert t == r + rest;
    assert multiset(t) == multiset(r) + multiset(rest);
    SortedSplit(t, |r|, stamp);
    forall x, y | x in multiset(t) - multiset(r) && y in r
      ensures stamp(y) >= stamp(x)
    {
      assert x in rest;
    }
  }

  /** In a newest-first sequence, nothing after a cut point is newer than anything before it. */
  lemma SortedSplit<T>(t: seq<T>, k: nat, stamp: T -> int)
    requires Sorted(t, stamp) && k <= |t|
    ensures forall x, y :: x in t[k..] && y in t[..k] ==> stamp(y) >= stamp(x)
  {
    forall x, y | x in t[k..] && y in t[..k]
      ensures stamp(y) >= stamp(x)
    {
      var i :| 0 <= i < |t[k..]| && t[k..][i] == x;
      var j :| 0 <= j < k && t[..k][j] == y;
      assert t[j] == y && t[k + i] == x;
    }
  }
}
