/**
 * ORDER BY ... DESC, LIMIT and OFFSET. SQL leaves the order of rows with equal
 * sort keys open; the model sorts stably (ties keep their input order) and every
 * property proved about a report holds for that order.
 */
module Ordering {
  import opened Aggregate

  /** Lexicographic `a >= b` on (primary, secondary) sort keys. */
  predicate KeyGe(a: (int, int), b: (int, int)) {
    a.0 > b.0 || (a.0 == b.0 && a.1 >= b.1)
  }

  /** `s` is ordered by `key` descending: ORDER BY primary DESC, secondary DESC. */
  predicate SortedDesc<T>(s: seq<T>, key: T -> (int, int)) {
    forall i, j :: 0 <= i < j < |s| ==> KeyGe(key(s[i]), key(s[j]))
  }

  function Insert<T>(x: T, s: seq<T>, key: T -> (int, int)): (r: seq<T>)
    requires SortedDesc(s, key)
    ensures SortedDesc(r, key)
    ensures multiset(r) == multiset(s) + multiset{x}
    decreases |s|, 1
  {
    if s == [] then [x]
    else if KeyGe(key(x), key(s[0])) then [x] + s
    else
      var rest := Insert(x, s[1..], key);
      assert s == [s[0]] + s[1..];
      InsertBelowHead(x, s, key);
      [s[0]] + rest
  }

  /** When `x` ranks below the head, the head ranks above every row the tail's insertion yields. */
  lemma InsertBelowHead<T>(x: T, s: seq<T>, key: T -> (int, int))
    requires SortedDesc(s, key) && s != [] && !KeyGe(key(x), key(s[0]))
    ensures forall k :: 0 <= k < |Insert(x, s[1..], key)| ==> KeyGe(key(s[0]), key(Insert(x, s[1..], key)[k]))
    decreases |s|, 0
  {
    var rest := Insert(x, s[1..], key);
    forall k | 0 <= k < |rest| ensures KeyGe(key(s[0]), key(rest[k])) {
      assert rest[k] in multiset(rest);
      if rest[k] != x {
        assert rest[k] in multiset(s[1..]);
        var i :| 0 <= i < |s[1..]| && s[1..][i] == rest[k];
        assert s[i + 1] == rest[k];
      }
    }
  }

  /** The rows of `s` rearranged in descending key order. */
  function SortDesc<T>(s: seq<T>, key: T -> (int, int)): (r: seq<T>)
    ensures SortedDesc(r, key)
    ensures multiset(r) == multiset(s)
    ensures |r| == |s|
  {
    if s == [] then []
    else
      assert s == [s[0]] + s[1..];
      Insert(s[0], SortDesc(s[1..], key), key)
  }

  /** LIMIT n. */
  function Take<T>(s: seq<T>, n: nat): (r: seq<T>)
    ensures |r| == if |s| < n then |s| else n
    ensures r == s[..|r|]
  {
    if |s| <= n then s else s[..n]
  }

  /** LIMIT limit OFFSET offset. */
  function Page<T>(s: seq<T>, limit: nat, offset: nat): (r: seq<T>)
    ensures |r| <= limit
    ensures offset <= |s| ==> r == Take(s[offset..], limit)
    ensures offset > |s| ==> r == []
  {
    if offset >= |s| then [] else Take(s[offset..], limit)
  }

  /** Every row of a page is a row of the input. */
  lemma PageFrom<T>(s: seq<T>, limit: nat, offset: nat, x: T)
    requires x in Page(s, limit, offset)
    ensures x in s
  {
    var p := Page(s, limit, offset);
    var i :| 0 <= i < |p| && p[i] == x;
    assert s[offset + i] == x;
  }

  /** A page of ordered rows is ordered and drawn from them. */
  lemma PageKeepsOrder<T>(s: seq<T>, key: T -> (int, int), limit: nat, offset: nat)
    requires SortedDesc(s, key)
    ensures SortedDesc(Page(s, limit, offset), key)
    ensures forall x :: x in Page(s, limit, offset) ==> x in s
  {
    var p := Page(s, limit, offset);
    forall i, j | 0 <= i < j < |p| ensures KeyGe(key(p[i]), key(p[j])) {
      assert p[i] == s[offset + i] && p[j] == s[offset + j];
    }
    forall x | x in p ensures x in s {
      PageFrom(s, limit, offset, x);
    }
  }

  /** A sorted prefix holds the largest rows: nothing left out ranks above anything kept. */
  lemma TakeKeepsTop<T>(s: seq<T>, key: T -> (int, int), n: nat)
    requires SortedDesc(s, key)
    ensures SortedDesc(Take(s, n), key)
    ensures forall i, j :: 0 <= i < |Take(s, n)| <= j < |s| ==> KeyGe(key(s[i]), key(s[j]))
  {
  }

  /** ORDER BY key DESC LIMIT n. */
  function Top<T>(s: seq<T>, key: T -> (int, int), n: nat): seq<T> {
    Take(SortDesc(s, key), n)
  }

  /**
   * The top n rows: at most n, in order, drawn from the input, and no input
   * row left out ranks above a kept one.
   */
  lemma TopKeepsLargest<T>(s: seq<T>, key: T -> (int, int), n: nat)
    ensures |Top(s, key, n)| == if |s| < n then |s| else n
    ensures SortedDesc(Top(s, key, n), key)
    ensures multiset(Top(s, key, n)) <= multiset(s)
    ensures forall x, k :: x in s && x !in Top(s, key, n) && 0 <= k < |Top(s, key, n)| ==> KeyGe(key(Top(s, key, n)[k]), key(x))
  {
    var sorted := SortDesc(s, key);
    var top := Take(sorted, n);
    TakeKeepsTop(sorted, key, n);
    assert sorted == top + sorted[|top|..];
    assert multiset(sorted) == multiset(top) + multiset(sorted[|top|..]);
    forall x, k | x in s && x !in top && 0 <= k < |top|
      ensures KeyGe(key(top[k]), key(x))
    {
      assert x in multiset(sorted);
      var j :| 0 <= j < |sorted| && sorted[j] == x;
    }
  }

  /** With no more rows than the limit, the top rows are all of them. */
  lemma TopHoldsAll<T>(s: seq<T>, key: T -> (int, int), n: nat)
    ensures |s| <= n ==> forall x :: x in s ==> x in Top(s, key, n)
  {
    if |s| <= n {
      forall x | x in s ensures x in Top(s, key, n) {
        assert x in multiset(SortDesc(s, key));
      }
    }
  }

  /** The top rows of rows with distinct keys have distinct keys. */
  lemma TopKeepsDistinct<T, K>(s: seq<T>, key: T -> (int, int), f: T -> K, n: nat)
    requires NoDups(Map(s, f))
    ensures NoDups(Map(Top(s, key, n), f))
  {
    var sorted := SortDesc(s, key);
    RankedPage(s, key, f, n, 0);
    assert sorted[0..] == sorted;
    assert Page(sorted, n, 0) == Top(s, key, n);
  }

  /** The number of rows LIMIT `limit` OFFSET `offset` leaves of `n` rows. */
  function PageSize(n: nat, limit: nat, offset: nat): nat {
    if offset >= n then 0 else if n - offset < limit then n - offset else limit
  }

  /** An element without duplicates occurs at most once. */
  lemma {:induction false} NoDupsOnce<T>(s: seq<T>, x: T)
    requires NoDups(s)
    ensures multiset(s)[x] <= 1
  {
    if s != [] {
      assert s == [s[0]] + s[1..];
      assert s[0] !in s[1..];
      NoDupsOnce(s[1..], x);
    }
  }

  /** An element at two positions occurs at least twice. */
  lemma TwiceCounted<T>(s: seq<T>, i: nat, j: nat)
    requires i < j < |s|
    ensures s[i] == s[j] ==> multiset(s)[s[i]] >= 2
  {
    assert s == s[..j] + s[j..];
    assert s[i] in s[..j];
    assert s[j] in s[j..];
  }

  /** Rearranging rows with distinct keys keeps the keys distinct. */
  lemma PermutationKeepsDistinct<T, K>(a: seq<T>, b: seq<T>, f: T -> K)
    requires multiset(a) == multiset(b)
    requires NoDups(Map(a, f))
    ensures NoDups(Map(b, f))
  {
    assert NoDups(a) by {
      forall i, j | 0 <= i < j < |a| ensures a[i] != a[j] {
        assert Map(a, f)[i] != Map(a, f)[j];
      }
    }
    forall i, j | 0 <= i < j < |b| ensures f(b[i]) != f(b[j]) {
      NoDupsOnce(a, b[i]);
      TwiceCounted(b, i, j);
      assert b[i] != b[j];
      assert b[i] in multiset(a) && b[j] in multiset(a);
      var p :| 0 <= p < |a| && a[p] == b[i];
      var q :| 0 <= q < |a| && a[q] == b[j];
      assert Map(a, f)[p] == f(b[i]) && Map(a, f)[q] == f(b[j]);
    }
  }

  /**
   * Ranking one row per group and paging the ranking: the ranking holds every
   * group, a page keeps the groups distinct and holds as many rows as the
   * window over the groups allows, and a first page holds the highest-ranked
   * groups.
   */
  lemma RankedPage<T, K>(groups: seq<T>, key: T -> (int, int), f: T -> K, limit: nat, offset: nat)
    requires NoDups(Map(groups, f))
    ensures forall g :: g in groups ==> g in SortDesc(groups, key)
    ensures NoDups(Map(Page(SortDesc(groups, key), limit, offset), f))
    ensures |Page(SortDesc(groups, key), limit, offset)| == PageSize(|groups|, limit, offset)
    ensures offset == 0 ==> forall g, k ::
      g in groups && g !in Page(SortDesc(groups, key), limit, 0) && 0 <= k < |Page(SortDesc(groups, key), limit, 0)| ==>
        KeyGe(key(Page(SortDesc(groups, key), limit, 0)[k]), key(g))
  {
    var sorted := SortDesc(groups, key);
    forall g | g in groups ensures g in sorted {
      assert g in multiset(sorted);
    }
    PermutationKeepsDistinct(groups, sorted, f);
    var page := Page(sorted, limit, offset);
    forall i, j | 0 <= i < j < |page| ensures Map(page, f)[i] != Map(page, f)[j] {
      assert page[i] == sorted[offset + i] && page[j] == sorted[offset + j];
      assert Map(sorted, f)[offset + i] != Map(sorted, f)[offset + j];
    }
    if offset == 0 {
      assert sorted[0..] == sorted;
      assert Page(sorted, limit, 0) == Top(groups, key, limit);
      TopKeepsLargest(groups, key, limit);
    }
  }
}
