/**
 * Sequence functions that give SQL aggregates their meaning: occurrence counts,
 * DISTINCT, filtering, and the two-level grouping that the "expanded metrics"
 * reports perform (an inner GROUP BY name, session, visit with count(*), and an
 * outer GROUP BY name that sums, counts and tallies those inner groups).
 */
module Aggregate {

  /** Number of occurrences of `x` in `s`. */
  function CountOf<T(==)>(s: seq<T>, x: T): (n: nat)
    ensures n <= |s|
    ensures n > 0 <==> x in s
  {
    if s == [] then 0 else (if s[0] == x then 1 else 0) + CountOf(s[1..], x)
  }

  lemma {:induction false} CountOfAppend<T>(a: seq<T>, b: seq<T>, x: T)
    ensures CountOf(a + b, x) == CountOf(a, x) + CountOf(b, x)
  {
    if a != [] {
      assert (a + b)[1..] == a[1..] + b;
      CountOfAppend(a[1..], b, x);
    } else {
      assert a + b == b;
    }
  }

  predicate NoDups<T(==)>(s: seq<T>) {
    forall i, j :: 0 <= i < j < |s| ==> s[i] != s[j]
  }

  /** The distinct elements of `s` in order of first occurrence: SQL's DISTINCT. */
  function Dedup<T(==)>(s: seq<T>): (r: seq<T>)
    ensures NoDups(r)
    ensures forall x :: x in r ==> x in s
    ensures forall x :: x in s ==> x in r
    ensures |r| <= |s|
  {
    if s == [] then []
    else
      var d := Dedup(s[..|s| - 1]);
      if s[|s| - 1] in d then d else d + [s[|s| - 1]]
  }

  /** The elements of `s` that satisfy `p`, in order: a WHERE clause. */
  function Filter<T>(s: seq<T>, p: T -> bool): (r: seq<T>)
    ensures |r| <= |s|
    ensures forall x :: x in r ==> x in s && p(x)
    ensures forall x :: x in s && p(x) ==> x in r
  {
    if s == [] then [] else (if p(s[0]) then [s[0]] else []) + Filter(s[1..], p)
  }

  lemma {:induction false} FilterAppend<T>(a: seq<T>, b: seq<T>, p: T -> bool)
    ensures Filter(a + b, p) == Filter(a, p) + Filter(b, p)
  {
    if a != [] {
      assert (a + b)[1..] == a[1..] + b;
      FilterAppend(a[1..], b, p);
    } else {
      assert a + b == b;
    }
  }

  /** A predicate that no element satisfies selects nothing. */
  lemma {:induction false} FilterNone<T>(s: seq<T>, p: T -> bool)
    requires forall x :: x in s ==> !p(x)
    ensures Filter(s, p) == []
  {
    if s != [] {
      FilterNone(s[1..], p);
    }
  }

  /** Two predicates that agree on the elements of `s` select the same rows. */
  lemma {:induction false} FilterSame<T>(s: seq<T>, p: T -> bool, q: T -> bool)
    requires forall x :: x in s ==> (p(x) <==> q(x))
    ensures Filter(s, p) == Filter(s, q)
  {
    if s != [] {
      FilterSame(s[1..], p, q);
    }
  }

  function Map<T, U>(s: seq<T>, f: T -> U): (r: seq<U>)
    ensures |r| == |s|
    ensures forall i :: 0 <= i < |s| ==> r[i] == f(s[i])
  {
    seq(|s|, i requires 0 <= i < |s| => f(s[i]))
  }

  /** Number of elements of `s` that occur in `keys`. */
  function CountIn<T(==)>(s: seq<T>, keys: seq<T>): nat {
    if s == [] then 0 else (if s[0] in keys then 1 else 0) + CountIn(s[1..], keys)
  }

  /** Sum over the keys `k` of the number of occurrences of `k` in `s`: SUM(c) over groups. */
  function SumCounts<T(==)>(keys: seq<T>, s: seq<T>): nat {
    if keys == [] then 0 else CountOf(s, keys[0]) + SumCounts(keys[1..], s)
  }

  lemma {:induction false} CountInCons<T>(s: seq<T>, k: T, ks: seq<T>)
    requires k !in ks
    ensures CountIn(s, [k] + ks) == CountOf(s, k) + CountIn(s, ks)
  {
    if s != [] {
      CountInCons(s[1..], k, ks);
    }
  }

  /** Adding up the sizes of distinct groups counts every grouped row exactly once. */
  lemma {:induction false} SumCountsIsCountIn<T>(keys: seq<T>, s: seq<T>)
    requires NoDups(keys)
    ensures SumCounts(keys, s) == CountIn(s, keys)
  {
    if keys == [] {
      CountInNone(s, keys);
    } else {
      assert keys == [keys[0]] + keys[1..];
      assert keys[0] !in keys[1..];
      SumCountsIsCountIn(keys[1..], s);
      CountInCons(s, keys[0], keys[1..]);
    }
  }

  lemma {:induction false} CountInNone<T>(s: seq<T>, keys: seq<T>)
    requires keys == []
    ensures CountIn(s, keys) == 0
  {
    if s != [] {
      CountInNone(s[1..], keys);
    }
  }

  /** `CountIn` agrees with counting the rows that satisfy a predicate equivalent to membership. */
  lemma {:induction false} CountInIsFilter<T>(s: seq<T>, keys: seq<T>, p: T -> bool)
    requires forall x :: x in s ==> (x in keys <==> p(x))
    ensures CountIn(s, keys) == |Filter(s, p)|
  {
    if s != [] {
      CountInIsFilter(s[1..], keys, p);
    }
  }

  /** Every member of `keys` that occurs in `s` adds at least one to the sum. */
  lemma {:induction false} SumCountsAtLeastLength<T>(keys: seq<T>, s: seq<T>)
    requires forall k :: k in keys ==> k in s
    ensures SumCounts(keys, s) >= |keys|
  {
    if keys != [] {
      SumCountsAtLeastLength(keys[1..], s);
    }
  }

  /** The statistics an expanded-metrics report gives one outer group. */
  datatype GroupStats = GroupStats(pageviews: nat, visitors: nat, visits: nat, bounces: nat)

  /** The rows whose outer key is `g`. */
  function Members<K, G(==)>(keys: seq<K>, outer: K -> G, g: G): seq<K> {
    Filter(keys, k => outer(k) == g)
  }

  /** The distinct inner group keys whose outer key is `g`. */
  function InnerGroups<K(==), G(==)>(keys: seq<K>, outer: K -> G, g: G): seq<K> {
    Filter(Dedup(keys), k => outer(k) == g)
  }

  /**
   * The outer group `g` of a two-level aggregation over the inner keys `keys`
   * (one per grouped event): pageviews = sum of the inner counts, visitors and
   * visits = distinct sessions and visits, bounces = inner groups of count 1.
   */
  function Stats<K(==), G(==)>(keys: seq<K>, outer: K -> G, session: K -> string, visit: K -> string, g: G): GroupStats {
    var gs := InnerGroups(keys, outer, g);
    GroupStats(
      SumCounts(gs, keys),
      |Dedup(Map(gs, session))|,
      |Dedup(Map(gs, visit))|,
      |Filter(gs, k => CountOf(keys, k) == 1)|)
  }

  /**
   * Summing the per-(name, session, visit) counts of a name gives the number of
   * events with that name; bounces, visitors and visits never exceed the number
   * of inner groups, which never exceeds the pageviews.
   */
  lemma {:induction false} StatsBounds<K, G>(keys: seq<K>, outer: K -> G, session: K -> string, visit: K -> string, g: G)
    ensures Stats(keys, outer, session, visit, g).pageviews == |Members(keys, outer, g)|
    ensures var st := Stats(keys, outer, session, visit, g);
      st.bounces <= |InnerGroups(keys, outer, g)| <= st.pageviews &&
      st.visitors <= |InnerGroups(keys, outer, g)| && st.visits <= |InnerGroups(keys, outer, g)|
  {
    var gs := InnerGroups(keys, outer, g);
    assert NoDups(gs) by {
      FilterKeepsNoDups(Dedup(keys), k => outer(k) == g);
    }
    SumCountsIsCountIn(gs, keys);
    CountInIsFilter(keys, gs, k => outer(k) == g);
    SumCountsAtLeastLength(gs, keys);
  }

  lemma {:induction false} FilterKeepsNoDups<T>(s: seq<T>, p: T -> bool)
    requires NoDups(s)
    ensures NoDups(Filter(s, p))
  {
    if s != [] {
      FilterKeepsNoDups(s[1..], p);
      var rest := Filter(s[1..], p);
      assert s[0] !in s[1..];
      assert s[0] !in rest;
    }
  }

  /** max(x) over a non-empty column; 0 stands in for the NULL of an empty one. */
  function MaxOf(s: seq<int>): (m: int)
    ensures |s| > 0 ==> m in s && forall x :: x in s ==> x <= m
  {
    if |s| == 0 then 0
    else if |s| == 1 then s[0]
    else
      var r := MaxOf(s[1..]);
      assert s == [s[0]] + s[1..];
      if s[0] >= r then s[0] else r
  }

  /** min(x) over a non-empty column; 0 stands in for the NULL of an empty one. */
  function MinOf(s: seq<int>): (m: int)
    ensures |s| > 0 ==> m in s && forall x :: x in s ==> m <= x
  {
    if |s| == 0 then 0
    else if |s| == 1 then s[0]
    else
      var r := MinOf(s[1..]);
      assert s == [s[0]] + s[1..];
      if s[0] <= r then s[0] else r
  }

  /** sum(x). */
  function Sum(s: seq<int>): int {
    if s == [] then 0 else s[0] + Sum(s[1..])
  }

  /** A sequence without repeats has as many elements as its set. */
  lemma {:induction false} NoDupsCard<T>(s: seq<T>)
    requires NoDups(s)
    ensures |set x | x in s| == |s|
  {
    if s != [] {
      var rest := s[1..];
      assert NoDups(rest) by {
        forall i, j | 0 <= i < j < |rest| ensures rest[i] != rest[j] {
          assert s[i + 1] != s[j + 1];
        }
      }
      NoDupsCard(rest);
      forall k | 0 <= k < |rest| ensures rest[k] != s[0] {
        assert s[0] != s[k + 1];
      }
      assert s[0] !in rest;
      assert (set x | x in s) == {s[0]} + (set x | x in rest);
    }
  }

  /** count(distinct x) is the size of the set of values counted. */
  lemma DedupCard<T>(s: seq<T>)
    ensures |Dedup(s)| == |set x | x in s|
  {
    NoDupsCard(Dedup(s));
    assert (set x | x in Dedup(s)) == (set x | x in s);
  }

  /** A subset is no larger than its superset. */
  lemma SubsetCard<T>(a: set<T>, b: set<T>)
    requires a <= b
    ensures |a| <= |b|
  {
    assert b == a + (b - a);
  }
}
