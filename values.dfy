/**
 * getValues: the ten most frequent values of a column, optionally narrowed by a
 * search term; a term holding commas becomes up to five OR-ed alternatives,
 * each bound to a parameter of its own.
 */
module Values {
  import opened Wrappers
  import opened Aggregate
  import opened Ordering
  import opened Text
  import opened Events

  const MaxSearchTerms: nat := 5
  const ValuesLimit: nat := 10

  /** The search term as the optional filter value; `if (search)` needs a non-empty string. */
  predicate Truthy(search: Option<string>) {
    search.Some? && search.value != ""
  }

  /** The search condition, named by the parameters its terms are bound to. */
  datatype SearchClause = NoSearch | SingleTerm(key: string) | AnyTerm(keys: seq<string>)

  /** `search${index}`. */
  function SearchKey(k: nat): string {
    "search" + NatToString(k)
  }

  /** `decoded.split(',').slice(0, 5)`. */
  function SearchParts(decoded: string): seq<string> {
    Take(Split(decoded, ','), MaxSearchTerms)
  }

  /** The `search` parameter: `%${search}%`, which renders an undefined term as `undefined`. */
  function SearchParam(search: Option<string>): string {
    "%" + search.GetOr("undefined") + "%"
  }

  /**
   * The search part of relationalQuery. `decoded` is decodeURIComponent(search).
   * The `params` it returns are the search-related query parameters.
   */
  method BuildSearch(search: Option<string>, decoded: string) returns (clause: SearchClause, params: map<string, string>)
    ensures !Truthy(search) ==> clause == NoSearch
    ensures Truthy(search) && ',' !in decoded ==> clause == SingleTerm("search")
    ensures Truthy(search) && ',' in decoded ==>
      clause.AnyTerm? && |clause.keys| == |SearchParts(decoded)| &&
      forall k :: 0 <= k < |clause.keys| ==>
        clause.keys[k] == SearchKey(k) && clause.keys[k] in params && params[clause.keys[k]] == SearchParts(decoded)[k]
    ensures "search" in params && params["search"] == SearchParam(search)
    ensures forall key :: key in params ==> key == "search" || (clause.AnyTerm? && key in clause.keys)
  {
    params := map[];
    clause := NoSearch;
    if Truthy(search) {
      if ',' in decoded {
        var parts := SearchParts(decoded);
        var keys: seq<string> := [];
        var k := 0;
        while k < |parts|
          invariant 0 <= k <= |parts| <= MaxSearchTerms
          invariant |keys| == k
          invariant forall i :: 0 <= i < k ==> keys[i] == SearchKey(i) && keys[i] in params && params[keys[i]] == parts[i]
          invariant forall key :: key in params ==> key in keys
        {
          var key := SearchKey(k);
          forall i | 0 <= i < k ensures keys[i] != key {
            SearchKeysDistinct(i, k);
          }
          params := params[key := parts[k]];
          keys := keys + [key];
          k := k + 1;
        }
        clause := AnyTerm(keys);
      } else {
        clause := SingleTerm("search");
      }
    }
    forall key | key in params ensures key != "search" {
      SearchKeyNotSearch(clause, key);
    }
    params := params["search" := SearchParam(search)];
  }

  /** No numbered key is the plain `search` key. */
  lemma SearchKeyNotSearch(clause: SearchClause, key: string)
    requires clause.AnyTerm? ==> forall i :: 0 <= i < |clause.keys| ==> clause.keys[i] == SearchKey(i)
    ensures key in (if clause.AnyTerm? then clause.keys else []) ==> key != "search"
  {
  }

  /** `search0` … `search9` are all different. */
  lemma SearchKeysDistinct(i: nat, j: nat)
    requires i < j < 10
    ensures SearchKey(i) != SearchKey(j)
  {
    assert SearchKey(i)[6] == Digit(i) && SearchKey(j)[6] == Digit(j);
  }

  /**
   * At most five parts, each free of commas, in the order they appear; when the
   * term has at most five parts, joining them gives the term back, so
   * duplicates are kept.
   */
  lemma SearchPartsMeaning(decoded: string)
    ensures |SearchParts(decoded)| <= MaxSearchTerms
    ensures SearchParts(decoded) == Split(decoded, ',')[..|SearchParts(decoded)|]
    ensures forall k :: 0 <= k < |SearchParts(decoded)| ==> ',' !in SearchParts(decoded)[k]
    ensures ',' in decoded ==> |SearchParts(decoded)| >= 2
    ensures CountOf(decoded, ',') < MaxSearchTerms ==> Join(SearchParts(decoded), ',') == decoded
  {
    SplitParts(decoded, ',');
    JoinSplit(decoded, ',');
    var parts := Split(decoded, ',');
    forall k | 0 <= k < |SearchParts(decoded)| ensures ',' !in SearchParts(decoded)[k] {
      assert SearchParts(decoded)[k] == parts[k];
    }
  }

  /** `a,a` searches for `a` twice. */
  lemma DuplicatesKept()
    ensures SearchParts("a,a") == ["a", "a"]
  {
    assert Split("", ',') == [""];
    assert "a"[1..] == "";
    var r := Split("", ',');
    assert r[1..] == [];
    assert ['a'] + r[0] == "a";
    assert Split("a", ',') == ["a"];
    assert ",a"[1..] == "a";
    assert Split(",a", ',') == ["", "a"];
    assert "a,a"[1..] == ",a";
    assert Split("a,a", ',') == ["a", "a"];
  }

  /**
   * The meaning of the search condition on a value. `matches(value, p)` is the
   * term the (unseen) search SQL builder writes, with parameter `p` bound.
   */
  predicate SearchHolds(clause: SearchClause, params: map<string, string>, value: Option<string>, matches: (Option<string>, string) -> bool) {
    match clause
    case NoSearch => true
    case SingleTerm(key) => key in params && matches(value, params[key])
    case AnyTerm(keys) => exists k :: 0 <= k < |keys| && keys[k] in params && matches(value, params[keys[k]])
  }

  /** One result row: `value` and `count(*)`. */
  datatype ValueRow = ValueRow(value: Option<string>, count: nat)

  predicate Selected(e: Event, column: string, websiteId: string, startDate: int, endDate: int,
                     clause: SearchClause, params: map<string, string>, matches: (Option<string>, string) -> bool) {
    InWindow(e, websiteId, startDate, endDate) &&
    SearchHolds(clause, params, Column(e, column), matches) &&
    (column == "referrer_domain" ==> NotSelfOrEmptyReferrer(e))
  }

  function ColumnValues(events: seq<Event>, column: string, websiteId: string, startDate: int, endDate: int,
                        clause: SearchClause, params: map<string, string>, matches: (Option<string>, string) -> bool): seq<Option<string>> {
    Map(Filter(events, (e: Event) => Selected(e, column, websiteId, startDate, endDate, clause, params, matches)), (e: Event) => Column(e, column))
  }

  function ByCount(r: ValueRow): (int, int) {
    (r.count, 0)
  }

  /** `group by 1 order by 2 desc limit 10`. */
  function TopValues(vs: seq<Option<string>>): seq<ValueRow> {
    Top(Grouped(vs), ByCount, ValuesLimit)
  }

  function GetValues(events: seq<Event>, column: string, websiteId: string, startDate: int, endDate: int,
                     clause: SearchClause, params: map<string, string>, matches: (Option<string>, string) -> bool): seq<ValueRow> {
    TopValues(ColumnValues(events, column, websiteId, startDate, endDate, clause, params, matches))
  }

  /**
   * At most ten rows, by count descending; each row's count is the number of
   * selected events with its value, and no value left out is more frequent
   * than one kept.
   */
  lemma TopValuesMeaning(vs: seq<Option<string>>)
    ensures |TopValues(vs)| == if |Dedup(vs)| < ValuesLimit then |Dedup(vs)| else ValuesLimit
    ensures SortedDesc(TopValues(vs), ByCount)
    ensures forall r :: r in TopValues(vs) ==> r.count == CountOf(vs, r.value) && r.count >= 1
    ensures NoDups(Map(TopValues(vs), RowValue))
  {
    TopKeepsLargest(Grouped(vs), ByCount, ValuesLimit);
    assert Map(Grouped(vs), RowValue) == Dedup(vs);
    TopKeepsDistinct(Grouped(vs), ByCount, RowValue, ValuesLimit);
    forall r | r in TopValues(vs) ensures r.count == CountOf(vs, r.value) && r.count >= 1 {
      assert r in multiset(TopValues(vs));
      GroupedRow(vs, r);
    }
  }

  /**
   * A value is left out only when ten rows are kept, and then none of them is
   * less frequent than it.
   */
  lemma TopValuesLargest(vs: seq<Option<string>>, v: Option<string>)
    requires v in vs && ValueRow(v, CountOf(vs, v)) !in TopValues(vs)
    ensures |TopValues(vs)| == ValuesLimit
    ensures forall k :: 0 <= k < |TopValues(vs)| ==> CountOf(vs, v) <= TopValues(vs)[k].count
  {
    GroupedHasValue(vs, v);
    TopRowsLargest(Grouped(vs), ValueRow(v, CountOf(vs, v)));
    TopHoldsAll(Grouped(vs), ByCount, ValuesLimit);
    TopKeepsLargest(Grouped(vs), ByCount, ValuesLimit);
  }

  function RowValue(r: ValueRow): Option<string> {
    r.value
  }

  lemma TopRowsLargest(g: seq<ValueRow>, x: ValueRow)
    requires x in g && x !in Top(g, ByCount, ValuesLimit)
    ensures forall k :: 0 <= k < |Top(g, ByCount, ValuesLimit)| ==> x.count <= Top(g, ByCount, ValuesLimit)[k].count
  {
    TopKeepsLargest(g, ByCount, ValuesLimit);
  }

  function Grouped(vs: seq<Option<string>>): seq<ValueRow> {
    Map(Dedup(vs), (v: Option<string>) => ValueRow(v, CountOf(vs, v)))
  }

  lemma GroupedRow(vs: seq<Option<string>>, r: ValueRow)
    requires r in Grouped(vs)
    ensures r.count == CountOf(vs, r.value) && r.count >= 1
  {
    var i :| 0 <= i < |Grouped(vs)| && Grouped(vs)[i] == r;
    assert Dedup(vs)[i] in Dedup(vs);
  }

  lemma GroupedHasValue(vs: seq<Option<string>>, v: Option<string>)
    requires v in vs
    ensures ValueRow(v, CountOf(vs, v)) in Grouped(vs)
  {
    var i :| 0 <= i < |Dedup(vs)| && Dedup(vs)[i] == v;
    assert Grouped(vs)[i] == ValueRow(v, CountOf(vs, v));
  }

  /** A referrer value is never a self-referral or empty. */
  lemma ReferrerExcluded(e: Event, websiteId: string, startDate: int, endDate: int,
                         clause: SearchClause, params: map<string, string>, matches: (Option<string>, string) -> bool)
    requires Selected(e, "referrer_domain", websiteId, startDate, endDate, clause, params, matches)
    ensures e.referrerDomain.Some? && e.referrerDomain.value != "" && e.referrerDomain != e.hostname
  {
  }
}
