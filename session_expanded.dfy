/**
 * getSessionExpandedMetrics: per session-level name (and country, for city and
 * region reports), pageviews, visitors, visits and bounces from a two-level
 * grouping; unlike the page report, no name is dropped.
 */
module SessionExpanded {
  import opened Wrappers
  import opened Aggregate
  import opened Ordering
  import opened Events
  import opened Metrics

  predicate Selected(e: Event, websiteId: string, startDate: int, endDate: int, filter: Event -> bool) {
    InWindow(e, websiteId, startDate, endDate) && e.eventType != CustomEventType && filter(e)
  }

  /** The outer GROUP BY key: name and, with includeCountry, country. */
  datatype OuterKey = OuterKey(name: Option<string>, country: Option<string>)

  /** The inner GROUP BY key: name, session, visit and, with includeCountry, country. */
  datatype InnerKey = InnerKey(outer: OuterKey, sessionId: string, visitId: string)

  function InnerKeys(events: seq<Event>, plan: SessionPlan, websiteId: string, startDate: int, endDate: int, filter: Event -> bool): seq<InnerKey> {
    Map(Filter(events, (e: Event) => Selected(e, websiteId, startDate, endDate, filter)),
        (e: Event) => InnerKey(OuterKey(SessionValue(plan, e), CountryOf(plan, e)), e.sessionId, e.visitId))
  }

  function OuterOf(k: InnerKey): OuterKey {
    k.outer
  }

  datatype ExpandedRow = ExpandedRow(name: Option<string>, country: Option<string>, stats: GroupStats)

  function RowStats(keys: seq<InnerKey>, g: OuterKey): GroupStats {
    Stats(keys, OuterOf, (k: InnerKey) => k.sessionId, (k: InnerKey) => k.visitId, g)
  }

  function ByVisitors(r: ExpandedRow): (int, int) {
    (r.stats.visitors, r.stats.visits)
  }

  function ExpandedRows(keys: seq<InnerKey>, limit: nat, offset: nat): seq<ExpandedRow> {
    Page(SortedRows(keys), limit, offset)
  }

  function SessionExpandedMetrics(events: seq<Event>, plan: SessionPlan, websiteId: string, startDate: int, endDate: int, filter: Event -> bool): seq<ExpandedRow> {
    ExpandedRows(InnerKeys(events, plan, websiteId, startDate, endDate, filter), plan.limit, plan.offset)
  }

  function SortedRows(keys: seq<InnerKey>): seq<ExpandedRow> {
    SortDesc(Grouped(keys), ByVisitors)
  }

  function GroupRow(keys: seq<InnerKey>, g: OuterKey): ExpandedRow {
    ExpandedRow(g.name, g.country, RowStats(keys, g))
  }

  /** The outer `group by`: one row per distinct outer key. */
  function Grouped(keys: seq<InnerKey>): seq<ExpandedRow> {
    Map(Dedup(Map(keys, OuterOf)), g => GroupRow(keys, g))
  }

  function RowKey(r: ExpandedRow): OuterKey {
    OuterKey(r.name, r.country)
  }

  /**
   * At most `limit` rows, ordered by visitors then visits, one per outer group
   * and as many as the page over the groups allows; each row is an outer
   * group of the keys with that group's statistics.
   */
  lemma ExpandedRowsMeaning(keys: seq<InnerKey>, limit: nat, offset: nat)
    ensures |ExpandedRows(keys, limit, offset)| <= limit
    ensures |ExpandedRows(keys, limit, offset)| == PageSize(|Dedup(Map(keys, OuterOf))|, limit, offset)
    ensures NoDups(Map(ExpandedRows(keys, limit, offset), RowKey))
    ensures SortedDesc(ExpandedRows(keys, limit, offset), ByVisitors)
    ensures forall r :: r in ExpandedRows(keys, limit, offset) ==>
      OuterKey(r.name, r.country) in Map(keys, OuterOf) && r.stats == RowStats(keys, OuterKey(r.name, r.country))
  {
    var gs := Dedup(Map(keys, OuterOf));
    assert Map(Grouped(keys), RowKey) == gs by {
      forall j | 0 <= j < |gs| ensures Map(Grouped(keys), RowKey)[j] == gs[j] {
        assert Grouped(keys)[j] == GroupRow(keys, gs[j]);
      }
    }
    RankedPage(Grouped(keys), ByVisitors, RowKey, limit, offset);
    PageKeepsOrder(SortedRows(keys), ByVisitors, limit, offset);
    forall r | r in ExpandedRows(keys, limit, offset)
      ensures OuterKey(r.name, r.country) in Map(keys, OuterOf) && r.stats == RowStats(keys, OuterKey(r.name, r.country))
    {
      SortedRowFrom(keys, r);
    }
  }

  lemma SortedRowFrom(keys: seq<InnerKey>, r: ExpandedRow)
    requires r in SortedRows(keys)
    ensures OuterKey(r.name, r.country) in Map(keys, OuterOf) && r.stats == RowStats(keys, OuterKey(r.name, r.country))
  {
    var gs := Dedup(Map(keys, OuterOf));
    assert r in multiset(SortedRows(keys));
    assert r in multiset(Grouped(keys));
    var j :| 0 <= j < |gs| && Grouped(keys)[j] == r;
    assert r == GroupRow(keys, gs[j]);
    assert gs[j] in gs;
  }

  /**
   * No name is dropped: every group of the keys, a NULL or '' name included,
   * has its row in the ordered result, and so in any page wide enough.
   */
  lemma EveryGroupRanked(keys: seq<InnerKey>, k: InnerKey)
    requires k in keys
    ensures exists r :: r in SortedRows(keys) && OuterKey(r.name, r.country) == k.outer && r.stats == RowStats(keys, k.outer)
  {
    var gs := Dedup(Map(keys, OuterOf));
    var i :| 0 <= i < |keys| && keys[i] == k;
    assert Map(keys, OuterOf)[i] == k.outer;
    assert k.outer in Map(keys, OuterOf);
    var j :| 0 <= j < |gs| && gs[j] == k.outer;
    var r := Grouped(keys)[j];
    assert r == GroupRow(keys, k.outer);
    assert r in multiset(Grouped(keys));
    assert r in multiset(SortedRows(keys));
    assert r in SortedRows(keys);
  }

  /** A row's pageviews are its group's events; bounces, visitors and visits never exceed them. */
  lemma RowStatsBounds(keys: seq<InnerKey>, g: OuterKey)
    ensures RowStats(keys, g).pageviews == |Members(keys, OuterOf, g)|
    ensures RowStats(keys, g).bounces <= RowStats(keys, g).pageviews
    ensures RowStats(keys, g).visitors <= RowStats(keys, g).pageviews
    ensures RowStats(keys, g).visits <= RowStats(keys, g).pageviews
  {
    StatsBounds(keys, OuterOf, (k: InnerKey) => k.sessionId, (k: InnerKey) => k.visitId, g);
  }

  /** Without includeCountry the country part of every key is NULL: rows are grouped by name alone. */
  lemma CountryOnlyWhenIncluded(events: seq<Event>, plan: SessionPlan, websiteId: string, startDate: int, endDate: int, filter: Event -> bool)
    requires !plan.includeCountry
    ensures forall k :: k in InnerKeys(events, plan, websiteId, startDate, endDate, filter) ==> k.outer.country.None?
  {
  }
}
