/**
 * getSessionMetrics: distinct sessions per value of a session-level column,
 * grouped by country as well for city and region reports.
 */
module SessionMetrics {
  import opened Wrappers
  import opened Aggregate
  import opened Ordering
  import opened Events
  import opened Metrics

  /** The events counted: the website's, in range, custom events excluded, through the filters. */
  predicate Selected(e: Event, websiteId: string, startDate: int, endDate: int, filter: Event -> bool) {
    InWindow(e, websiteId, startDate, endDate) && e.eventType != CustomEventType && filter(e)
  }

  /** `x` and, with includeCountry, `country`: the GROUP BY key. */
  datatype SessionKey = SessionKey(x: Option<string>, country: Option<string>)

  datatype KeyedSession = KeyedSession(key: SessionKey, session: string)

  function KeyedRows(events: seq<Event>, plan: SessionPlan, websiteId: string, startDate: int, endDate: int, filter: Event -> bool): seq<KeyedSession> {
    Map(Filter(events, (e: Event) => Selected(e, websiteId, startDate, endDate, filter)),
        (e: Event) => KeyedSession(SessionKey(SessionValue(plan, e), CountryOf(plan, e)), e.sessionId))
  }

  datatype SessionRow = SessionRow(x: Option<string>, country: Option<string>, y: nat)

  function DistinctSessions(rows: seq<KeyedSession>, k: SessionKey): nat {
    |Dedup(Map(WithKey(rows, k), (r: KeyedSession) => r.session))|
  }

  function WithKey(rows: seq<KeyedSession>, k: SessionKey): seq<KeyedSession> {
    Filter(rows, (r: KeyedSession) => r.key == k)
  }

  function ByY(r: SessionRow): (int, int) {
    (r.y, 0)
  }

  function Keys(rows: seq<KeyedSession>): seq<SessionKey> {
    Map(rows, (r: KeyedSession) => r.key)
  }

  function KeyRow(rows: seq<KeyedSession>, k: SessionKey): SessionRow {
    SessionRow(k.x, k.country, DistinctSessions(rows, k))
  }

  /** `group by`: one row per distinct key. */
  function Grouped(rows: seq<KeyedSession>): seq<SessionRow> {
    Map(Dedup(Keys(rows)), k => KeyRow(rows, k))
  }

  function GroupRows(rows: seq<KeyedSession>, limit: nat, offset: nat): seq<SessionRow> {
    Page(SortDesc(Grouped(rows), ByY), limit, offset)
  }

  function SessionMetrics(events: seq<Event>, plan: SessionPlan, websiteId: string, startDate: int, endDate: int, filter: Event -> bool): seq<SessionRow> {
    GroupRows(KeyedRows(events, plan, websiteId, startDate, endDate, filter), plan.limit, plan.offset)
  }

  /** Without the country grouping every row has a NULL country, so rows are told apart by `x` alone. */
  lemma CountryOnlyWhenIncluded(events: seq<Event>, plan: SessionPlan, websiteId: string, startDate: int, endDate: int, filter: Event -> bool)
    ensures forall r :: r in KeyedRows(events, plan, websiteId, startDate, endDate, filter) ==>
      exists e :: (e in events && Selected(e, websiteId, startDate, endDate, filter) && r.session == e.sessionId &&
        r.key.x == SessionValue(plan, e) &&
        r.key.country == (if plan.includeCountry then Column(e, "country") else None))
  {
    var sel := Filter(events, (e: Event) => Selected(e, websiteId, startDate, endDate, filter));
    forall r | r in KeyedRows(events, plan, websiteId, startDate, endDate, filter)
      ensures exists e :: (e in events && Selected(e, websiteId, startDate, endDate, filter) && r.session == e.sessionId &&
        r.key.x == SessionValue(plan, e) &&
        r.key.country == (if plan.includeCountry then Column(e, "country") else None))
    {
      var i :| 0 <= i < |sel| && KeyedRows(events, plan, websiteId, startDate, endDate, filter)[i] == r;
      assert sel[i] in sel;
    }
  }

  /**
   * At most `limit` rows, ordered by `y` descending, one per distinct key, each
   * `y` the positive number of distinct sessions with that key.
   */
  lemma GroupRowsMeaning(rows: seq<KeyedSession>, limit: nat, offset: nat)
    ensures |GroupRows(rows, limit, offset)| <= limit
    ensures SortedDesc(GroupRows(rows, limit, offset), ByY)
    ensures forall r :: r in GroupRows(rows, limit, offset) ==>
      r.y == DistinctSessions(rows, SessionKey(r.x, r.country)) && 1 <= r.y &&
      SessionKey(r.x, r.country) in Keys(rows)
    ensures NoDups(Map(GroupRows(rows, limit, offset), RowKey))
    ensures |GroupRows(rows, limit, offset)| == PageSize(|Dedup(Keys(rows))|, limit, offset)
  {
    GroupRowsComplete(rows, limit, offset);
    var sorted := SortDesc(Grouped(rows), ByY);
    PageKeepsOrder(sorted, ByY, limit, offset);
    forall r | r in GroupRows(rows, limit, offset)
      ensures r.y == DistinctSessions(rows, SessionKey(r.x, r.country)) && 1 <= r.y
      ensures SessionKey(r.x, r.country) in Keys(rows)
    {
      assert r in multiset(Grouped(rows));
      GroupedRow(rows, r);
    }
  }

  /** A grouped row is a key of the rows with its positive distinct-session count. */
  lemma GroupedRow(rows: seq<KeyedSession>, r: SessionRow)
    requires r in Grouped(rows)
    ensures r.y == DistinctSessions(rows, SessionKey(r.x, r.country)) && 1 <= r.y
    ensures SessionKey(r.x, r.country) in Keys(rows)
  {
    var ks := Dedup(Keys(rows));
    var j :| 0 <= j < |ks| && Grouped(rows)[j] == r;
    var key := ks[j];
    assert r == KeyRow(rows, key);
    assert key == SessionKey(r.x, r.country);
    assert key in Keys(rows);
    var k :| 0 <= k < |rows| && Keys(rows)[k] == key;
    var mine := WithKey(rows, key);
    assert rows[k] in mine;
    assert rows[k].session in Map(mine, (q: KeyedSession) => q.session);
  }

  function RowKey(r: SessionRow): SessionKey {
    SessionKey(r.x, r.country)
  }

  /**
   * The report pages through one ranked row per distinct key: no key appears
   * twice, the page is as long as the window over the distinct keys allows,
   * every key of the rows is ranked, and a first page holds the keys with the
   * most sessions.
   */
  lemma GroupRowsComplete(rows: seq<KeyedSession>, limit: nat, offset: nat)
    ensures NoDups(Map(GroupRows(rows, limit, offset), RowKey))
    ensures |GroupRows(rows, limit, offset)| == PageSize(|Dedup(Keys(rows))|, limit, offset)
    ensures forall k :: k in Keys(rows) ==> KeyRow(rows, k) in SortDesc(Grouped(rows), ByY)
    ensures offset == 0 ==> forall key, i ::
      key in Keys(rows) && KeyRow(rows, key) !in GroupRows(rows, limit, 0) && 0 <= i < |GroupRows(rows, limit, 0)| ==>
        DistinctSessions(rows, key) <= GroupRows(rows, limit, 0)[i].y
  {
    var g := Grouped(rows);
    var ks := Dedup(Keys(rows));
    assert Map(g, RowKey) == ks by {
      forall i | 0 <= i < |ks| ensures Map(g, RowKey)[i] == ks[i] {
        assert g[i] == KeyRow(rows, ks[i]);
      }
    }
    RankedPage(g, ByY, RowKey, limit, offset);
    forall k | k in Keys(rows) ensures KeyRow(rows, k) in g {
      var j :| 0 <= j < |ks| && ks[j] == k;
      assert g[j] == KeyRow(rows, k);
    }
  }
}
