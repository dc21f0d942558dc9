/**
 * getPageviewMetrics: the number of distinct sessions per value of a page-level
 * column; for entry and exit reports the value is the first or last page of
 * each visit.
 */
module PageviewMetrics {
  import opened Wrappers
  import opened Aggregate
  import opened Ordering
  import opened Events
  import opened Metrics

  datatype PageviewPlan = PageviewPlan(column: string, excludeDomain: bool, entryExit: EntryExit, joinSession: bool, limit: nat, offset: nat)

  /** The plan: resolved column, self-referral exclusion for the referrer column, entry/exit, session join, paging defaults. */
  function PlanPageview(cfg: MetricsConfig, reportType: string, paging: Paging): (p: PageviewPlan)
    ensures p.column == ResolveColumn(cfg, reportType)
    ensures p.excludeDomain <==> ResolveColumn(cfg, reportType) == "referrer_domain"
    ensures p.entryExit == EntryExitOf(reportType)
    ensures p.joinSession <==> JoinsSession(cfg, reportType)
    ensures p.limit == Limit(paging) && p.offset == Offset(paging)
  {
    var column := ResolveColumn(cfg, reportType);
    PageviewPlan(column, column == "referrer_domain", EntryExitOf(reportType), JoinsSession(cfg, reportType), Limit(paging), Offset(paging))
  }

  /** The first event of `vs` whose time is `t`. */
  function FirstAt(vs: seq<Event>, t: int): (e: Event)
    requires exists x :: x in vs && x.createdAt == t
    ensures e in vs && e.createdAt == t
  {
    if vs[0].createdAt == t then vs[0] else FirstAt(vs[1..], t)
  }

  /**
   * `select distinct on (visit_id) ... order by visit_id, created_at asc|desc`:
   * one event per visit, the earliest (entry) or latest (exit).
   */
  function Boundary(vs: seq<Event>, k: EntryExit): (e: Event)
    requires vs != []
  {
    var ts := Map(vs, (x: Event) => x.createdAt);
    var t := if k == Exit then MaxOf(ts) else MinOf(ts);
    var i :| 0 <= i < |ts| && ts[i] == t;
    assert vs[i] in vs;
    FirstAt(vs, t)
  }

  /** The boundary event belongs to the visit and no visit event is earlier (entry) or later (exit). */
  lemma BoundaryMeaning(vs: seq<Event>, k: EntryExit)
    requires vs != []
    ensures Boundary(vs, k) in vs
    ensures k != Exit ==> forall x :: x in vs ==> Boundary(vs, k).createdAt <= x.createdAt
    ensures k == Exit ==> forall x :: x in vs ==> x.createdAt <= Boundary(vs, k).createdAt
  {
    var ts := Map(vs, (x: Event) => x.createdAt);
    forall x | x in vs ensures x.createdAt in ts {
      var i :| 0 <= i < |vs| && vs[i] == x;
      assert ts[i] == x.createdAt;
    }
  }

  /** The events the outer query counts. */
  predicate Selected(e: Event, plan: PageviewPlan, websiteId: string, startDate: int, endDate: int, filter: Event -> bool) {
    InWindow(e, websiteId, startDate, endDate) && e.eventType != CustomEventType &&
    (plan.excludeDomain ==> NotSelfOrEmptyReferrer(e)) && filter(e)
  }

  function SelectedEvents(events: seq<Event>, plan: PageviewPlan, websiteId: string, startDate: int, endDate: int, filter: Event -> bool): seq<Event> {
    Filter(events, (e: Event) => Selected(e, plan, websiteId, startDate, endDate, filter))
  }

  /** `x`: the column of the event itself, or `x.<column>` of its visit's boundary event. */
  function XOf(events: seq<Event>, e: Event, plan: PageviewPlan, websiteId: string, startDate: int, endDate: int): Option<string> {
    if plan.entryExit == NoEntryExit then Column(e, plan.column)
    else
      var vs := VisitEvents(events, e.visitId, websiteId, startDate, endDate);
      if vs == [] then None else Column(Boundary(vs, plan.entryExit), plan.column)
  }

  datatype XRow = XRow(x: Option<string>, session: string)

  function XRows(events: seq<Event>, plan: PageviewPlan, websiteId: string, startDate: int, endDate: int, filter: Event -> bool): seq<XRow> {
    Map(SelectedEvents(events, plan, websiteId, startDate, endDate, filter), (e: Event) => XRow(XOf(events, e, plan, websiteId, startDate, endDate), e.sessionId))
  }

  datatype MetricRow = MetricRow(x: Option<string>, y: nat)

  /** `count(distinct session_id)` of one `x`. */
  function DistinctSessions(rows: seq<XRow>, x: Option<string>): nat {
    |Dedup(Map(WithX(rows, x), (r: XRow) => r.session))|
  }

  function WithX(rows: seq<XRow>, x: Option<string>): seq<XRow> {
    Filter(rows, (r: XRow) => r.x == x)
  }

  function ByY(r: MetricRow): (int, int) {
    (r.y, 0)
  }

  /** `group by 1 order by 2 desc limit .. offset ..`; a NULL `x` is a group of its own. */
  function GroupRows(rows: seq<XRow>, limit: nat, offset: nat): seq<MetricRow> {
    Page(SortDesc(Grouped(rows), ByY), limit, offset)
  }

  function Xs(rows: seq<XRow>): seq<Option<string>> {
    Map(rows, (r: XRow) => r.x)
  }

  function XRowOf(rows: seq<XRow>, x: Option<string>): MetricRow {
    MetricRow(x, DistinctSessions(rows, x))
  }

  /** `group by 1`: one row per distinct `x`. */
  function Grouped(rows: seq<XRow>): seq<MetricRow> {
    Map(Dedup(Xs(rows)), x => XRowOf(rows, x))
  }

  function PageviewMetrics(events: seq<Event>, plan: PageviewPlan, websiteId: string, startDate: int, endDate: int, filter: Event -> bool): seq<MetricRow> {
    GroupRows(XRows(events, plan, websiteId, startDate, endDate, filter), plan.limit, plan.offset)
  }

  /** An entry (exit) row's value is the first (last) event of the counted event's visit. */
  lemma EntryExitValue(events: seq<Event>, e: Event, plan: PageviewPlan, websiteId: string, startDate: int, endDate: int, filter: Event -> bool)
    requires e in events && Selected(e, plan, websiteId, startDate, endDate, filter) && plan.entryExit != NoEntryExit
    ensures exists b :: (b in VisitEvents(events, e.visitId, websiteId, startDate, endDate) &&
      XOf(events, e, plan, websiteId, startDate, endDate) == Column(b, plan.column) &&
      (plan.entryExit == Entry ==> forall x :: x in VisitEvents(events, e.visitId, websiteId, startDate, endDate) ==> b.createdAt <= x.createdAt) &&
      (plan.entryExit == Exit ==> forall x :: x in VisitEvents(events, e.visitId, websiteId, startDate, endDate) ==> x.createdAt <= b.createdAt))
  {
    var vs := VisitEvents(events, e.visitId, websiteId, startDate, endDate);
    assert e in vs;
    BoundaryMeaning(vs, plan.entryExit);
  }

  /** Every counted event passes the WHERE clause: custom events and, for the referrer column, self-referrals are out. */
  lemma SelectedMeaning(events: seq<Event>, plan: PageviewPlan, websiteId: string, startDate: int, endDate: int, filter: Event -> bool)
    ensures forall e :: e in SelectedEvents(events, plan, websiteId, startDate, endDate, filter) ==>
      e in events && e.eventType != CustomEventType && e.websiteId == websiteId && startDate <= e.createdAt <= endDate &&
      (plan.excludeDomain ==> e.referrerDomain.Some? && e.referrerDomain.value != "" && e.referrerDomain != e.hostname)
  {
  }

  /**
   * At most `limit` rows, ordered by `y` descending, one per distinct `x`, each
   * `y` the number of distinct sessions with that `x`.
   */
  lemma GroupRowsMeaning(rows: seq<XRow>, limit: nat, offset: nat)
    ensures |GroupRows(rows, limit, offset)| <= limit
    ensures SortedDesc(GroupRows(rows, limit, offset), ByY)
    ensures forall r :: r in GroupRows(rows, limit, offset) ==> r.y == DistinctSessions(rows, r.x) && r.x in Xs(rows)
    ensures forall r :: r in GroupRows(rows, limit, offset) ==> 1 <= r.y
    ensures NoDups(Map(GroupRows(rows, limit, offset), RowX))
    ensures |GroupRows(rows, limit, offset)| == PageSize(|Dedup(Xs(rows))|, limit, offset)
  {
    GroupRowsComplete(rows, limit, offset);
    var sorted := SortDesc(Grouped(rows), ByY);
    PageKeepsOrder(sorted, ByY, limit, offset);
    forall r | r in GroupRows(rows, limit, offset)
      ensures r.y == DistinctSessions(rows, r.x) && r.x in Xs(rows) && 1 <= r.y
    {
      assert r in multiset(Grouped(rows));
      GroupedRow(rows, r);
    }
  }

  /** A grouped row is an `x` of the rows with its positive distinct-session count. */
  lemma GroupedRow(rows: seq<XRow>, r: MetricRow)
    requires r in Grouped(rows)
    ensures r.y == DistinctSessions(rows, r.x) && r.x in Xs(rows) && 1 <= r.y
  {
    var xs := Dedup(Xs(rows));
    var j :| 0 <= j < |xs| && Grouped(rows)[j] == r;
    assert r == XRowOf(rows, xs[j]);
    assert xs[j] in xs;
    var k :| 0 <= k < |rows| && rows[k].x == r.x;
    var mine := WithX(rows, r.x);
    assert rows[k] in mine;
    assert rows[k].session in Map(mine, (q: XRow) => q.session);
  }

  function RowX(r: MetricRow): Option<string> {
    r.x
  }

  /**
   * The report pages through one ranked row per distinct `x`: no `x` appears
   * twice, the page is as long as the window over the distinct values allows,
   * every `x` of the rows is ranked, and a first page holds the values with the
   * most sessions.
   */
  lemma GroupRowsComplete(rows: seq<XRow>, limit: nat, offset: nat)
    ensures NoDups(Map(GroupRows(rows, limit, offset), RowX))
    ensures |GroupRows(rows, limit, offset)| == PageSize(|Dedup(Xs(rows))|, limit, offset)
    ensures forall x :: x in Xs(rows) ==> XRowOf(rows, x) in SortDesc(Grouped(rows), ByY)
    ensures offset == 0 ==> forall x, k ::
      x in Xs(rows) && XRowOf(rows, x) !in GroupRows(rows, limit, 0) && 0 <= k < |GroupRows(rows, limit, 0)| ==>
        DistinctSessions(rows, x) <= GroupRows(rows, limit, 0)[k].y
  {
    var g := Grouped(rows);
    var xs := Dedup(Xs(rows));
    assert Map(g, RowX) == xs by {
      forall i | 0 <= i < |xs| ensures Map(g, RowX)[i] == xs[i] {
        assert g[i] == XRowOf(rows, xs[i]);
      }
    }
    RankedPage(g, ByY, RowX, limit, offset);
    forall x | x in Xs(rows) ensures XRowOf(rows, x) in g {
      var j :| 0 <= j < |xs| && xs[j] == x;
      assert g[j] == XRowOf(rows, x);
    }
  }
}
