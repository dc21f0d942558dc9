/**
 * getPageviewExpandedMetrics: per page-level name, pageviews, visitors, visits
 * and bounces from a two-level grouping, with the self-referral exclusion, the
 * grouped-referrer CASE for the `domain` report and the entry/exit filter.
 */
module PageviewExpanded {
  import opened Wrappers
  import opened Aggregate
  import opened Ordering
  import opened Events
  import opened Clauses
  import opened Metrics

  /** A GROUPED_DOMAINS entry: `match` is one string or a list of them. */
  datatype MatchSpec = Single(value: string) | Many(values: seq<string>)
  datatype DomainGroup = DomainGroup(domain: string, matches: MatchSpec)

  /** `Array.isArray(group.match) ? group.match : [group.match]`. */
  function MatchList(m: MatchSpec): (vs: seq<string>)
    ensures m.Single? ==> vs == [m.value]
    ensures m.Many? ==> vs == m.values
  {
    match m
    case Single(v) => [v]
    case Many(vs) => vs
  }

  /** `toPostgresGroupedReferrer`: the domain of the first group whose clause holds, else 'Other'. */
  function GroupedReferrer(groups: seq<DomainGroup>, referrer: Option<string>): string {
    GroupedFrom(groups, referrer, 0)
  }

  /** The CASE from its `i`-th WHEN on. */
  function GroupedFrom(groups: seq<DomainGroup>, referrer: Option<string>, i: nat): string
    requires i <= |groups|
    decreases |groups| - i
  {
    if i == |groups| then "Other"
    else if ClauseHolds(referrer, PositionClause("referrer_domain", MatchList(groups[i].matches))) then groups[i].domain
    else GroupedFrom(groups, referrer, i + 1)
  }

  /** Group `i`'s clause holds on the referrer. */
  predicate GroupHolds(groups: seq<DomainGroup>, i: int, referrer: Option<string>)
    requires 0 <= i < |groups|
  {
    exists k :: 0 <= k < |MatchList(groups[i].matches)| && ColumnILike(referrer, "%" + MatchList(groups[i].matches)[k] + "%")
  }

  /** The clause of group `i`'s WHEN holds on the referrer. */
  predicate WhenHolds(groups: seq<DomainGroup>, i: int, referrer: Option<string>)
    requires 0 <= i < |groups|
  {
    ClauseHolds(referrer, PositionClause("referrer_domain", MatchList(groups[i].matches)))
  }

  /** With no WHEN holding from `i` on, the CASE gives 'Other'. */
  lemma {:induction false} GroupedFromNone(groups: seq<DomainGroup>, referrer: Option<string>, i: nat)
    requires i <= |groups|
    requires forall j :: i <= j < |groups| ==> !WhenHolds(groups, j, referrer)
    decreases |groups| - i
    ensures GroupedFrom(groups, referrer, i) == "Other"
  {
    if i < |groups| {
      assert !WhenHolds(groups, i, referrer);
      GroupedFromNone(groups, referrer, i + 1);
    }
  }

  /** From `i` on, the first WHEN `j` that holds names the row. */
  lemma {:induction false} GroupedFromFirst(groups: seq<DomainGroup>, referrer: Option<string>, i: nat, j: nat)
    requires i <= j < |groups| && WhenHolds(groups, j, referrer)
    requires forall l :: i <= l < j ==> !WhenHolds(groups, l, referrer)
    decreases j - i
    ensures GroupedFrom(groups, referrer, i) == groups[j].domain
  {
    if i < j {
      assert !WhenHolds(groups, i, referrer);
      GroupedFromFirst(groups, referrer, i + 1, j);
    }
  }

  /** A WHEN holds exactly when the referrer ILIKE-contains one of the group's match strings. */
  lemma WhenHoldsMeaning(groups: seq<DomainGroup>, referrer: Option<string>)
    ensures forall i :: 0 <= i < |groups| ==> (WhenHolds(groups, i, referrer) <==> GroupHolds(groups, i, referrer))
  {
    forall i | 0 <= i < |groups| ensures WhenHolds(groups, i, referrer) <==> GroupHolds(groups, i, referrer) {
      ClauseMeaning(referrer, "referrer_domain", MatchList(groups[i].matches));
    }
  }

  /**
   * The grouped name is the domain of the first group, in list order, one of
   * whose match strings the referrer ILIKE-contains; with no such group (and
   * for a NULL referrer) it is 'Other'.
   */
  lemma GroupedReferrerFirstMatch(groups: seq<DomainGroup>, referrer: Option<string>)
    ensures (forall i :: 0 <= i < |groups| ==> !GroupHolds(groups, i, referrer)) ==> GroupedReferrer(groups, referrer) == "Other"
    ensures forall i :: 0 <= i < |groups| && GroupHolds(groups, i, referrer) && (forall j :: 0 <= j < i ==> !GroupHolds(groups, j, referrer)) ==>
      GroupedReferrer(groups, referrer) == groups[i].domain
  {
    WhenHoldsMeaning(groups, referrer);
    if forall i :: 0 <= i < |groups| ==> !GroupHolds(groups, i, referrer) {
      GroupedFromNone(groups, referrer, 0);
    }
    forall i | 0 <= i < |groups| && GroupHolds(groups, i, referrer) && (forall j :: 0 <= j < i ==> !GroupHolds(groups, j, referrer))
      ensures GroupedReferrer(groups, referrer) == groups[i].domain
    {
      GroupedFromFirst(groups, referrer, 0, i);
    }
  }

  /** A NULL referrer is always 'Other'. */
  lemma NullReferrerIsOther(groups: seq<DomainGroup>)
    ensures GroupedReferrer(groups, None) == "Other"
  {
    GroupedReferrerFirstMatch(groups, None);
  }

  /** Where a pageview row's name comes from. */
  datatype NameSource = Plain(column: string) | Grouped

  datatype PageviewExpandedPlan = PageviewExpandedPlan(
    name: NameSource, excludeDomain: bool, entryExit: EntryExit, joinSession: bool, limit: nat, offset: nat)

  /**
   * relationalQuery's plan: the column is resolved, a referrer column brings in
   * the self/empty-referrer exclusion and, for the `domain` type, the grouped
   * CASE; entry and exit add the visit-boundary filter.
   */
  method PlanPageviewExpanded(cfg: MetricsConfig, reportType: string, paging: Paging) returns (plan: PageviewExpandedPlan)
    ensures plan.excludeDomain <==> ResolveColumn(cfg, reportType) == "referrer_domain"
    ensures plan.name == (if ResolveColumn(cfg, reportType) == "referrer_domain" && reportType == "domain" then Grouped
                          else Plain(ResolveColumn(cfg, reportType)))
    ensures plan.entryExit == EntryExitOf(reportType)
    ensures plan.joinSession <==> JoinsSession(cfg, reportType)
    ensures plan.limit == Limit(paging) && plan.offset == Offset(paging)
  {
    var column := Plain(ResolveColumn(cfg, reportType));
    var excludeDomain := false;
    var entryExit := NoEntryExit;
    if ResolveColumn(cfg, reportType) == "referrer_domain" {
      excludeDomain := true;
      if reportType == "domain" {
        column := Grouped;
      }
    }
    if reportType == "entry" || reportType == "exit" {
      entryExit := if reportType == "entry" then Entry else Exit;
    }
    plan := PageviewExpandedPlan(column, excludeDomain, entryExit, JoinsSession(cfg, reportType), Limit(paging), Offset(paging));
  }

  /** The `x` join: the event's time equals its visit's min (entry) or max (exit) event time. */
  predicate AtVisitBoundary(events: seq<Event>, e: Event, k: EntryExit, websiteId: string, startDate: int, endDate: int) {
    match k
    case NoEntryExit => true
    case Entry => e.createdAt == MinOf(Map(VisitEvents(events, e.visitId, websiteId, startDate, endDate), (x: Event) => x.createdAt))
    case Exit => e.createdAt == MaxOf(Map(VisitEvents(events, e.visitId, websiteId, startDate, endDate), (x: Event) => x.createdAt))
  }

  /** The WHERE clause of the inner query (filters and joins are the uninterpreted `filter`). */
  predicate Selected(events: seq<Event>, e: Event, plan: PageviewExpandedPlan, websiteId: string, startDate: int, endDate: int, filter: Event -> bool) {
    InWindow(e, websiteId, startDate, endDate) && e.eventType != CustomEventType &&
    (plan.excludeDomain ==> NotSelfOrEmptyReferrer(e)) && filter(e) &&
    AtVisitBoundary(events, e, plan.entryExit, websiteId, startDate, endDate)
  }

  function NameOf(plan: PageviewExpandedPlan, groups: seq<DomainGroup>, e: Event): Option<string> {
    match plan.name
    case Plain(c) => Column(e, c)
    case Grouped => Some(GroupedReferrer(groups, e.referrerDomain))
  }

  /** The inner GROUP BY key: name, session, visit. */
  datatype InnerKey = InnerKey(name: Option<string>, sessionId: string, visitId: string)

  function InnerKeys(events: seq<Event>, plan: PageviewExpandedPlan, groups: seq<DomainGroup>, websiteId: string, startDate: int, endDate: int, filter: Event -> bool): seq<InnerKey> {
    Map(Filter(events, (e: Event) => Selected(events, e, plan, websiteId, startDate, endDate, filter)),
        (e: Event) => InnerKey(NameOf(plan, groups, e), e.sessionId, e.visitId))
  }

  function KeyName(k: InnerKey): Option<string> {
    k.name
  }

  datatype ExpandedRow = ExpandedRow(name: string, stats: GroupStats)

  function RowStats(keys: seq<InnerKey>, n: string): GroupStats {
    Stats(keys, KeyName, (k: InnerKey) => k.sessionId, (k: InnerKey) => k.visitId, Some(n))
  }

  /** `where name != ''`: a NULL or empty name has no row. */
  function RowNames(keys: seq<InnerKey>): seq<string> {
    Map(Filter(Dedup(Map(keys, KeyName)), (n: Option<string>) => n.Some? && n.value != ""), (n: Option<string>) => n.GetOr(""))
  }

  function ByVisitors(r: ExpandedRow): (int, int) {
    (r.stats.visitors, r.stats.visits)
  }

  function NameRow(keys: seq<InnerKey>, n: string): ExpandedRow {
    ExpandedRow(n, RowStats(keys, n))
  }

  /** The outer `group by name`, after `where name != ''`. */
  function NamedRows(keys: seq<InnerKey>): seq<ExpandedRow> {
    Map(RowNames(keys), (n: string) => NameRow(keys, n))
  }

  function ExpandedRows(keys: seq<InnerKey>, limit: nat, offset: nat): seq<ExpandedRow> {
    Page(SortDesc(NamedRows(keys), ByVisitors), limit, offset)
  }

  /** getPageviewExpandedMetrics without totaltime. */
  function PageviewExpandedMetrics(events: seq<Event>, plan: PageviewExpandedPlan, groups: seq<DomainGroup>, websiteId: string, startDate: int, endDate: int, filter: Event -> bool): seq<ExpandedRow> {
    ExpandedRows(InnerKeys(events, plan, groups, websiteId, startDate, endDate, filter), plan.limit, plan.offset)
  }

  /** Every selected event's time is its visit's minimum (entry) or maximum (exit). */
  lemma EntryExitMeaning(events: seq<Event>, e: Event, plan: PageviewExpandedPlan, websiteId: string, startDate: int, endDate: int, filter: Event -> bool)
    requires e in events && Selected(events, e, plan, websiteId, startDate, endDate, filter)
    ensures e in VisitEvents(events, e.visitId, websiteId, startDate, endDate)
    ensures plan.entryExit == Entry ==> forall x :: x in VisitEvents(events, e.visitId, websiteId, startDate, endDate) ==> e.createdAt <= x.createdAt
    ensures plan.entryExit == Exit ==> forall x :: x in VisitEvents(events, e.visitId, websiteId, startDate, endDate) ==> x.createdAt <= e.createdAt
  {
    var vs := VisitEvents(events, e.visitId, websiteId, startDate, endDate);
    var ts := Map(vs, (x: Event) => x.createdAt);
    forall x | x in vs ensures ts[IndexOf(vs, x)] == x.createdAt && x.createdAt in ts {
      assert ts[IndexOf(vs, x)] in ts;
    }
  }

  function IndexOf(s: seq<Event>, x: Event): (i: nat)
    requires x in s
    ensures i < |s| && s[i] == x
  {
    if s[0] == x then 0 else 1 + IndexOf(s[1..], x)
  }

  /** A referrer-column report never counts self-referrals or empty referrers. */
  lemma ExcludedReferrers(events: seq<Event>, e: Event, plan: PageviewExpandedPlan, websiteId: string, startDate: int, endDate: int, filter: Event -> bool)
    requires plan.excludeDomain && Selected(events, e, plan, websiteId, startDate, endDate, filter)
    ensures e.referrerDomain.Some? && e.referrerDomain.value != "" && e.hostname.Some? && e.referrerDomain != e.hostname
  {
  }

  /**
   * At most `limit` rows, ordered by visitors then visits, one per name and as
   * many as the page over the names allows; no row is named '' and each
   * carries its name's statistics, whose pageviews are the number of
   * selected events with that name and whose bounces count the single-event
   * (name, session, visit) groups.
   */
  lemma ExpandedRowsMeaning(keys: seq<InnerKey>, limit: nat, offset: nat)
    ensures |ExpandedRows(keys, limit, offset)| <= limit
    ensures forall r :: r in ExpandedRows(keys, limit, offset) ==>
      r.name != "" && Some(r.name) in Map(keys, KeyName) && r.stats == RowStats(keys, r.name)
    ensures NoDups(Map(ExpandedRows(keys, limit, offset), RowName))
    ensures |ExpandedRows(keys, limit, offset)| == PageSize(|RowNames(keys)|, limit, offset)
  {
    ExpandedRowsComplete(keys, limit, offset);
    var rows := NamedRows(keys);
    var sorted := SortDesc(rows, ByVisitors);
    forall r | r in ExpandedRows(keys, limit, offset)
      ensures r.name != "" && Some(r.name) in Map(keys, KeyName) && r.stats == RowStats(keys, r.name)
    {
      PageFrom(sorted, limit, offset, r);
      assert r in multiset(rows);
      var i :| 0 <= i < |rows| && rows[i] == r;
      var opts := Filter(Dedup(Map(keys, KeyName)), (n: Option<string>) => n.Some? && n.value != "");
      assert opts[i] in opts;
    }
  }

  /** The page is a window of the ordered rows, so it is ordered too. */
  lemma ExpandedRowsSorted(keys: seq<InnerKey>, limit: nat, offset: nat)
    ensures SortedDesc(ExpandedRows(keys, limit, offset), ByVisitors)
  {
    var sorted := SortDesc(NamedRows(keys), ByVisitors);
    var p := ExpandedRows(keys, limit, offset);
    forall i, j | 0 <= i < j < |p| ensures KeyGe(ByVisitors(p[i]), ByVisitors(p[j])) {
      assert p[i] == sorted[offset + i] && p[j] == sorted[offset + j];
    }
  }

  /** A row's pageviews are its name's events; bounces are at most its inner groups, which are at most its pageviews. */
  lemma RowStatsBounds(keys: seq<InnerKey>, n: string)
    ensures RowStats(keys, n).pageviews == |Members(keys, KeyName, Some(n))|
    ensures RowStats(keys, n).bounces <= RowStats(keys, n).pageviews
    ensures RowStats(keys, n).visitors <= RowStats(keys, n).pageviews
    ensures RowStats(keys, n).visits <= RowStats(keys, n).pageviews
  {
    StatsBounds(keys, KeyName, (k: InnerKey) => k.sessionId, (k: InnerKey) => k.visitId, Some(n));
  }

  function RowName(r: ExpandedRow): string {
    r.name
  }

  /** `group by name` gives each non-empty name once. */
  lemma RowNamesDistinct(keys: seq<InnerKey>)
    ensures NoDups(RowNames(keys))
    ensures forall n :: n != "" && Some(n) in Map(keys, KeyName) ==> n in RowNames(keys)
  {
    var opts := Filter(Dedup(Map(keys, KeyName)), (n: Option<string>) => n.Some? && n.value != "");
    FilterKeepsNoDups(Dedup(Map(keys, KeyName)), (n: Option<string>) => n.Some? && n.value != "");
    var names := RowNames(keys);
    forall i, j | 0 <= i < j < |names| ensures names[i] != names[j] {
      assert opts[i] in opts && opts[j] in opts;
      assert opts[i] != opts[j];
    }
    forall n | n != "" && Some(n) in Map(keys, KeyName) ensures n in names {
      assert Some(n) in opts;
      var i :| 0 <= i < |opts| && opts[i] == Some(n);
      assert names[i] == n;
    }
  }

  /**
   * The report pages through one ranked row per non-empty name: no name
   * appears twice, the page is as long as the window over those names allows,
   * every non-empty name of the selected events is ranked, and a first page
   * holds the names with the most visitors, then visits.
   */
  lemma ExpandedRowsComplete(keys: seq<InnerKey>, limit: nat, offset: nat)
    ensures NoDups(Map(ExpandedRows(keys, limit, offset), RowName))
    ensures |ExpandedRows(keys, limit, offset)| == PageSize(|RowNames(keys)|, limit, offset)
    ensures forall n :: n != "" && Some(n) in Map(keys, KeyName) ==> NameRow(keys, n) in SortDesc(NamedRows(keys), ByVisitors)
    ensures offset == 0 ==> forall n, k ::
      n != "" && Some(n) in Map(keys, KeyName) && NameRow(keys, n) !in ExpandedRows(keys, limit, 0) && 0 <= k < |ExpandedRows(keys, limit, 0)| ==>
        KeyGe(ByVisitors(ExpandedRows(keys, limit, 0)[k]), (RowStats(keys, n).visitors, RowStats(keys, n).visits))
  {
    var rows := NamedRows(keys);
    var names := RowNames(keys);
    RowNamesDistinct(keys);
    assert Map(rows, RowName) == names by {
      forall i | 0 <= i < |names| ensures Map(rows, RowName)[i] == names[i] {
        assert rows[i] == NameRow(keys, names[i]);
      }
    }
    RankedPage(rows, ByVisitors, RowName, limit, offset);
    forall n | n != "" && Some(n) in Map(keys, KeyName) ensures NameRow(keys, n) in rows {
      var i :| 0 <= i < |names| && names[i] == n;
      assert rows[i] == NameRow(keys, n);
    }
  }
}
