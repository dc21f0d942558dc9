/**
 * Plan choices shared by the metrics reports: how a report type resolves to a
 * column, when the session table is joined, the limit and offset defaults,
 * the country grouping and the language rewrite of the session reports, and
 * the entry/exit selection of the page reports.
 */
module Metrics {
  import opened Wrappers
  import opened Text
  import opened Events

  /** The constant tables the plans consult. */
  datatype MetricsConfig = MetricsConfig(filterColumns: map<string, string>, sessionColumns: seq<string>)

  /** `FILTER_COLUMNS[type] || type`: a missing or empty mapping falls back to the type itself. */
  function ResolveColumn(cfg: MetricsConfig, reportType: string): (c: string)
    ensures reportType in cfg.filterColumns && cfg.filterColumns[reportType] != "" ==> c == cfg.filterColumns[reportType]
    ensures reportType !in cfg.filterColumns || cfg.filterColumns[reportType] == "" ==> c == reportType
  {
    if reportType in cfg.filterColumns && cfg.filterColumns[reportType] != "" then cfg.filterColumns[reportType] else reportType
  }

  /** `SESSION_COLUMNS.includes(type)`, the joinSession option handed to the filter builder. */
  predicate JoinsSession(cfg: MetricsConfig, reportType: string) {
    reportType in cfg.sessionColumns
  }

  /** The `limit` and `offset` parameters; None stands for undefined. */
  datatype Paging = Paging(limit: Option<nat>, offset: Option<nat>)

  const DefaultLimit: nat := 500
  const DefaultOffset: nat := 0

  /** `limit = 500, offset = 0` destructuring defaults: a given value is kept, an undefined one defaulted. */
  function Limit(p: Paging): (n: nat)
    ensures p.limit.None? ==> n == DefaultLimit
    ensures p.limit.Some? ==> n == p.limit.value
  {
    p.limit.GetOr(DefaultLimit)
  }

  function Offset(p: Paging): (n: nat)
    ensures p.offset.None? ==> n == DefaultOffset
    ensures p.offset.Some? ==> n == p.offset.value
  {
    p.offset.GetOr(DefaultOffset)
  }

  /** Entry and exit reports select the first or last event of each visit. */
  datatype EntryExit = NoEntryExit | Entry | Exit

  function EntryExitOf(reportType: string): (k: EntryExit)
    ensures k == Entry <==> reportType == "entry"
    ensures k == Exit <==> reportType == "exit"
  {
    if reportType == "entry" then Entry else if reportType == "exit" then Exit else NoEntryExit
  }

  /** The events an entry/exit subquery looks at: the website's, in range, custom events excluded, of one visit. */
  function VisitEvents(events: seq<Event>, visitId: string, websiteId: string, startDate: int, endDate: int): seq<Event> {
    Aggregate.Filter(events, (x: Event) => InWindow(x, websiteId, startDate, endDate) && x.eventType != CustomEventType && x.visitId == visitId)
  }

  /** The choices a session report makes before it queries. */
  datatype SessionPlan = SessionPlan(column: string, includeCountry: bool, languageRewrite: bool, joinSession: bool, limit: nat, offset: nat)

  /**
   * The plan of getSessionMetrics and getSessionExpandedMetrics: the country
   * grouping is decided on the resolved column before the language rewrite.
   */
  function PlanSession(cfg: MetricsConfig, reportType: string, paging: Paging): (p: SessionPlan)
    ensures p.column == ResolveColumn(cfg, reportType)
    ensures p.includeCountry <==> ResolveColumn(cfg, reportType) == "city" || ResolveColumn(cfg, reportType) == "region"
    ensures p.languageRewrite <==> reportType == "language"
    ensures p.joinSession <==> JoinsSession(cfg, reportType)
    ensures p.limit == Limit(paging) && p.offset == Offset(paging)
  {
    var column := ResolveColumn(cfg, reportType);
    SessionPlan(column, column == "city" || column == "region", reportType == "language", JoinsSession(cfg, reportType), Limit(paging), Offset(paging))
  }

  /** The value an event is grouped under in a session report; the rewrite reads the `language` column itself. */
  function SessionValue(p: SessionPlan, e: Event): (v: Option<string>)
    ensures p.languageRewrite ==> (Column(e, "language").None? <==> v.None?)
    ensures p.languageRewrite && v.Some? ==> |v.value| <= 2 && v.value == Lower(Truncate(Column(e, "language").value, 2))
    ensures !p.languageRewrite ==> v == Column(e, p.column)
  {
    if p.languageRewrite then
      match Column(e, "language")
      case None => None
      case Some(l) => Some(Lower(Truncate(l, 2)))
    else Column(e, p.column)
  }

  /** The country column when it is grouped; otherwise every row shares one group for it. */
  function CountryOf(p: SessionPlan, e: Event): Option<string> {
    if p.includeCountry then Column(e, "country") else None
  }

  /** `lower(left(language, 2))` groups `en-US` and `EN-gb` together. */
  lemma LanguageRewriteExample(p: SessionPlan, e: Event, f: Event)
    requires p.languageRewrite
    requires Column(e, "language") == Some("en-US") && Column(f, "language") == Some("EN-gb")
    ensures SessionValue(p, e) == SessionValue(p, f) == Some("en")
  {
    assert Truncate("en-US", 2) == "en";
    assert Truncate("EN-gb", 2) == "EN";
    assert Lower("EN") == "en";
    assert Lower("en") == "en";
  }
}
