/**
 * The attribution report: the conversion set (one row per converting
 * session), the touch chosen per session by the attribution model, the seven
 * grouped breakdowns (referrer, paid-ad platform, five UTM columns) capped at
 * the top 20, and the non-attributed totals.
 */
module Attribution {
  import opened Wrappers
  import opened Aggregate
  import opened Ordering
  import opened Events

  datatype AttributionParams = AttributionParams(
    startDate: int, endDate: int, model: string, stepType: string, step: string, currency: Option<string>)

  /** `currency ? ... : ...`: an empty currency string is falsy. */
  predicate CurrencyMode(p: AttributionParams) {
    p.currency.Some? && p.currency.value != ""
  }

  /** The column a conversion step is compared on and the event type handed to the filters. */
  datatype Target = Target(column: string, eventType: int)

  function TargetOf(stepType: string): (t: Target)
    ensures stepType == "path" ==> t == Target("url_path", PageViewType)
    ensures stepType != "path" ==> t == Target("event_name", CustomEventType)
  {
    if stepType == "path" then Target("url_path", PageViewType) else Target("event_name", CustomEventType)
  }

  /**
   * A row of the `revenue` table as saveEvent writes it: no url path is
   * stored, so `revenue.url_path` is NULL on every row.
   */
  datatype RevenueRow = RevenueRow(
    websiteId: string, sessionId: string, eventId: string,
    eventName: Option<string>,
    currency: Option<string>, revenue: int, createdAt: int)

  /** `revenue.${column}`: the event name, and NULL for any other column. */
  function RevenueColumn(r: RevenueRow, c: string): Option<string> {
    if c == "event_name" then r.eventName else None
  }

  /** An event of the website in the date range whose step column equals the step (and that passes the filters). */
  predicate StepEvent(e: Event, websiteId: string, p: AttributionParams, filter: Event -> bool) {
    InWindow(e, websiteId, p.startDate, p.endDate) &&
    EqualsText(Column(e, TargetOf(p.stepType).column), p.step) &&
    filter(e)
  }

  function StepEvents(events: seq<Event>, websiteId: string, p: AttributionParams, filter: Event -> bool): seq<Event> {
    Filter(events, e => StepEvent(e, websiteId, p, filter))
  }

  /** One row of the `events` CTE: a converting session, its reference time, and its revenue. */
  datatype Conversion = Conversion(sessionId: string, maxDt: int, value: int)

  function ConversionSession(c: Conversion): string {
    c.sessionId
  }

  function RevenueAmount(r: RevenueRow): int {
    r.revenue
  }

  function SessionsOf(es: seq<Event>): seq<string> {
    Map(es, (e: Event) => e.sessionId)
  }

  function TimesOf(es: seq<Event>): seq<int> {
    Map(es, (e: Event) => e.createdAt)
  }

  /** The `events` CTE without currency: per session, the latest matching event's time. */
  function EventConversions(events: seq<Event>, websiteId: string, p: AttributionParams, filter: Event -> bool): seq<Conversion> {
    LatestPerSession(StepEvents(events, websiteId, p, filter))
  }

  /** `select distinct session_id, max(created_at) ... group by 1`. */
  function LatestPerSession(se: seq<Event>): seq<Conversion> {
    Map(Dedup(SessionsOf(se)), s => LatestOfSession(se, s))
  }

  function LatestOfSession(se: seq<Event>, s: string): Conversion {
    Conversion(s, MaxOf(TimesOf(EventsOfSession(se, s))), 0)
  }

  function EventsOfSession(se: seq<Event>, s: string): seq<Event> {
    Filter(se, (e: Event) => e.sessionId == s)
  }

  /** A revenue row of the website, range, step and currency. */
  predicate RevenueMatches(r: RevenueRow, websiteId: string, p: AttributionParams) {
    r.websiteId == websiteId &&
    p.startDate <= r.createdAt <= p.endDate &&
    EqualsText(RevenueColumn(r, TargetOf(p.stepType).column), p.step) &&
    p.currency.Some? && EqualsText(r.currency, p.currency.value)
  }

  /** The join of a revenue row with the website event that produced it. */
  predicate RevenueJoins(r: RevenueRow, e: Event, websiteId: string, p: AttributionParams, filter: Event -> bool) {
    e.websiteId == r.websiteId && e.sessionId == r.sessionId && e.id == r.eventId &&
    InWindow(e, websiteId, p.startDate, p.endDate) && filter(e)
  }

  /** The joined (revenue, event) rows of the revenue `events` CTE. */
  function RevenuePairs(rs: seq<RevenueRow>, events: seq<Event>, websiteId: string, p: AttributionParams, filter: Event -> bool): seq<RevenueRow> {
    if rs == [] then []
    else
      var r := rs[0];
      var joined := if RevenueMatches(r, websiteId, p) then Filter(events, e => RevenueJoins(r, e, websiteId, p, filter)) else [];
      Map(joined, e => r) + RevenuePairs(rs[1..], events, websiteId, p, filter)
  }

  /** The `events` CTE with currency: per session, the latest revenue time and the summed revenue. */
  function RevenueConversions(rs: seq<RevenueRow>, events: seq<Event>, websiteId: string, p: AttributionParams, filter: Event -> bool): seq<Conversion> {
    PerSessionRevenue(RevenuePairs(rs, events, websiteId, p, filter))
  }

  /** `group by session_id` over the joined revenue rows, with `max(created_at)` and `sum(revenue)`. */
  function PerSessionRevenue(pairs: seq<RevenueRow>): seq<Conversion> {
    Map(Dedup(RowSessions(pairs)), s => SessionRevenue(pairs, s))
  }

  function RowSessions(rs: seq<RevenueRow>): seq<string> {
    Map(rs, (r: RevenueRow) => r.sessionId)
  }

  function RowTimes(rs: seq<RevenueRow>): seq<int> {
    Map(rs, (r: RevenueRow) => r.createdAt)
  }

  function SessionRevenue(pairs: seq<RevenueRow>, s: string): Conversion {
    var mine := RevenuesOfSession(pairs, s);
    Conversion(s, MaxOf(RowTimes(mine)), Sum(Map(mine, RevenueAmount)))
  }

  function RevenuesOfSession(pairs: seq<RevenueRow>, s: string): seq<RevenueRow> {
    Filter(pairs, (r: RevenueRow) => r.sessionId == s)
  }

  function Conversions(events: seq<Event>, rs: seq<RevenueRow>, websiteId: string, p: AttributionParams, filter: Event -> bool): seq<Conversion> {
    if CurrencyMode(p) then RevenueConversions(rs, events, websiteId, p, filter)
    else EventConversions(events, websiteId, p, filter)
  }

  /**
   * Without currency: one conversion per session that has a step event, timed
   * at the latest step event of that session.
   */
  lemma EventConversionsMeaning(events: seq<Event>, websiteId: string, p: AttributionParams, filter: Event -> bool)
    ensures NoDups(Map(EventConversions(events, websiteId, p, filter), ConversionSession))
    ensures forall e :: e in StepEvents(events, websiteId, p, filter) ==>
      exists c :: c in EventConversions(events, websiteId, p, filter) && c.sessionId == e.sessionId && e.createdAt <= c.maxDt
    ensures forall c :: c in EventConversions(events, websiteId, p, filter) ==>
      exists e :: e in StepEvents(events, websiteId, p, filter) && e.sessionId == c.sessionId && e.createdAt == c.maxDt
  {
    var se := StepEvents(events, websiteId, p, filter);
    LatestPerSessionDistinct(se);
    LatestPerSessionCovers(se);
    LatestPerSessionWitness(se);
  }

  lemma LatestPerSessionDistinct(se: seq<Event>)
    ensures NoDups(Map(LatestPerSession(se), ConversionSession))
  {
    assert Map(LatestPerSession(se), ConversionSession) == Dedup(SessionsOf(se));
  }

  lemma LatestPerSessionCovers(se: seq<Event>)
    ensures forall e :: e in se ==> exists c :: c in LatestPerSession(se) && c.sessionId == e.sessionId && e.createdAt <= c.maxDt
  {
    forall e | e in se
      ensures exists c :: c in LatestPerSession(se) && c.sessionId == e.sessionId && e.createdAt <= c.maxDt
    {
      LatestPerSessionCoversOne(se, e);
    }
  }

  lemma LatestPerSessionCoversOne(se: seq<Event>, e: Event)
    requires e in se
    ensures exists c :: c in LatestPerSession(se) && c.sessionId == e.sessionId && e.createdAt <= c.maxDt
  {
    var ss := Dedup(SessionsOf(se));
    var k :| 0 <= k < |se| && se[k] == e;
    assert SessionsOf(se)[k] == e.sessionId;
    assert e.sessionId in SessionsOf(se);
    var j :| 0 <= j < |ss| && ss[j] == e.sessionId;
    var c := LatestPerSession(se)[j];
    assert c == LatestOfSession(se, e.sessionId);
    TimesBound(EventsOfSession(se, e.sessionId), e);
    assert c in LatestPerSession(se);
  }

  lemma TimesBound(es: seq<Event>, e: Event)
    requires e in es
    ensures e.createdAt <= MaxOf(TimesOf(es)) && MinOf(TimesOf(es)) <= e.createdAt
  {
    var i :| 0 <= i < |es| && es[i] == e;
    assert TimesOf(es)[i] == e.createdAt;
    assert TimesOf(es)[i] in TimesOf(es);
  }

  lemma TimesWitness(es: seq<Event>)
    requires es != []
    ensures exists e :: e in es && e.createdAt == MaxOf(TimesOf(es))
    ensures exists e :: e in es && e.createdAt == MinOf(TimesOf(es))
  {
    var i :| 0 <= i < |es| && TimesOf(es)[i] == MaxOf(TimesOf(es));
    assert es[i] in es;
    var j :| 0 <= j < |es| && TimesOf(es)[j] == MinOf(TimesOf(es));
    assert es[j] in es;
  }

  lemma LatestPerSessionWitness(se: seq<Event>)
    ensures forall c :: c in LatestPerSession(se) ==> exists e :: e in se && e.sessionId == c.sessionId && e.createdAt == c.maxDt
  {
    forall c | c in LatestPerSession(se)
      ensures exists e :: e in se && e.sessionId == c.sessionId && e.createdAt == c.maxDt
    {
      LatestPerSessionWitnessOne(se, c);
    }
  }

  lemma LatestPerSessionWitnessOne(se: seq<Event>, c: Conversion)
    requires c in LatestPerSession(se)
    ensures exists e :: e in se && e.sessionId == c.sessionId && e.createdAt == c.maxDt
  {
    var ss := Dedup(SessionsOf(se));
    var j :| 0 <= j < |ss| && LatestPerSession(se)[j] == c;
    var mine := EventsOfSession(se, ss[j]);
    assert c == LatestOfSession(se, ss[j]);
    assert ss[j] in SessionsOf(se);
    var k :| 0 <= k < |se| && SessionsOf(se)[k] == ss[j];
    assert se[k] in mine;
    TimesWitness(mine);
  }

  /** Every joined revenue row is a revenue row of the step and currency with an in-range, filtered event behind it. */
  lemma {:induction false} RevenuePairsFrom(rs: seq<RevenueRow>, events: seq<Event>, websiteId: string, p: AttributionParams, filter: Event -> bool, r: RevenueRow)
    requires r in RevenuePairs(rs, events, websiteId, p, filter)
    ensures r in rs && RevenueMatches(r, websiteId, p)
    ensures exists e :: e in events && RevenueJoins(r, e, websiteId, p, filter)
  {
    var r0 := rs[0];
    var joined := if RevenueMatches(r0, websiteId, p) then Filter(events, (e: Event) => RevenueJoins(r0, e, websiteId, p, filter)) else [];
    var head := Map(joined, (e: Event) => r0);
    if r in head {
      var k :| 0 <= k < |head| && head[k] == r;
      assert joined[k] in joined;
    } else {
      RevenuePairsFrom(rs[1..], events, websiteId, p, filter, r);
    }
  }

  /**
   * With currency: one conversion per session with a joined revenue row. Its
   * time is the latest of those rows (attained by a matching revenue row and at
   * or after each joined one), and its value is the sum of their revenue.
   */
  lemma RevenueConversionsMeaning(rs: seq<RevenueRow>, events: seq<Event>, websiteId: string, p: AttributionParams, filter: Event -> bool)
    ensures NoDups(Map(RevenueConversions(rs, events, websiteId, p, filter), ConversionSession))
    ensures forall c :: c in RevenueConversions(rs, events, websiteId, p, filter) ==>
      exists r :: r in rs && RevenueMatches(r, websiteId, p) && r.sessionId == c.sessionId && r.createdAt == c.maxDt
    ensures forall r :: r in RevenuePairs(rs, events, websiteId, p, filter) ==>
      exists c :: c in RevenueConversions(rs, events, websiteId, p, filter) && c.sessionId == r.sessionId && r.createdAt <= c.maxDt
    ensures forall c :: c in RevenueConversions(rs, events, websiteId, p, filter) ==>
      c.value == Sum(Map(RevenuesOfSession(RevenuePairs(rs, events, websiteId, p, filter), c.sessionId), RevenueAmount))
  {
    var pairs := RevenuePairs(rs, events, websiteId, p, filter);
    var cs := PerSessionRevenue(pairs);
    forall r | r in pairs
      ensures exists c :: c in cs && c.sessionId == r.sessionId && r.createdAt <= c.maxDt
    {
      PerSessionRevenueCoversOne(pairs, r);
    }
    forall c | c in cs
      ensures c.value == Sum(Map(RevenuesOfSession(pairs, c.sessionId), RevenueAmount))
    {
      PerSessionRevenueValue(pairs, c);
    }
    assert Map(cs, ConversionSession) == Dedup(RowSessions(pairs));
    forall c | c in cs
      ensures exists r :: r in rs && RevenueMatches(r, websiteId, p) && r.sessionId == c.sessionId && r.createdAt == c.maxDt
    {
      var r := PerSessionWitness(pairs, c);
      RevenuePairsFrom(rs, events, websiteId, p, filter, r);
    }
  }

  /** A session's conversion takes its time from one of the session's joined revenue rows. */
  lemma PerSessionWitness(pairs: seq<RevenueRow>, c: Conversion) returns (r: RevenueRow)
    requires c in PerSessionRevenue(pairs)
    ensures r in pairs && r.sessionId == c.sessionId && r.createdAt == c.maxDt
  {
    var ss := Dedup(RowSessions(pairs));
    var j :| 0 <= j < |ss| && PerSessionRevenue(pairs)[j] == c;
    var mine := RevenuesOfSession(pairs, ss[j]);
    assert ss[j] in RowSessions(pairs);
    var k :| 0 <= k < |pairs| && RowSessions(pairs)[k] == ss[j];
    assert pairs[k] in mine;
    var times := RowTimes(mine);
    assert c == SessionRevenue(pairs, ss[j]);
    var i :| 0 <= i < |times| && times[i] == c.maxDt;
    r := mine[i];
    assert r in mine;
  }

  /** With currency, a `path` step matches no revenue row, so it has no conversions. */
  lemma {:induction false} PathStepNoRevenue(rs: seq<RevenueRow>, events: seq<Event>, websiteId: string, p: AttributionParams, filter: Event -> bool)
    requires p.stepType == "path"
    ensures RevenuePairs(rs, events, websiteId, p, filter) == []
    ensures RevenueConversions(rs, events, websiteId, p, filter) == []
  {
    if rs != [] {
      assert !RevenueMatches(rs[0], websiteId, p);
      PathStepNoRevenue(rs[1..], events, websiteId, p, filter);
    }
  }

  /** The join keeps every matching revenue row that has its in-range, filtered event. */
  lemma {:induction false} RevenuePairsCover(rs: seq<RevenueRow>, events: seq<Event>, websiteId: string, p: AttributionParams, filter: Event -> bool, r: RevenueRow, e: Event)
    requires r in rs && RevenueMatches(r, websiteId, p)
    requires e in events && RevenueJoins(r, e, websiteId, p, filter)
    ensures r in RevenuePairs(rs, events, websiteId, p, filter)
  {
    if rs[0] == r {
      var joined := Filter(events, (x: Event) => RevenueJoins(r, x, websiteId, p, filter));
      assert e in joined;
      var k :| 0 <= k < |joined| && joined[k] == e;
      assert Map(joined, (x: Event) => r)[k] == r;
    } else {
      RevenuePairsCover(rs[1..], events, websiteId, p, filter, r, e);
    }
  }

  lemma PerSessionRevenueCoversOne(pairs: seq<RevenueRow>, r: RevenueRow)
    requires r in pairs
    ensures exists c :: c in PerSessionRevenue(pairs) && c.sessionId == r.sessionId && r.createdAt <= c.maxDt
  {
    var ss := Dedup(RowSessions(pairs));
    var k :| 0 <= k < |pairs| && pairs[k] == r;
    assert RowSessions(pairs)[k] == r.sessionId;
    assert r.sessionId in RowSessions(pairs);
    var j :| 0 <= j < |ss| && ss[j] == r.sessionId;
    var c := PerSessionRevenue(pairs)[j];
    assert c == SessionRevenue(pairs, r.sessionId);
    var mine := RevenuesOfSession(pairs, r.sessionId);
    assert r in mine;
    var i :| 0 <= i < |mine| && mine[i] == r;
    assert RowTimes(mine)[i] == r.createdAt;
    assert RowTimes(mine)[i] in RowTimes(mine);
    assert c in PerSessionRevenue(pairs);
  }

  lemma PerSessionRevenueValue(pairs: seq<RevenueRow>, c: Conversion)
    requires c in PerSessionRevenue(pairs)
    ensures c.value == Sum(Map(RevenuesOfSession(pairs, c.sessionId), RevenueAmount))
  {
    var ss := Dedup(RowSessions(pairs));
    var j :| 0 <= j < |ss| && PerSessionRevenue(pairs)[j] == c;
    assert c == SessionRevenue(pairs, ss[j]);
  }

  /** The touch the model credits for a session: the session and the touch's time. */
  datatype Touch = Touch(sessionId: string, createdAt: int)

  /** `model === 'first-click'`; every other model string is last-touch. */
  predicate FirstClick(p: AttributionParams) {
    p.model == "first-click"
  }

  /** An in-range event of the converting session that the model may pick. */
  predicate Candidate(e: Event, c: Conversion, websiteId: string, p: AttributionParams) {
    e.sessionId == c.sessionId && InWindow(e, websiteId, p.startDate, p.endDate) &&
    (FirstClick(p) || e.createdAt < c.maxDt)
  }

  function Candidates(events: seq<Event>, c: Conversion, websiteId: string, p: AttributionParams): seq<Event> {
    Filter(events, e => Candidate(e, c, websiteId, p))
  }

  /**
   * The `model` CTE: first-click takes the session's earliest in-range event,
   * any other model the latest one strictly before the conversion time. A
   * session without a candidate has no group and so no row.
   */
  function ModelTouches(events: seq<Event>, cs: seq<Conversion>, websiteId: string, p: AttributionParams): seq<Touch> {
    if cs == [] then []
    else
      var cands := Candidates(events, cs[0], websiteId, p);
      (if cands == [] then [] else [Touch(cs[0].sessionId, ChosenTime(cands, p))]) + ModelTouches(events, cs[1..], websiteId, p)
  }

  /** The earliest candidate time for first-click, the latest otherwise. */
  function ChosenTime(cands: seq<Event>, p: AttributionParams): int {
    if FirstClick(p) then MinOf(TimesOf(cands)) else MaxOf(TimesOf(cands))
  }

  /** `t` is the touch of conversion `c`: the time of one of its candidates, the earliest (first-click) or the latest. */
  predicate ChosenFor(events: seq<Event>, c: Conversion, websiteId: string, p: AttributionParams, t: Touch) {
    c.sessionId == t.sessionId &&
    (exists e :: e in Candidates(events, c, websiteId, p) && e.createdAt == t.createdAt) &&
    (FirstClick(p) ==> forall e :: e in Candidates(events, c, websiteId, p) ==> t.createdAt <= e.createdAt) &&
    (!FirstClick(p) ==> forall e :: e in Candidates(events, c, websiteId, p) ==> e.createdAt <= t.createdAt)
  }

  lemma ChosenTimeExtreme(cands: seq<Event>, p: AttributionParams)
    requires cands != []
    ensures exists e :: e in cands && e.createdAt == ChosenTime(cands, p)
    ensures FirstClick(p) ==> forall e :: e in cands ==> ChosenTime(cands, p) <= e.createdAt
    ensures !FirstClick(p) ==> forall e :: e in cands ==> e.createdAt <= ChosenTime(cands, p)
  {
    var ts := TimesOf(cands);
    var k :| 0 <= k < |ts| && ts[k] == ChosenTime(cands, p);
    assert cands[k] in cands;
    forall e | e in cands
      ensures FirstClick(p) ==> ChosenTime(cands, p) <= e.createdAt
      ensures !FirstClick(p) ==> e.createdAt <= ChosenTime(cands, p)
    {
      var j :| 0 <= j < |cands| && cands[j] == e;
      assert ts[j] in ts;
    }
  }

  /** Every touch belongs to a conversion and is an extreme candidate of it. */
  lemma {:induction false} ModelTouchesChosen(events: seq<Event>, cs: seq<Conversion>, websiteId: string, p: AttributionParams, t: Touch)
    requires t in ModelTouches(events, cs, websiteId, p)
    ensures exists c :: c in cs && ChosenFor(events, c, websiteId, p, t)
  {
    var c := cs[0];
    var cands := Candidates(events, c, websiteId, p);
    if cands != [] && t == Touch(c.sessionId, ChosenTime(cands, p)) {
      ChosenTimeExtreme(cands, p);
      assert ChosenFor(events, c, websiteId, p, t);
    } else {
      ModelTouchesChosen(events, cs[1..], websiteId, p, t);
    }
  }

  /**
   * First-click: the chosen time is no later than any in-range event of the
   * session. Last-touch: it is strictly before the session's conversion time.
   */
  lemma TouchTimes(events: seq<Event>, cs: seq<Conversion>, websiteId: string, p: AttributionParams, t: Touch)
    requires t in ModelTouches(events, cs, websiteId, p)
    ensures FirstClick(p) ==> forall e :: e in events && e.sessionId == t.sessionId && InWindow(e, websiteId, p.startDate, p.endDate) ==> t.createdAt <= e.createdAt
    ensures !FirstClick(p) ==> exists c :: c in cs && c.sessionId == t.sessionId && t.createdAt < c.maxDt
  {
    ModelTouchesChosen(events, cs, websiteId, p, t);
    var c :| c in cs && ChosenFor(events, c, websiteId, p, t);
    if FirstClick(p) {
      forall e | e in events && e.sessionId == t.sessionId && InWindow(e, websiteId, p.startDate, p.endDate)
        ensures t.createdAt <= e.createdAt
      {
        assert Candidate(e, c, websiteId, p);
        assert e in Candidates(events, c, websiteId, p);
      }
    }
  }

  /** A conversion without any candidate event yields no touch. */
  lemma {:induction false} NoCandidateNoTouch(events: seq<Event>, cs: seq<Conversion>, websiteId: string, p: AttributionParams, s: string)
    requires forall c :: c in cs && c.sessionId == s ==> Candidates(events, c, websiteId, p) == []
    ensures forall t :: t in ModelTouches(events, cs, websiteId, p) ==> t.sessionId != s
  {
    if cs != [] {
      NoCandidateNoTouch(events, cs[1..], websiteId, p, s);
    }
  }

  /**
   * Every conversion with a candidate gets the touch at its chosen time; when
   * the conversions name distinct sessions, that is the only touch of its
   * session.
   */
  lemma {:induction false} ModelTouchesCover(events: seq<Event>, cs: seq<Conversion>, websiteId: string, p: AttributionParams, c: Conversion)
    requires c in cs && Candidates(events, c, websiteId, p) != []
    ensures Touch(c.sessionId, ChosenTime(Candidates(events, c, websiteId, p), p)) in ModelTouches(events, cs, websiteId, p)
    ensures NoDups(Map(cs, ConversionSession)) ==> forall t :: t in ModelTouches(events, cs, websiteId, p) && t.sessionId == c.sessionId ==>
      t == Touch(c.sessionId, ChosenTime(Candidates(events, c, websiteId, p), p))
  {
    var want := Touch(c.sessionId, ChosenTime(Candidates(events, c, websiteId, p), p));
    var cands := Candidates(events, cs[0], websiteId, p);
    var head := if cands == [] then [] else [Touch(cs[0].sessionId, ChosenTime(cands, p))];
    var rest := ModelTouches(events, cs[1..], websiteId, p);
    assert ModelTouches(events, cs, websiteId, p) == head + rest;
    if NoDups(Map(cs, ConversionSession)) {
      assert NoDups(Map(cs[1..], ConversionSession)) by {
        forall i, j | 0 <= i < j < |cs[1..]| ensures Map(cs[1..], ConversionSession)[i] != Map(cs[1..], ConversionSession)[j] {
          assert Map(cs, ConversionSession)[i + 1] != Map(cs, ConversionSession)[j + 1];
        }
      }
    }
    if c == cs[0] {
      if NoDups(Map(cs, ConversionSession)) {
        forall x | x in cs[1..] ensures x.sessionId != c.sessionId {
          var k :| 0 <= k < |cs[1..]| && cs[1..][k] == x;
          assert Map(cs, ConversionSession)[0] != Map(cs, ConversionSession)[k + 1];
        }
        NoCandidateNoTouch(events, cs[1..], websiteId, p, c.sessionId);
      }
    } else {
      ModelTouchesCover(events, cs[1..], websiteId, p, c);
      if NoDups(Map(cs, ConversionSession)) {
        var k :| 1 <= k < |cs| && cs[k] == c;
        assert Map(cs, ConversionSession)[0] != Map(cs, ConversionSession)[k];
      }
    }
  }

  /** The breakdown dimensions. */
  datatype Dimension = Referrer | PaidAds | Utm(column: string)

  const UtmColumns: seq<string> := ["utm_source", "utm_medium", "utm_campaign", "utm_content", "utm_term"]

  /** The paid-ad CASE: the first non-empty click id names the platform; none gives ''. */
  function PaidAdName(e: Event): string {
    if OrEmpty(e.gclid) != "" then "Google Ads"
    else if OrEmpty(e.fbclid) != "" then "Facebook / Meta"
    else if OrEmpty(e.msclkid) != "" then "Microsoft Ads"
    else if OrEmpty(e.ttclid) != "" then "TikTok Ads"
    else if OrEmpty(e.liFatId) != "" then "LinkedIn Ads"
    else if OrEmpty(e.twclid) != "" then "Twitter Ads (X)"
    else ""
  }

  /** The click ids in priority order, and the platform each stands for. */
  function ClickIds(e: Event): seq<Option<string>> {
    [e.gclid, e.fbclid, e.msclkid, e.ttclid, e.liFatId, e.twclid]
  }

  const Platforms: seq<string> := ["Google Ads", "Facebook / Meta", "Microsoft Ads", "TikTok Ads", "LinkedIn Ads", "Twitter Ads (X)"]

  /** The paid-ad name is the platform of the first non-empty click id, or '' when all are empty. */
  lemma PaidAdNamePriority(e: Event)
    ensures forall k :: 0 <= k < 6 ==>
      (PaidAdName(e) == Platforms[k] <==> OrEmpty(ClickIds(e)[k]) != "" && forall j :: 0 <= j < k ==> OrEmpty(ClickIds(e)[j]) == "")
    ensures PaidAdName(e) == "" <==> forall k :: 0 <= k < 6 ==> OrEmpty(ClickIds(e)[k]) == ""
  {
    var ids := ClickIds(e);
    if OrEmpty(ids[0]) == "" && OrEmpty(ids[1]) == "" && OrEmpty(ids[2]) == "" && OrEmpty(ids[3]) == "" && OrEmpty(ids[4]) == "" && OrEmpty(ids[5]) == "" {
      assert forall k :: 0 <= k < 6 ==> OrEmpty(ids[k]) == "";
    }
  }

  /** The group name a touched event gets in a dimension. */
  function NameOf(d: Dimension, e: Event): string {
    match d
    case Referrer => OrEmpty(e.referrerDomain)
    case PaidAds => PaidAdName(e)
    case Utm(c) => OrEmpty(Column(e, c))
  }

  /**
   * The WHERE exclusions of a breakdown without currency: self-referrals and
   * empty referrers, empty UTM values. With currency nothing is excluded.
   */
  predicate KeptBeforeGrouping(d: Dimension, e: Event, currency: bool) {
    currency ||
    match d
    case Referrer => NotSelfOrEmptyReferrer(e)
    case PaidAds => true
    case Utm(c) => DiffersFromText(Column(e, c), "")
  }

  /** One grouped input row: group name, session, and the session's revenue (currency mode). */
  datatype Attributed = Attributed(name: string, sessionId: string, value: int)

  /** The revenue of a session in the conversion set (the join `events e on e.session_id = m.session_id`). */
  function ConversionValue(cs: seq<Conversion>, s: string): int {
    if cs == [] then 0 else if cs[0].sessionId == s then cs[0].value else ConversionValue(cs[1..], s)
  }

  /** Touched events: `model m join website_event we` on time and session, in the website and range. */
  predicate Touched(e: Event, t: Touch, websiteId: string, p: AttributionParams) {
    e.createdAt == t.createdAt && e.sessionId == t.sessionId && InWindow(e, websiteId, p.startDate, p.endDate)
  }

  /** The events a touch lands on that the breakdown's WHERE keeps. */
  function TouchHits(d: Dimension, events: seq<Event>, t: Touch, websiteId: string, p: AttributionParams): seq<Event> {
    Filter(events, e => Touched(e, t, websiteId, p) && KeptBeforeGrouping(d, e, CurrencyMode(p)))
  }

  /** The rows a breakdown groups. */
  function AttributedRows(d: Dimension, events: seq<Event>, touches: seq<Touch>, cs: seq<Conversion>, websiteId: string, p: AttributionParams): seq<Attributed> {
    if touches == [] then []
    else
      var t := touches[0];
      var hit := TouchHits(d, events, t, websiteId, p);
      Map(hit, e => Attributed(NameOf(d, e), e.sessionId, ConversionValue(cs, e.sessionId))) +
      AttributedRows(d, events, touches[1..], cs, websiteId, p)
  }

  /** Every grouped row comes from a kept, touched event of a touch. */
  lemma {:induction false} AttributedRowsFrom(d: Dimension, events: seq<Event>, touches: seq<Touch>, cs: seq<Conversion>, websiteId: string, p: AttributionParams, a: Attributed)
    requires a in AttributedRows(d, events, touches, cs, websiteId, p)
    ensures exists t, e :: (t in touches && e in events && Touched(e, t, websiteId, p) &&
      KeptBeforeGrouping(d, e, CurrencyMode(p)) && a.name == NameOf(d, e) && a.sessionId == e.sessionId)
  {
    var t := touches[0];
    var hit := TouchHits(d, events, t, websiteId, p);
    var head := Map(hit, e => Attributed(NameOf(d, e), e.sessionId, ConversionValue(cs, e.sessionId)));
    if a in head {
      var k :| 0 <= k < |head| && head[k] == a;
      assert hit[k] in hit;
    } else {
      AttributedRowsFrom(d, events, touches[1..], cs, websiteId, p, a);
    }
  }

  /**
   * Every event a touch lands on that the breakdown's WHERE keeps is grouped:
   * its row, named by the event and valued at its session's conversion, is
   * among the grouped rows.
   */
  lemma {:induction false} AttributedRowsCover(d: Dimension, events: seq<Event>, touches: seq<Touch>, cs: seq<Conversion>, websiteId: string, p: AttributionParams, t: Touch, e: Event)
    requires t in touches && e in events && Touched(e, t, websiteId, p) && KeptBeforeGrouping(d, e, CurrencyMode(p))
    ensures Attributed(NameOf(d, e), e.sessionId, ConversionValue(cs, e.sessionId)) in AttributedRows(d, events, touches, cs, websiteId, p)
  {
    var t0 := touches[0];
    var hit := TouchHits(d, events, t0, websiteId, p);
    var head := Map(hit, (x: Event) => Attributed(NameOf(d, x), x.sessionId, ConversionValue(cs, x.sessionId)));
    assert AttributedRows(d, events, touches, cs, websiteId, p) == head + AttributedRows(d, events, touches[1..], cs, websiteId, p);
    if t0 == t {
      assert e in hit;
      var k :| 0 <= k < |hit| && hit[k] == e;
      assert head[k] == Attributed(NameOf(d, e), e.sessionId, ConversionValue(cs, e.sessionId));
    } else {
      AttributedRowsCover(d, events, touches[1..], cs, websiteId, p, t, e);
    }
  }

  /** With one conversion per session, a session's looked-up value is its conversion's value. */
  lemma {:induction false} ConversionValueOf(cs: seq<Conversion>, c: Conversion)
    requires c in cs && NoDups(Map(cs, ConversionSession))
    ensures ConversionValue(cs, c.sessionId) == c.value
  {
    if cs[0] != c {
      var k :| 1 <= k < |cs| && cs[k] == c;
      assert Map(cs, ConversionSession)[0] != Map(cs, ConversionSession)[k];
      assert NoDups(Map(cs[1..], ConversionSession)) by {
        forall i, j | 0 <= i < j < |cs[1..]| ensures Map(cs[1..], ConversionSession)[i] != Map(cs[1..], ConversionSession)[j] {
          assert Map(cs, ConversionSession)[i + 1] != Map(cs, ConversionSession)[j + 1];
        }
      }
      assert cs[1..][k - 1] == c;
      ConversionValueOf(cs[1..], c);
    }
  }

  datatype NameValue = NameValue(name: string, value: int)

  /** The value of group `n`: distinct sessions, or summed session revenue with currency. */
  function GroupValue(rows: seq<Attributed>, n: string, currency: bool): int {
    var mine := Named(rows, n);
    if currency then Sum(Map(mine, AttributedValue)) else |Dedup(Map(mine, AttributedSession))|
  }

  function AttributedName(a: Attributed): string {
    a.name
  }

  function AttributedSession(a: Attributed): string {
    a.sessionId
  }

  function AttributedValue(a: Attributed): int {
    a.value
  }

  function GroupName(g: NameValue): string {
    g.name
  }

  predicate HasName(g: NameValue) {
    g.name != ""
  }

  function Named(rows: seq<Attributed>, n: string): seq<Attributed> {
    Filter(rows, (a: Attributed) => a.name == n)
  }

  function Names(rows: seq<Attributed>): seq<string> {
    Map(rows, AttributedName)
  }

  function GroupOf(rows: seq<Attributed>, n: string, currency: bool): NameValue {
    NameValue(n, GroupValue(rows, n, currency))
  }

  /** GROUP BY name, one row per distinct name. */
  function Groups(rows: seq<Attributed>, currency: bool): seq<NameValue> {
    Map(Dedup(Names(rows)), n => GroupOf(rows, n, currency))
  }

  function ByValue(g: NameValue): (int, int) {
    (g.value, 0)
  }

  /** `order by 2 desc limit 20`. */
  function Top20(groups: seq<NameValue>): seq<NameValue> {
    Top(groups, ByValue, 20)
  }

  /** A breakdown: the top 20 groups; for paid ads without currency, '' is removed after the limit. */
  function Breakdown(d: Dimension, rows: seq<Attributed>, currency: bool): seq<NameValue> {
    var top := Top20(Groups(rows, currency));
    if d == PaidAds && !currency then Filter(top, HasName) else top
  }

  /** One group per distinct name of the rows, carrying that name's value. */
  lemma GroupsMeaning(rows: seq<Attributed>, currency: bool)
    ensures forall g :: g in Groups(rows, currency) ==>
      g.name in Names(rows) && g.value == GroupValue(rows, g.name, currency)
    ensures forall a :: a in rows ==> GroupOf(rows, a.name, currency) in Groups(rows, currency)
    ensures NoDups(Map(Groups(rows, currency), GroupName))
  {
    var ds := Dedup(Names(rows));
    var gs := Groups(rows, currency);
    forall g | g in gs ensures g.name in Names(rows) && g.value == GroupValue(rows, g.name, currency) {
      var j :| 0 <= j < |ds| && gs[j] == g;
      assert g == GroupOf(rows, ds[j], currency);
      assert ds[j] in ds;
    }
    forall a | a in rows
      ensures GroupOf(rows, a.name, currency) in gs
    {
      var k :| 0 <= k < |rows| && rows[k] == a;
      assert Names(rows)[k] == a.name;
      assert a.name in ds;
      var j :| 0 <= j < |ds| && ds[j] == a.name;
      assert gs[j] == GroupOf(rows, a.name, currency);
    }
    assert Map(gs, GroupName) == ds;
  }

  /**
   * The 20 highest groups, or all of them when there are fewer, by value
   * descending; no group left out ranks above a kept one, and groups with
   * distinct names keep them distinct.
   */
  lemma Top20Shape(groups: seq<NameValue>)
    ensures |Top20(groups)| == if |groups| < 20 then |groups| else 20
    ensures SortedDesc(Top20(groups), ByValue)
    ensures forall g :: g in Top20(groups) ==> g in groups
    ensures forall g, k :: g in groups && g !in Top20(groups) && 0 <= k < |Top20(groups)| ==> g.value <= Top20(groups)[k].value
    ensures NoDups(Map(groups, GroupName)) ==> NoDups(Map(Top20(groups), GroupName))
  {
    var t := Top20(groups);
    TopKeepsLargest(groups, ByValue, 20);
    if NoDups(Map(groups, GroupName)) {
      TopKeepsDistinct(groups, ByValue, GroupName, 20);
    }
    assert multiset(t) <= multiset(groups);
    forall g | g in t ensures g in groups {
      assert g in multiset(t);
    }
    forall g, k | g in groups && g !in t && 0 <= k < |t| ensures g.value <= t[k].value {
      assert KeyGe(ByValue(t[k]), ByValue(g));
    }
  }

  /**
   * A breakdown is the top 20 of its groups, one per name: all 20 (or every
   * group, when there are fewer) except for paid ads without currency, where
   * exactly the kept groups with a name remain, which loses at most one row.
   */
  lemma BreakdownShape(d: Dimension, rows: seq<Attributed>, currency: bool)
    ensures |Breakdown(d, rows, currency)| <= 20
    ensures !(d == PaidAds && !currency) ==>
      |Breakdown(d, rows, currency)| == if |Dedup(Names(rows))| < 20 then |Dedup(Names(rows))| else 20
    ensures d == PaidAds && !currency ==>
      (forall g :: g in Breakdown(d, rows, currency) <==> g in Top20(Groups(rows, currency)) && g.name != "") &&
      |Breakdown(d, rows, currency)| + 1 >= |Top20(Groups(rows, currency))|
    ensures NoDups(Map(Breakdown(d, rows, currency), GroupName))
    ensures SortedDesc(Breakdown(d, rows, currency), ByValue)
    ensures forall g :: g in Breakdown(d, rows, currency) ==> g in Groups(rows, currency)
    ensures forall g, k :: g in Groups(rows, currency) && g !in Top20(Groups(rows, currency)) && 0 <= k < |Breakdown(d, rows, currency)| ==>
      g.value <= Breakdown(d, rows, currency)[k].value
  {
    var groups := Groups(rows, currency);
    GroupsMeaning(rows, currency);
    Top20Shape(groups);
    var top := Top20(groups);
    if d == PaidAds && !currency {
      var b := Filter(top, HasName);
      FilterKeepsSorted(top, HasName);
      FilterDropsOneName(top);
      FilterKeepsDistinct(top, GroupName, HasName);
      forall k | 0 <= k < |b| ensures b[k] in top {
        assert b[k] in b;
      }
    }
  }

  /** Without currency, the paid-ad breakdown never holds the '' group. */
  lemma PaidAdsNoEmpty(rows: seq<Attributed>)
    ensures forall g :: g in Breakdown(PaidAds, rows, false) ==> g.name != ""
  {
  }

  /** Among groups with distinct names at most one is named '', so dropping it loses at most one row. */
  lemma {:induction false} FilterDropsOneName(s: seq<NameValue>)
    requires NoDups(Map(s, GroupName))
    ensures |Filter(s, HasName)| + 1 >= |s|
    ensures (forall i :: 0 <= i < |s| ==> s[i].name != "") ==> Filter(s, HasName) == s
  {
    if forall i :: 0 <= i < |s| ==> s[i].name != "" {
      FilterAllNamed(s);
    }
    if s != [] {
      var rest := s[1..];
      assert NoDups(Map(rest, GroupName)) by {
        forall i, j | 0 <= i < j < |rest| ensures Map(rest, GroupName)[i] != Map(rest, GroupName)[j] {
          assert Map(s, GroupName)[i + 1] != Map(s, GroupName)[j + 1];
        }
      }
      FilterDropsOneName(rest);
      assert Filter(s, HasName) == (if HasName(s[0]) then [s[0]] else []) + Filter(rest, HasName);
      if s[0].name == "" {
        forall i | 0 <= i < |rest| ensures rest[i].name != "" {
          assert Map(s, GroupName)[0] != Map(s, GroupName)[i + 1];
        }
        FilterAllNamed(rest);
      }
    }
  }

  /** Groups that all have a name pass the '' filter unchanged. */
  lemma {:induction false} FilterAllNamed(s: seq<NameValue>)
    requires forall i :: 0 <= i < |s| ==> s[i].name != ""
    ensures Filter(s, HasName) == s
  {
    if s != [] {
      var rest := s[1..];
      assert forall i :: 0 <= i < |rest| ==> rest[i].name == s[i + 1].name;
      FilterAllNamed(rest);
      assert s == [s[0]] + rest;
    }
  }

  /** A WHERE over rows with distinct keys keeps them distinct. */
  lemma {:induction false} FilterKeepsDistinct<K>(s: seq<NameValue>, f: NameValue -> K, p: NameValue -> bool)
    requires NoDups(Map(s, f))
    ensures NoDups(Map(Filter(s, p), f))
  {
    if s != [] {
      var rest := s[1..];
      assert NoDups(Map(rest, f)) by {
        forall i, j | 0 <= i < j < |rest| ensures Map(rest, f)[i] != Map(rest, f)[j] {
          assert Map(s, f)[i + 1] != Map(s, f)[j + 1];
        }
      }
      FilterKeepsDistinct(rest, f, p);
      var fr := Filter(rest, p);
      var r := Filter(s, p);
      assert r == (if p(s[0]) then [s[0]] else []) + fr;
      if p(s[0]) {
        forall j | 0 <= j < |fr| ensures f(s[0]) != f(fr[j]) {
          assert fr[j] in fr;
          var k :| 0 <= k < |rest| && rest[k] == fr[j];
          assert Map(s, f)[0] != Map(s, f)[k + 1];
        }
        forall i, j | 0 <= i < j < |r| ensures Map(r, f)[i] != Map(r, f)[j] {
          if i == 0 {
            assert r[j] == fr[j - 1];
          } else {
            assert r[i] == fr[i - 1] && r[j] == fr[j - 1];
            assert Map(fr, f)[i - 1] != Map(fr, f)[j - 1];
          }
        }
      } else {
        assert r == fr;
      }
    }
  }

  lemma {:induction false} FilterKeepsSorted(s: seq<NameValue>, p: NameValue -> bool)
    requires SortedDesc(s, ByValue)
    ensures SortedDesc(Filter(s, p), ByValue)
  {
    if s != [] {
      FilterKeepsSorted(s[1..], p);
      forall x | x in Filter(s[1..], p) ensures KeyGe(ByValue(s[0]), ByValue(x)) {
        var j :| 0 <= j < |s[1..]| && s[1..][j] == x;
        assert s[j + 1] == x;
      }
    }
  }

  /**
   * Every breakdown row is the group of some touched event that survived the
   * exclusions, and carries its group's value. Without currency no row is
   * named '' (empty referrers, empty UTM values and unnamed paid-ad rows are
   * excluded) and every value is a positive count of distinct sessions.
   */
  lemma BreakdownRows(d: Dimension, rows: seq<Attributed>, events: seq<Event>, touches: seq<Touch>, cs: seq<Conversion>, websiteId: string, p: AttributionParams)
    requires rows == AttributedRows(d, events, touches, cs, websiteId, p)
    ensures forall g :: g in Breakdown(d, rows, CurrencyMode(p)) ==> g.value == GroupValue(rows, g.name, CurrencyMode(p))
    ensures forall g :: g in Breakdown(d, rows, CurrencyMode(p)) ==>
      exists t, e :: (t in touches && e in events && Touched(e, t, websiteId, p) &&
        KeptBeforeGrouping(d, e, CurrencyMode(p)) && g.name == NameOf(d, e))
    ensures !CurrencyMode(p) ==> forall g :: g in Breakdown(d, rows, CurrencyMode(p)) ==> g.name != "" && g.value >= 1
  {
    var currency := CurrencyMode(p);
    var b := Breakdown(d, rows, currency);
    BreakdownShape(d, rows, currency);
    GroupsMeaning(rows, currency);
    if d == PaidAds && !currency {
      PaidAdsNoEmpty(rows);
    }
    forall g | g in b
      ensures exists t, e :: (t in touches && e in events && Touched(e, t, websiteId, p) &&
        KeptBeforeGrouping(d, e, currency) && g.name == NameOf(d, e))
      ensures !currency ==> g.name != "" && g.value >= 1
    {
      assert g in Groups(rows, currency);
      GroupFrom(d, rows, events, touches, cs, websiteId, p, g);
    }
  }

  /** One group of the attributed rows: some kept, touched event carries its name; a count is positive and, outside paid ads, named. */
  lemma GroupFrom(d: Dimension, rows: seq<Attributed>, events: seq<Event>, touches: seq<Touch>, cs: seq<Conversion>, websiteId: string, p: AttributionParams, g: NameValue)
    requires rows == AttributedRows(d, events, touches, cs, websiteId, p)
    requires g.name in Names(rows) && g.value == GroupValue(rows, g.name, CurrencyMode(p))
    ensures exists t, e :: (t in touches && e in events && Touched(e, t, websiteId, p) &&
      KeptBeforeGrouping(d, e, CurrencyMode(p)) && g.name == NameOf(d, e))
    ensures !CurrencyMode(p) ==> g.value >= 1
    ensures !CurrencyMode(p) && d != PaidAds ==> g.name != ""
  {
    var names := Names(rows);
    var k :| 0 <= k < |names| && names[k] == g.name;
    assert rows[k] in rows;
    AttributedRowsFrom(d, events, touches, cs, websiteId, p, rows[k]);
    if !CurrencyMode(p) {
      var mine := Named(rows, g.name);
      assert rows[k] in mine;
      assert rows[k].sessionId in Map(mine, AttributedSession);
    }
  }

  datatype Total = Total(pageviews: nat, visitors: nat, visits: nat)

  /** The totals query: rows, distinct sessions and distinct visits of the step's events; no model involved. */
  function GetTotal(events: seq<Event>, websiteId: string, p: AttributionParams, filter: Event -> bool): Total {
    var se := StepEvents(events, websiteId, p, filter);
    Total(|se|, |Dedup(SessionsOf(se))|, |Dedup(Map(se, (e: Event) => e.visitId))|)
  }

  /** The totals count rows, sessions and visits of the step's events; the attribution model plays no part. */
  lemma TotalMeaning(events: seq<Event>, websiteId: string, p: AttributionParams, filter: Event -> bool, model: string)
    ensures GetTotal(events, websiteId, p, filter) == GetTotal(events, websiteId, p.(model := model), filter)
    ensures GetTotal(events, websiteId, p, filter).pageviews == |StepEvents(events, websiteId, p, filter)|
    ensures GetTotal(events, websiteId, p, filter).visitors <= GetTotal(events, websiteId, p, filter).pageviews
    ensures GetTotal(events, websiteId, p, filter).visits <= GetTotal(events, websiteId, p, filter).pageviews
  {
    var q := p.(model := model);
    FilterSame(events, (e: Event) => StepEvent(e, websiteId, p, filter), (e: Event) => StepEvent(e, websiteId, q, filter));
    assert StepEvents(events, websiteId, p, filter) == StepEvents(events, websiteId, q, filter);
  }

  datatype AttributionResult = AttributionResult(
    referrer: seq<NameValue>, paidAds: seq<NameValue>,
    utmSource: seq<NameValue>, utmMedium: seq<NameValue>, utmCampaign: seq<NameValue>,
    utmContent: seq<NameValue>, utmTerm: seq<NameValue>,
    total: Total)

  function BreakdownOf(d: Dimension, events: seq<Event>, rs: seq<RevenueRow>, websiteId: string, p: AttributionParams, filter: Event -> bool): seq<NameValue> {
    var cs := Conversions(events, rs, websiteId, p, filter);
    var touches := ModelTouches(events, cs, websiteId, p);
    Breakdown(d, AttributedRows(d, events, touches, cs, websiteId, p), CurrencyMode(p))
  }

  /** getAttribution. */
  function GetAttribution(events: seq<Event>, rs: seq<RevenueRow>, websiteId: string, p: AttributionParams, filter: Event -> bool): AttributionResult {
    AttributionResult(
      BreakdownOf(Referrer, events, rs, websiteId, p, filter),
      BreakdownOf(PaidAds, events, rs, websiteId, p, filter),
      BreakdownOf(Utm("utm_source"), events, rs, websiteId, p, filter),
      BreakdownOf(Utm("utm_medium"), events, rs, websiteId, p, filter),
      BreakdownOf(Utm("utm_campaign"), events, rs, websiteId, p, filter),
      BreakdownOf(Utm("utm_content"), events, rs, websiteId, p, filter),
      BreakdownOf(Utm("utm_term"), events, rs, websiteId, p, filter),
      GetTotal(events, websiteId, p, filter))
  }

  /** Without currency the revenue table is never read. */
  lemma CountModeIgnoresRevenue(d: Dimension, events: seq<Event>, rs1: seq<RevenueRow>, rs2: seq<RevenueRow>, websiteId: string, p: AttributionParams, filter: Event -> bool)
    requires !CurrencyMode(p)
    ensures BreakdownOf(d, events, rs1, websiteId, p, filter) == BreakdownOf(d, events, rs2, websiteId, p, filter)
  {
  }

  /** The number a breakdown row shows: a distinct-session count, or revenue with currency. */
  function ValueOfGroup(g: NameValue): int {
    g.value
  }

  /** The distinct sessions of the rows. */
  function SessionSet(rows: seq<Attributed>): set<string> {
    set a | a in rows :: a.sessionId
  }

  /** The distinct sessions of the rows whose name is one of `names`. */
  function SessionsNamed(rows: seq<Attributed>, names: seq<string>): set<string> {
    set a | a in rows && a.name in names :: a.sessionId
  }

  /** Every session's rows carry one name, so a session is counted in one group only. */
  predicate OneNamePerSession(rows: seq<Attributed>) {
    forall a1, a2 :: a1 in rows && a2 in rows && a1.sessionId == a2.sessionId ==> a1.name == a2.name
  }

  /** The in-range events of one session at one time agree on the dimension's name. */
  predicate SameNameAtSameTime(d: Dimension, events: seq<Event>, websiteId: string, p: AttributionParams) {
    forall e1, e2 ::
      (e1 in events && e2 in events && e1.sessionId == e2.sessionId && e1.createdAt == e2.createdAt &&
       InWindow(e1, websiteId, p.startDate, p.endDate) && InWindow(e2, websiteId, p.startDate, p.endDate)) ==>
      NameOf(d, e1) == NameOf(d, e2)
  }

  /** Without currency, a group's value is the number of distinct sessions named by it. */
  lemma GroupCountIsSessions(rows: seq<Attributed>, n: string)
    ensures GroupValue(rows, n, false) == |SessionsNamed(rows, [n])|
  {
    var ss := Map(Named(rows, n), AttributedSession);
    DedupCard(ss);
    forall x | x in SessionsNamed(rows, [n]) ensures x in ss {
      var a :| a in rows && a.name in [n] && a.sessionId == x;
      assert a in Named(rows, n);
      var k :| 0 <= k < |Named(rows, n)| && Named(rows, n)[k] == a;
      assert ss[k] == x;
    }
    forall x | x in ss ensures x in SessionsNamed(rows, [n]) {
      var k :| 0 <= k < |ss| && ss[k] == x;
      var a := Named(rows, n)[k];
      assert a in Named(rows, n);
      assert a in rows && a.name in [n] && a.sessionId == x;
    }
    assert (set x | x in ss) == SessionsNamed(rows, [n]);
  }

  /**
   * Without currency, distinctly named groups over rows with one name per
   * session count disjoint session sets: their values add up to the sessions
   * named by any of them.
   */
  lemma {:induction false} DistinctCountsSum(rows: seq<Attributed>, b: seq<NameValue>)
    requires OneNamePerSession(rows)
    requires NoDups(Map(b, GroupName))
    requires forall g :: g in b ==> g.value == GroupValue(rows, g.name, false)
    ensures Sum(Map(b, ValueOfGroup)) == |SessionsNamed(rows, Map(b, GroupName))|
  {
    if b == [] {
      assert SessionsNamed(rows, Map(b, GroupName)) == {};
    } else {
      var g := b[0];
      var rest := b[1..];
      var names := Map(b, GroupName);
      assert Map(b, ValueOfGroup)[1..] == Map(rest, ValueOfGroup);
      assert names == [g.name] + Map(rest, GroupName);
      assert NoDups(Map(rest, GroupName)) by {
        forall i, j | 0 <= i < j < |rest| ensures Map(rest, GroupName)[i] != Map(rest, GroupName)[j] {
          assert names[i + 1] != names[j + 1];
        }
      }
      forall k | 0 <= k < |rest| ensures Map(rest, GroupName)[k] != g.name {
        assert names[0] != names[k + 1];
      }
      assert g.name !in Map(rest, GroupName);
      DistinctCountsSum(rows, rest);
      GroupCountIsSessions(rows, g.name);
      var mine := SessionsNamed(rows, [g.name]);
      var others := SessionsNamed(rows, Map(rest, GroupName));
      assert SessionsNamed(rows, names) == mine + others;
      forall x | x in mine ensures x !in others {
        var a0 :| a0 in rows && a0.name in [g.name] && a0.sessionId == x;
        forall a | a in rows && a.sessionId == x ensures a.name !in Map(rest, GroupName) {
          assert a.name == a0.name;
        }
      }
      assert mine * others == {};
    }
  }

  /** With one conversion per session, a session has at most one touch. */
  lemma TouchPerSession(events: seq<Event>, cs: seq<Conversion>, websiteId: string, p: AttributionParams, t1: Touch, t2: Touch)
    requires NoDups(Map(cs, ConversionSession))
    requires t1 in ModelTouches(events, cs, websiteId, p) && t2 in ModelTouches(events, cs, websiteId, p)
    requires t1.sessionId == t2.sessionId
    ensures t1 == t2
  {
    ModelTouchesChosen(events, cs, websiteId, p, t1);
    var c :| c in cs && ChosenFor(events, c, websiteId, p, t1);
    ModelTouchesCover(events, cs, websiteId, p, c);
  }

  /** With one conversion per session and one name per touch time, the grouped rows carry one name per session. */
  lemma RowsOneNamePerSession(d: Dimension, events: seq<Event>, cs: seq<Conversion>, websiteId: string, p: AttributionParams)
    requires NoDups(Map(cs, ConversionSession))
    requires SameNameAtSameTime(d, events, websiteId, p)
    ensures OneNamePerSession(AttributedRows(d, events, ModelTouches(events, cs, websiteId, p), cs, websiteId, p))
  {
    var touches := ModelTouches(events, cs, websiteId, p);
    var rows := AttributedRows(d, events, touches, cs, websiteId, p);
    forall a1, a2 | a1 in rows && a2 in rows && a1.sessionId == a2.sessionId ensures a1.name == a2.name {
      AttributedRowsFrom(d, events, touches, cs, websiteId, p, a1);
      var t1, e1 :| t1 in touches && e1 in events && Touched(e1, t1, websiteId, p) &&
        KeptBeforeGrouping(d, e1, CurrencyMode(p)) && a1.name == NameOf(d, e1) && a1.sessionId == e1.sessionId;
      AttributedRowsFrom(d, events, touches, cs, websiteId, p, a2);
      var t2, e2 :| t2 in touches && e2 in events && Touched(e2, t2, websiteId, p) &&
        KeptBeforeGrouping(d, e2, CurrencyMode(p)) && a2.name == NameOf(d, e2) && a2.sessionId == e2.sessionId;
      TouchPerSession(events, cs, websiteId, p, t1, t2);
    }
  }

  /** Every grouped row's session is a converting session. */
  lemma RowSessionsConvert(d: Dimension, events: seq<Event>, cs: seq<Conversion>, websiteId: string, p: AttributionParams, a: Attributed)
    requires a in AttributedRows(d, events, ModelTouches(events, cs, websiteId, p), cs, websiteId, p)
    ensures exists c :: c in cs && c.sessionId == a.sessionId
  {
    var touches := ModelTouches(events, cs, websiteId, p);
    AttributedRowsFrom(d, events, touches, cs, websiteId, p, a);
    var t, e :| t in touches && e in events && Touched(e, t, websiteId, p) &&
      KeptBeforeGrouping(d, e, CurrencyMode(p)) && a.name == NameOf(d, e) && a.sessionId == e.sessionId;
    ModelTouchesChosen(events, cs, websiteId, p, t);
  }

  /** Without currency and with one name per session, a breakdown counts each session of the rows once at most. */
  lemma BreakdownCountsWithinSessions(d: Dimension, rows: seq<Attributed>)
    requires OneNamePerSession(rows)
    ensures Sum(Map(Breakdown(d, rows, false), ValueOfGroup)) <= |SessionSet(rows)|
  {
    var b := Breakdown(d, rows, false);
    BreakdownShape(d, rows, false);
    GroupsMeaning(rows, false);
    forall g | g in b ensures g.value == GroupValue(rows, g.name, false) {
      assert g in Groups(rows, false);
    }
    DistinctCountsSum(rows, b);
    SubsetCard(SessionsNamed(rows, Map(b, GroupName)), SessionSet(rows));
  }

  /** Without currency, every grouped row's session has a step event. */
  lemma RowSessionsVisit(d: Dimension, events: seq<Event>, se: seq<Event>, websiteId: string, p: AttributionParams, a: Attributed)
    requires a in AttributedRows(d, events, ModelTouches(events, LatestPerSession(se), websiteId, p), LatestPerSession(se), websiteId, p)
    ensures a.sessionId in SessionsOf(se)
  {
    var cs := LatestPerSession(se);
    RowSessionsConvert(d, events, cs, websiteId, p, a);
    var c :| c in cs && c.sessionId == a.sessionId;
    LatestPerSessionWitness(se);
    var e :| e in se && e.sessionId == c.sessionId && e.createdAt == c.maxDt;
    var k :| 0 <= k < |se| && se[k] == e;
    assert SessionsOf(se)[k] == a.sessionId;
  }

  /**
   * Without currency, when the events a touch can land on agree on the
   * dimension's name, each converting visitor is counted in one group at most,
   * so a breakdown's counts add up to no more than the total visitors.
   */
  lemma BreakdownCountsWithinVisitors(d: Dimension, events: seq<Event>, rs: seq<RevenueRow>, websiteId: string, p: AttributionParams, filter: Event -> bool)
    requires !CurrencyMode(p)
    requires SameNameAtSameTime(d, events, websiteId, p)
    ensures Sum(Map(BreakdownOf(d, events, rs, websiteId, p, filter), ValueOfGroup)) <= GetTotal(events, websiteId, p, filter).visitors
  {
    var se := StepEvents(events, websiteId, p, filter);
    var cs := Conversions(events, rs, websiteId, p, filter);
    assert cs == LatestPerSession(se);
    LatestPerSessionDistinct(se);
    var rows := AttributedRows(d, events, ModelTouches(events, cs, websiteId, p), cs, websiteId, p);
    RowsOneNamePerSession(d, events, cs, websiteId, p);
    forall a | a in rows ensures a.sessionId in SessionsOf(se) {
      RowSessionsVisit(d, events, se, websiteId, p, a);
    }
    SubsetCard(SessionSet(rows), set x | x in SessionsOf(se));
    BreakdownCountsWithinSessions(d, rows);
    DedupCard(SessionsOf(se));
  }

  /** A page view or purchase of session "s" on website "w", with a referrer. */
  function SampleEvent(id: string, t: int, referrer: string, name: string): Event {
    Event(id, "w", "s", "v", t, CustomEventType, "/", None, Some(referrer), Some("site.example"), Some(name),
      None, None, None, None, None, None, None, None, None, None, None, map[])
  }

  function AnyEvent(e: Event): bool {
    true
  }

  /** One session "s": a purchase at time 10 and two events at time 5 with different referrers. */
  const SampleEvents: seq<Event> := [SampleEvent("p", 10, "x.example", "purchase"), SampleEvent("a", 5, "a.example", "view"), SampleEvent("b", 5, "b.example", "view")]

  /** Last-touch attribution of the `purchase` event, without currency. */
  const SampleParams: AttributionParams := AttributionParams(0, 100, "last-click", "event", "purchase", None)

  /** Only the purchase is a step event. */
  lemma SampleStepEvent(k: nat)
    requires k < 3
    ensures StepEvent(SampleEvents[k], "w", SampleParams, AnyEvent) <==> k == 0
  {
    var e := SampleEvents[k];
    assert TargetOf("event").column == "event_name";
    assert Column(e, "event_name") == e.eventName;
    assert k != 0 ==> e.eventName.value[0] != "purchase"[0];
  }

  lemma SampleSteps()
    ensures StepEvents(SampleEvents, "w", SampleParams, AnyEvent) == [SampleEvents[0]]
  {
    var events := SampleEvents;
    var p := SampleParams;
    SampleStepEvent(0);
    SampleStepEvent(1);
    SampleStepEvent(2);
    assert events[1..] == [events[1], events[2]] && events[1..][1..] == [events[2]] && [events[2]][1..] == [];
    assert StepEvents([events[2]], "w", p, AnyEvent) == [];
    assert StepEvents(events[1..], "w", p, AnyEvent) == [];
  }

  lemma SampleConversions()
    ensures Conversions(SampleEvents, [], "w", SampleParams, AnyEvent) == [Conversion("s", 10, 0)]
    ensures GetTotal(SampleEvents, "w", SampleParams, AnyEvent).visitors == 1
  {
    SampleSteps();
    var se := [SampleEvents[0]];
    assert SessionsOf(se) == ["s"];
    assert Dedup(SessionsOf(se)) == ["s"];
    assert TimesOf(EventsOfSession(se, "s")) == [10];
  }

  lemma SampleTouches()
    ensures ModelTouches(SampleEvents, [Conversion("s", 10, 0)], "w", SampleParams) == [Touch("s", 5)]
  {
    var events := SampleEvents;
    var p := SampleParams;
    var c := Conversion("s", 10, 0);
    assert !Candidate(events[0], c, "w", p) && Candidate(events[1], c, "w", p) && Candidate(events[2], c, "w", p);
    assert events[1..] == [events[1], events[2]] && events[1..][1..] == [events[2]] && [events[2]][1..] == [];
    assert Candidates([events[2]], c, "w", p) == [events[2]];
    assert Candidates(events[1..], c, "w", p) == [events[1], events[2]];
    assert Candidates(events, c, "w", p) == [events[1], events[2]];
    assert TimesOf([events[1], events[2]]) == [5, 5];
    assert [c][1..] == [];
  }

  /** The touch at time 5 lands on the two earlier events, and both keep their referrer. */
  lemma SampleKept(k: nat)
    requires k < 3
    ensures Touched(SampleEvents[k], Touch("s", 5), "w", SampleParams) && KeptBeforeGrouping(Referrer, SampleEvents[k], false) <==> k != 0
  {
    var e := SampleEvents[k];
    assert k != 0 ==> e.referrerDomain.value[0] != e.hostname.value[0] && e.referrerDomain.value != "";
  }

  lemma SampleHits()
    ensures TouchHits(Referrer, SampleEvents, Touch("s", 5), "w", SampleParams) == [SampleEvents[1], SampleEvents[2]]
  {
    var events := SampleEvents;
    var p := SampleParams;
    var t := Touch("s", 5);
    assert !CurrencyMode(p);
    SampleKept(0);
    SampleKept(1);
    SampleKept(2);
    assert events[1..] == [events[1], events[2]] && events[1..][1..] == [events[2]] && [events[2]][1..] == [];
    assert TouchHits(Referrer, [events[2]], t, "w", p) == [events[2]];
    assert TouchHits(Referrer, events[1..], t, "w", p) == [events[1], events[2]];
  }

  /** One touch groups one row per event it lands on, in event order. */
  lemma AttributedRowsOfTouch(d: Dimension, events: seq<Event>, t: Touch, cs: seq<Conversion>, websiteId: string, p: AttributionParams)
    ensures |AttributedRows(d, events, [t], cs, websiteId, p)| == |TouchHits(d, events, t, websiteId, p)|
    ensures forall i :: 0 <= i < |TouchHits(d, events, t, websiteId, p)| ==>
      var e := TouchHits(d, events, t, websiteId, p)[i];
      AttributedRows(d, events, [t], cs, websiteId, p)[i] == Attributed(NameOf(d, e), e.sessionId, ConversionValue(cs, e.sessionId))
  {
    assert [t][1..] == [];
    assert AttributedRows(d, events, [t][1..], cs, websiteId, p) == [];
  }

  lemma SampleRows()
    ensures AttributedRows(Referrer, SampleEvents, [Touch("s", 5)], [Conversion("s", 10, 0)], "w", SampleParams) ==
      [Attributed("a.example", "s", 0), Attributed("b.example", "s", 0)]
  {
    var cs := [Conversion("s", 10, 0)];
    SampleHits();
    AttributedRowsOfTouch(Referrer, SampleEvents, Touch("s", 5), cs, "w", SampleParams);
    assert ConversionValue(cs, "s") == 0;
  }

  lemma SampleGroups()
    ensures Groups([Attributed("a.example", "s", 0), Attributed("b.example", "s", 0)], false) ==
      [NameValue("a.example", 1), NameValue("b.example", 1)]
  {
    var rows := [Attributed("a.example", "s", 0), Attributed("b.example", "s", 0)];
    var ns := Names(rows);
    assert ns == ["a.example", "b.example"];
    assert ns[..1] == ["a.example"];
    assert Dedup(ns[..1]) == ["a.example"];
    assert Dedup(ns) == ["a.example", "b.example"];
    NamedOne(rows, 0);
    NamedOne(rows, 1);
  }

  lemma NamedOne(rows: seq<Attributed>, k: nat)
    requires rows == [Attributed("a.example", "s", 0), Attributed("b.example", "s", 0)] && k < 2
    ensures GroupValue(rows, rows[k].name, false) == 1
  {
    var n := rows[k].name;
    assert rows[0].name[0] != rows[1].name[0];
    assert rows[1..] == [rows[1]] && [rows[1]][1..] == [];
    assert Named([rows[1]], n) == if k == 1 then [rows[1]] else [];
    assert Named(rows, n) == [rows[k]];
    assert Map([rows[k]], AttributedSession) == ["s"];
  }

  /**
   * As written, the referrer breakdown counts a visitor once per referrer at
   * its touch time: the sample session has two groups of one visitor each
   * against a total of one visitor.
   */
  lemma SameTimeReferrersOvercount()
    ensures GetTotal(SampleEvents, "w", SampleParams, AnyEvent).visitors == 1
    ensures Sum(Map(BreakdownOf(Referrer, SampleEvents, [], "w", SampleParams, AnyEvent), ValueOfGroup)) == 2
  {
    SampleConversions();
    SampleTouches();
    SampleRows();
    SampleGroups();
    SampleSum();
  }

  lemma SampleSum()
    ensures Sum(Map(Top20([NameValue("a.example", 1), NameValue("b.example", 1)]), ValueOfGroup)) == 2
  {
    var groups := [NameValue("a.example", 1), NameValue("b.example", 1)];
    var b := Top20(groups);
    Top20Shape(groups);
    assert |b| == 2;
    assert b[0] in groups && b[1] in groups;
    assert Map(b, ValueOfGroup) == [1, 1];
    assert [1, 1][1..] == [1] && [1][1..] == [];
    assert Sum([1]) == 1;
    assert Sum([1, 1]) == 2;
  }
}
