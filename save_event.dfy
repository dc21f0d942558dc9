/**
 * saveEvent: write one `website_event` row with its text fields cut to the
 * column limits, then, when the event carries data, its `event_data` rows and,
 * for a positive revenue in a currency, one revenue row. The event's generated
 * id links all of them.
 */
module SaveEvent {
  import opened Wrappers
  import opened Text
  import opened DataFields
  import opened EventData

  /** URL_LENGTH, PAGE_TITLE_LENGTH and EVENT_NAME_LENGTH (their values are not part of this model). */
  datatype Limits = Limits(url: nat, pageTitle: nat, eventName: nat)

  /** The `eventData` object: its flattened keys and the `revenue` and `currency` it may hold. */
  datatype EventPayload = EventPayload(items: seq<FlatItem>, revenue: Option<real>, currency: Option<string>)

  /** The arguments relationalQuery reads (the session fields it is also given are unused). */
  datatype SaveEventArgs = SaveEventArgs(
    websiteId: string,
    sessionId: string,
    visitId: string,
    eventType: int,
    createdAt: Option<int>,
    pageTitle: Option<string>,
    hostname: Option<string>,
    urlPath: string,
    urlQuery: Option<string>,
    referrerPath: Option<string>,
    referrerQuery: Option<string>,
    referrerDomain: Option<string>,
    eventName: Option<string>,
    eventData: Option<EventPayload>,
    tag: Option<string>,
    utmSource: Option<string>,
    utmMedium: Option<string>,
    utmCampaign: Option<string>,
    utmContent: Option<string>,
    utmTerm: Option<string>,
    gclid: Option<string>,
    fbclid: Option<string>,
    msclkid: Option<string>,
    ttclid: Option<string>,
    lifatid: Option<string>,
    twclid: Option<string>)

  /** A stored `website_event` row. */
  datatype StoredEvent = StoredEvent(
    id: string,
    websiteId: string,
    sessionId: string,
    visitId: string,
    urlPath: string,
    urlQuery: Option<string>,
    utmSource: Option<string>,
    utmMedium: Option<string>,
    utmCampaign: Option<string>,
    utmContent: Option<string>,
    utmTerm: Option<string>,
    referrerPath: Option<string>,
    referrerQuery: Option<string>,
    referrerDomain: Option<string>,
    pageTitle: Option<string>,
    gclid: Option<string>,
    fbclid: Option<string>,
    msclkid: Option<string>,
    ttclid: Option<string>,
    lifatid: Option<string>,
    twclid: Option<string>,
    eventType: int,
    eventName: Option<string>,
    tag: Option<string>,
    hostname: Option<string>,
    createdAt: Option<int>)

  /** The arguments saveRevenue is called with (saveRevenue itself is not part of this model). */
  datatype RevenueRecord = RevenueRecord(
    websiteId: string,
    sessionId: string,
    eventId: string,
    eventName: Option<string>,
    currency: string,
    revenue: real,
    createdAt: Option<int>)

  /** `value?.substring(0, n)`: an absent value stays absent, a present one is cut to `n` code points. */
  function TruncateOpt(v: Option<string>, n: nat): (r: Option<string>)
    ensures r.Some? <==> v.Some?
    ensures r.Some? ==> |r.value| <= n && IsPrefix(r.value, v.value)
    ensures r.Some? && |v.value| <= n ==> r.value == v.value
    ensures r.Some? && |v.value| > n ==> |r.value| == n
  {
    match v
    case Some(s) => Some(Truncate(s, n))
    case None => None
  }

  /** `eventName ? eventName.substring(0, n) : null`: an absent or empty name is stored as NULL. */
  function StoredEventName(eventName: Option<string>, n: nat): (r: Option<string>)
    ensures r.None? <==> eventName.None? || eventName.value == ""
    ensures r.Some? ==> IsPrefix(r.value, eventName.value)
    ensures r.Some? ==> |r.value| == (if |eventName.value| <= n then |eventName.value| else n)
    ensures r.Some? && n > 0 ==> r.value != ""
  {
    if eventName.Some? && eventName.value != "" then TruncateOpt(eventName, n) else None
  }

  /** The `website_event` row written for `args` under the generated id `id`. */
  function EventRecord(args: SaveEventArgs, id: string, limits: Limits): (r: StoredEvent)
    ensures r.id == id && r.websiteId == args.websiteId && r.sessionId == args.sessionId && r.visitId == args.visitId
    ensures IsPrefix(r.urlPath, args.urlPath) &&
      |r.urlPath| == (if |args.urlPath| <= limits.url then |args.urlPath| else limits.url)
    ensures r.urlQuery == TruncateOpt(args.urlQuery, limits.url)
    ensures r.referrerPath == TruncateOpt(args.referrerPath, limits.url)
    ensures r.referrerQuery == TruncateOpt(args.referrerQuery, limits.url)
    ensures r.referrerDomain == TruncateOpt(args.referrerDomain, limits.url)
    ensures r.pageTitle == TruncateOpt(args.pageTitle, limits.pageTitle)
    ensures r.eventName == StoredEventName(args.eventName, limits.eventName)
    ensures r.utmSource == args.utmSource && r.utmMedium == args.utmMedium && r.utmCampaign == args.utmCampaign &&
      r.utmContent == args.utmContent && r.utmTerm == args.utmTerm
    ensures r.gclid == args.gclid && r.fbclid == args.fbclid && r.msclkid == args.msclkid &&
      r.ttclid == args.ttclid && r.lifatid == args.lifatid && r.twclid == args.twclid
    ensures r.tag == args.tag && r.hostname == args.hostname && r.eventType == args.eventType && r.createdAt == args.createdAt
  {
    StoredEvent(
      id, args.websiteId, args.sessionId, args.visitId,
      Truncate(args.urlPath, limits.url),
      TruncateOpt(args.urlQuery, limits.url),
      args.utmSource, args.utmMedium, args.utmCampaign, args.utmContent, args.utmTerm,
      TruncateOpt(args.referrerPath, limits.url),
      TruncateOpt(args.referrerQuery, limits.url),
      TruncateOpt(args.referrerDomain, limits.url),
      TruncateOpt(args.pageTitle, limits.pageTitle),
      args.gclid, args.fbclid, args.msclkid, args.ttclid, args.lifatid, args.twclid,
      args.eventType,
      StoredEventName(args.eventName, limits.eventName),
      args.tag, args.hostname, args.createdAt)
  }

  /** The saveEventData call made for an event that carries `payload`. */
  function DataArgs(args: SaveEventArgs, id: string, limits: Limits, payload: EventPayload): SaveEventDataArgs {
    SaveEventDataArgs(args.websiteId, id, Some(args.sessionId), Some(Truncate(args.urlPath, limits.url)),
      TruncateOpt(args.eventName, limits.eventName), payload.items, args.createdAt)
  }

  /** `revenue > 0 && currency`, evaluated only when eventData is present. */
  predicate WritesRevenue(args: SaveEventArgs) {
    args.eventData.Some? &&
    args.eventData.value.revenue.Some? && args.eventData.value.revenue.value > 0.0 &&
    args.eventData.value.currency.Some? && args.eventData.value.currency.value != ""
  }

  /** The saveRevenue call, when one is made. */
  function RevenueOf(args: SaveEventArgs, id: string, limits: Limits): RevenueRecord
    requires WritesRevenue(args)
  {
    RevenueRecord(args.websiteId, args.sessionId, id, TruncateOpt(args.eventName, limits.eventName),
      args.eventData.value.currency.value, args.eventData.value.revenue.value, args.createdAt)
  }

  /** The `event_data` rows saveEvent writes. */
  function DataRowsOf(args: SaveEventArgs, id: string, limits: Limits, h: Helpers): seq<EventDataRow> {
    if args.eventData.Some? then EventDataRows(DataArgs(args, id, limits, args.eventData.value), h) else []
  }

  /** The revenue rows saveEvent writes. */
  function RevenueRowsOf(args: SaveEventArgs, id: string, limits: Limits): seq<RevenueRecord> {
    if WritesRevenue(args) then [RevenueOf(args, id, limits)] else []
  }

  /** The three tables saveEvent writes to. */
  class EventStore {
    var events: seq<StoredEvent>
    var eventData: seq<EventDataRow>
    var revenues: seq<RevenueRecord>

    constructor()
      ensures events == [] && eventData == [] && revenues == []
    {
      events := [];
      eventData := [];
      revenues := [];
    }

    /** saveEventData: one createMany of all the rows. */
    method SaveEventData(args: SaveEventDataArgs, h: Helpers)
      modifies this
      ensures eventData == old(eventData) + EventDataRows(args, h)
      ensures events == old(events) && revenues == old(revenues)
    {
      var flattened := EventDataRows(args, h);
      eventData := eventData + flattened;
    }

    /** saveRevenue, as far as this model sees it: one row holding its arguments. */
    method SaveRevenue(r: RevenueRecord)
      modifies this
      ensures revenues == old(revenues) + [r]
      ensures events == old(events) && eventData == old(eventData)
    {
      revenues := revenues + [r];
    }

    /** saveEvent with `id` the generated websiteEventId. */
    method SaveEvent(args: SaveEventArgs, id: string, limits: Limits, h: Helpers)
      modifies this
      ensures events == old(events) + [EventRecord(args, id, limits)]
      ensures eventData == old(eventData) + DataRowsOf(args, id, limits, h)
      ensures revenues == old(revenues) + RevenueRowsOf(args, id, limits)
    {
      events := events + [EventRecord(args, id, limits)];
      if args.eventData.Some? {
        var payload := args.eventData.value;
        SaveEventData(DataArgs(args, id, limits, payload), h);
        if payload.revenue.Some? && payload.revenue.value > 0.0 && payload.currency.Some? && payload.currency.value != "" {
          SaveRevenue(RevenueOf(args, id, limits));
        }
      }
    }
  }

  /** Every child row carries the id of the event row it belongs to. */
  lemma ChildRowsLinked(args: SaveEventArgs, id: string, limits: Limits, h: Helpers)
    ensures EventRecord(args, id, limits).id == id
    ensures forall d :: d in DataRowsOf(args, id, limits, h) ==> d.websiteEventId == id
    ensures forall r :: r in RevenueRowsOf(args, id, limits) ==> r.eventId == id
  {
    if args.eventData.Some? {
      var rs := DataRowsOf(args, id, limits, h);
      forall d | d in rs ensures d.websiteEventId == id {
        var k :| 0 <= k < |rs| && rs[k] == d;
      }
    }
  }

  /**
   * Event data is written exactly when eventData is present, one row per key;
   * a revenue row exactly when, in addition, revenue > 0 and the currency is a
   * non-empty string.
   */
  lemma ChildWriteConditions(args: SaveEventArgs, id: string, limits: Limits, h: Helpers)
    ensures args.eventData.None? ==> DataRowsOf(args, id, limits, h) == [] && RevenueRowsOf(args, id, limits) == []
    ensures args.eventData.Some? ==> |DataRowsOf(args, id, limits, h)| == |args.eventData.value.items|
    ensures |RevenueRowsOf(args, id, limits)| == (if WritesRevenue(args) then 1 else 0)
    ensures WritesRevenue(args) ==> (RevenueRowsOf(args, id, limits)[0].revenue > 0.0 &&
      RevenueRowsOf(args, id, limits)[0].currency == args.eventData.value.currency.value)
  {
  }

  /**
   * An empty event name is stored as NULL on the event row, but the revenue row
   * receives it as the empty string, since only the event row tests it.
   */
  lemma EmptyEventName(args: SaveEventArgs, id: string, limits: Limits)
    requires args.eventName == Some("")
    requires WritesRevenue(args)
    ensures EventRecord(args, id, limits).eventName.None?
    ensures RevenueRowsOf(args, id, limits)[0].eventName == Some("")
  {
  }

  /** A value shorter than its limit is stored whole; a longer one keeps exactly the limit. */
  lemma TruncationLength(v: string, n: nat)
    ensures TruncateOpt(Some(v), n).value == v <==> |v| <= n
    ensures |v| > n ==> |TruncateOpt(Some(v), n).value| == n
  {
  }
}
