/**
 * The `website_event` row the read-side queries range over, the columns they
 * name, and the three-valued comparisons of SQL reduced to what WHERE and
 * CASE WHEN keep: a condition holds only when it is TRUE, so a comparison with
 * NULL never holds. Because "is TRUE" distributes over AND and OR, a whole
 * condition is the AND/OR of its atomic comparisons read this way.
 */
module Events {
  import opened Wrappers

  /** `website_event.event_type` of a custom event; the queries exclude it with `event_type != 2`. */
  const CustomEventType: int := 2
  /** `event_type` of a pageview. */
  const PageViewType: int := 1

  /**
   * One stored event. `urlPath` is always present; the other text columns may
   * be NULL (saveEvent's arguments make them optional). `other` holds every
   * further column by name, including those of the joined `session` row
   * (browser, os, country, region, city, language, ...); a name it lacks is NULL.
   */
  datatype Event = Event(
    id: string,
    websiteId: string,
    sessionId: string,
    visitId: string,
    createdAt: int,
    eventType: int,
    urlPath: string,
    urlQuery: Option<string>,
    referrerDomain: Option<string>,
    hostname: Option<string>,
    eventName: Option<string>,
    utmSource: Option<string>,
    utmMedium: Option<string>,
    utmCampaign: Option<string>,
    utmContent: Option<string>,
    utmTerm: Option<string>,
    gclid: Option<string>,
    fbclid: Option<string>,
    msclkid: Option<string>,
    ttclid: Option<string>,
    liFatId: Option<string>,
    twclid: Option<string>,
    other: map<string, string>)

  /** The value of the column named `c` in event `e`. */
  function Column(e: Event, c: string): Option<string> {
    if c == "url_path" then Some(e.urlPath)
    else if c == "url_query" then e.urlQuery
    else if c == "referrer_domain" then e.referrerDomain
    else if c == "hostname" then e.hostname
    else if c == "event_name" then e.eventName
    else if c == "utm_source" then e.utmSource
    else if c == "utm_medium" then e.utmMedium
    else if c == "utm_campaign" then e.utmCampaign
    else if c == "utm_content" then e.utmContent
    else if c == "utm_term" then e.utmTerm
    else if c == "gclid" then e.gclid
    else if c == "fbclid" then e.fbclid
    else if c == "msclkid" then e.msclkid
    else if c == "ttclid" then e.ttclid
    else if c == "li_fat_id" then e.liFatId
    else if c == "twclid" then e.twclid
    else if c in e.other then Some(e.other[c])
    else None
  }

  /** `col = 'v'` holds. */
  predicate EqualsText(col: Option<string>, v: string) {
    col == Some(v)
  }

  /** `col != 'v'` holds. */
  predicate DiffersFromText(col: Option<string>, v: string) {
    col.Some? && col.value != v
  }

  /** `a != b` holds for two columns. */
  predicate ColumnsDiffer(a: Option<string>, b: Option<string>) {
    a.Some? && b.Some? && a.value != b.value
  }

  /** `coalesce(col, '')`. */
  function OrEmpty(col: Option<string>): string {
    col.GetOr("")
  }

  /** `created_at between start and end`: both ends included. */
  predicate InRange(e: Event, startDate: int, endDate: int) {
    startDate <= e.createdAt <= endDate
  }

  /** The conditions every read query starts with: the website and the date range. */
  predicate InWindow(e: Event, websiteId: string, startDate: int, endDate: int) {
    e.websiteId == websiteId && InRange(e, startDate, endDate)
  }

  /**
   * The `excludeDomain` fragment added when a report groups by referrer_domain:
   * `referrer_domain != hostname and referrer_domain != ''`, which also drops
   * a NULL referrer.
   */
  predicate NotSelfOrEmptyReferrer(e: Event) {
    ColumnsDiffer(e.referrerDomain, e.hostname) && DiffersFromText(e.referrerDomain, "")
  }
}
