/**
 * The channel report: every non-custom event is grouped by (prefix, referrer
 * domain, query string, utm_medium, utm_source, session, visit); each group is
 * classified into a channel by an ordered CASE whose first true rule wins; the
 * channels are then aggregated like the other expanded-metrics reports.
 */
module Channels {
  import opened Wrappers
  import opened Aggregate
  import opened Ordering
  import opened Text
  import opened Events
  import opened Clauses

  /** The constant lists the classifier inlines. */
  datatype DomainLists = DomainLists(
    paidAdParams: seq<string>, search: seq<string>, social: seq<string>,
    email: seq<string>, shopping: seq<string>, video: seq<string>)

  const ReferralMediums: seq<string> := ["referral", "app", "link"]

  /** The `prefix` CASE: `paid` for paid-looking mediums (case-sensitive LIKE), else `organic`. */
  function Prefix(utmMedium: Option<string>): string {
    if ColumnLike(utmMedium, "p%") || ColumnLike(utmMedium, "%ppc%") ||
       ColumnLike(utmMedium, "%retargeting%") || ColumnLike(utmMedium, "%paid%")
    then "paid" else "organic"
  }

  /** `paid` iff the medium starts with `p` or contains ppc, retargeting or paid; a NULL medium is organic. */
  lemma PrefixMeaning(utmMedium: Option<string>)
    ensures Prefix(utmMedium) == "paid" || Prefix(utmMedium) == "organic"
    ensures Prefix(utmMedium) == "paid" <==>
      utmMedium.Some? &&
      (IsPrefix("p", utmMedium.value) || Contains(utmMedium.value, "ppc") ||
       Contains(utmMedium.value, "retargeting") || Contains(utmMedium.value, "paid"))
  {
    if utmMedium.Some? {
      var m := utmMedium.value;
      assert "p%" == "p" + "%";
      assert "%ppc%" == "%" + "ppc" + "%";
      assert "%retargeting%" == "%" + "retargeting" + "%";
      assert "%paid%" == "%" + "paid" + "%";
      LikeStartsWith(m, "p");
      LikeContains(m, "ppc");
      LikeContains(m, "retargeting");
      LikeContains(m, "paid");
    }
  }

  /** The inner grouping key of the `prefix` CTE. */
  datatype ChannelKey = ChannelKey(
    prefix: string, referrerDomain: Option<string>, urlQuery: Option<string>,
    utmMedium: Option<string>, utmSource: Option<string>, sessionId: string, visitId: string)

  function KeyOf(e: Event): ChannelKey {
    ChannelKey(Prefix(e.utmMedium), e.referrerDomain, e.urlQuery, e.utmMedium, e.utmSource, e.sessionId, e.visitId)
  }

  /** The `channels` CASE, tried top to bottom. */
  function Classify(k: ChannelKey, lists: DomainLists): string {
    if EqualsText(k.referrerDomain, "") && EqualsText(k.urlQuery, "") then "direct"
    else if ClauseHolds(k.urlQuery, PositionClause("url_query", lists.paidAdParams)) then "paidAds"
    else if ClauseHolds(k.utmMedium, PositionClause("utm_medium", ReferralMediums)) then "referral"
    else if ColumnILike(k.utmMedium, "%affiliate%") then "affiliate"
    else if ColumnILike(k.utmMedium, "%sms%") || ColumnILike(k.utmSource, "%sms%") then "sms"
    else if ClauseHolds(k.referrerDomain, PositionClause("referrer_domain", lists.search)) || ColumnILike(k.utmMedium, "%organic%") then k.prefix + "Search"
    else if ClauseHolds(k.referrerDomain, PositionClause("referrer_domain", lists.social)) then k.prefix + "Social"
    else if ClauseHolds(k.referrerDomain, PositionClause("referrer_domain", lists.email)) || ColumnILike(k.utmMedium, "%mail%") then "email"
    else if ClauseHolds(k.referrerDomain, PositionClause("referrer_domain", lists.shopping)) || ColumnILike(k.utmMedium, "%shop%") then k.prefix + "Shopping"
    else if ClauseHolds(k.referrerDomain, PositionClause("referrer_domain", lists.video)) || ColumnILike(k.utmMedium, "%video%") then k.prefix + "Video"
    else ""
  }

  /**
   * The channel rules restated as case-insensitive containment of the listed
   * values, tried in the same order.
   */
  function ReferenceChannel(k: ChannelKey, lists: DomainLists): string {
    if EqualsText(k.referrerDomain, "") && EqualsText(k.urlQuery, "") then "direct"
    else if ContainsAny(k.urlQuery, lists.paidAdParams) then "paidAds"
    else if ContainsAny(k.utmMedium, ReferralMediums) then "referral"
    else if ContainsAny(k.utmMedium, ["affiliate"]) then "affiliate"
    else if ContainsAny(k.utmMedium, ["sms"]) || ContainsAny(k.utmSource, ["sms"]) then "sms"
    else if ContainsAny(k.referrerDomain, lists.search) || ContainsAny(k.utmMedium, ["organic"]) then k.prefix + "Search"
    else if ContainsAny(k.referrerDomain, lists.social) then k.prefix + "Social"
    else if ContainsAny(k.referrerDomain, lists.email) || ContainsAny(k.utmMedium, ["mail"]) then "email"
    else if ContainsAny(k.referrerDomain, lists.shopping) || ContainsAny(k.utmMedium, ["shop"]) then k.prefix + "Shopping"
    else if ContainsAny(k.referrerDomain, lists.video) || ContainsAny(k.utmMedium, ["video"]) then k.prefix + "Video"
    else ""
  }

  predicate ListsWildcardFree(lists: DomainLists) {
    AllWildcardFree(lists.paidAdParams) && AllWildcardFree(lists.search) && AllWildcardFree(lists.social) &&
    AllWildcardFree(lists.email) && AllWildcardFree(lists.shopping) && AllWildcardFree(lists.video)
  }

  /** A single literal pattern `%v%` is the one-value list clause. */
  lemma SingleILike(col: Option<string>, v: string)
    requires WildcardFree(v)
    ensures ColumnILike(col, "%" + v + "%") <==> ContainsAny(col, [v])
  {
    assert [v][0] == v;
    if col.Some? {
      ILikeContains(col.value, v);
    }
  }

  /** With wildcard-free lists, the CASE picks the same channel as the containment reference. */
  lemma ClassifyIsReference(k: ChannelKey, lists: DomainLists)
    requires ListsWildcardFree(lists)
    ensures Classify(k, lists) == ReferenceChannel(k, lists)
  {
    ListClausesAgree(k, lists);
    LiteralPatternsAgree(k);
  }

  lemma ListClausesAgree(k: ChannelKey, lists: DomainLists)
    requires ListsWildcardFree(lists)
    ensures ClauseHolds(k.urlQuery, PositionClause("url_query", lists.paidAdParams)) <==> ContainsAny(k.urlQuery, lists.paidAdParams)
    ensures ClauseHolds(k.utmMedium, PositionClause("utm_medium", ReferralMediums)) <==> ContainsAny(k.utmMedium, ReferralMediums)
    ensures ClauseHolds(k.referrerDomain, PositionClause("referrer_domain", lists.search)) <==> ContainsAny(k.referrerDomain, lists.search)
    ensures ClauseHolds(k.referrerDomain, PositionClause("referrer_domain", lists.social)) <==> ContainsAny(k.referrerDomain, lists.social)
    ensures ClauseHolds(k.referrerDomain, PositionClause("referrer_domain", lists.email)) <==> ContainsAny(k.referrerDomain, lists.email)
    ensures ClauseHolds(k.referrerDomain, PositionClause("referrer_domain", lists.shopping)) <==> ContainsAny(k.referrerDomain, lists.shopping)
    ensures ClauseHolds(k.referrerDomain, PositionClause("referrer_domain", lists.video)) <==> ContainsAny(k.referrerDomain, lists.video)
  {
    ClauseIsContainment(k.urlQuery, "url_query", lists.paidAdParams);
    ClauseIsContainment(k.utmMedium, "utm_medium", ReferralMediums);
    ClauseIsContainment(k.referrerDomain, "referrer_domain", lists.search);
    ClauseIsContainment(k.referrerDomain, "referrer_domain", lists.social);
    ClauseIsContainment(k.referrerDomain, "referrer_domain", lists.email);
    ClauseIsContainment(k.referrerDomain, "referrer_domain", lists.shopping);
    ClauseIsContainment(k.referrerDomain, "referrer_domain", lists.video);
  }

  lemma LiteralPatternsAgree(k: ChannelKey)
    ensures ColumnILike(k.utmMedium, "%affiliate%") <==> ContainsAny(k.utmMedium, ["affiliate"])
    ensures ColumnILike(k.utmMedium, "%sms%") <==> ContainsAny(k.utmMedium, ["sms"])
    ensures ColumnILike(k.utmSource, "%sms%") <==> ContainsAny(k.utmSource, ["sms"])
    ensures ColumnILike(k.utmMedium, "%organic%") <==> ContainsAny(k.utmMedium, ["organic"])
    ensures ColumnILike(k.utmMedium, "%mail%") <==> ContainsAny(k.utmMedium, ["mail"])
    ensures ColumnILike(k.utmMedium, "%shop%") <==> ContainsAny(k.utmMedium, ["shop"])
    ensures ColumnILike(k.utmMedium, "%video%") <==> ContainsAny(k.utmMedium, ["video"])
  {
    assert "%affiliate%" == "%" + "affiliate" + "%";
    assert "%sms%" == "%" + "sms" + "%";
    assert "%organic%" == "%" + "organic" + "%";
    assert "%mail%" == "%" + "mail" + "%";
    assert "%shop%" == "%" + "shop" + "%";
    assert "%video%" == "%" + "video" + "%";
    SingleILike(k.utmMedium, "affiliate");
    SingleILike(k.utmMedium, "sms");
    SingleILike(k.utmSource, "sms");
    SingleILike(k.utmMedium, "organic");
    SingleILike(k.utmMedium, "mail");
    SingleILike(k.utmMedium, "shop");
    SingleILike(k.utmMedium, "video");
  }

  /** An empty referrer with an empty query is direct, before any other rule. */
  lemma DirectFirst(k: ChannelKey, lists: DomainLists)
    requires EqualsText(k.referrerDomain, "") && EqualsText(k.urlQuery, "")
    ensures Classify(k, lists) == "direct"
  {
  }

  /**
   * Only Search, Social, Shopping and Video carry the prefix; Social is decided
   * by the domain list alone, never by a UTM field.
   */
  lemma ClassifyShape(k: ChannelKey, lists: DomainLists)
    requires k.prefix == "paid" || k.prefix == "organic"
    ensures Classify(k, lists) in {"direct", "paidAds", "referral", "affiliate", "sms", "email", "",
      k.prefix + "Search", k.prefix + "Social", k.prefix + "Shopping", k.prefix + "Video"}
    ensures Classify(k, lists) == k.prefix + "Social" ==> ClauseHolds(k.referrerDomain, PositionClause("referrer_domain", lists.social))
  {
    var p := k.prefix;
    assert (p + "Social")[|p| + 1] == 'o';
    assert (p + "Search")[|p| + 1] == 'e';
    assert (p + "Shopping")[|p| + 1] == 'h';
    assert (p + "Video")[|p| + 1] == 'i';
  }

  /** The key of an event carries the prefix of its medium. */
  lemma KeyPrefix(e: Event)
    ensures KeyOf(e).prefix == "paid" || KeyOf(e).prefix == "organic"
  {
    PrefixMeaning(e.utmMedium);
  }

  /** `ilike '%app%'` counts a medium such as `application` as a referral. */
  lemma ApplicationIsReferral(lists: DomainLists)
    ensures Classify(ChannelKey("organic", Some("example.com"), None, Some("application"), None, "s", "v"), lists) == "referral"
  {
    var k := ChannelKey("organic", Some("example.com"), None, Some("application"), None, "s", "v");
    ClauseMeaning(k.utmMedium, "utm_medium", ReferralMediums);
    assert ReferralMediums[1] == "app";
    assert "%app%" == "%" + "app" + "%";
    ILikeContains("application", "app");
    assert Lower("application") == "application";
    assert Lower("app") == "app";
    assert IsPrefix("app", "application"[0..]);
  }

  /** The events grouped: the website's, custom events excluded, through the (uninterpreted) date and filter clauses. */
  predicate ChannelInput(e: Event, websiteId: string, filter: Event -> bool) {
    e.websiteId == websiteId && e.eventType != CustomEventType && filter(e)
  }

  function GroupedKeys(events: seq<Event>, websiteId: string, filter: Event -> bool): seq<ChannelKey> {
    Map(Filter(events, (e: Event) => ChannelInput(e, websiteId, filter)), KeyOf)
  }

  datatype ChannelRow = ChannelRow(name: string, stats: GroupStats)

  function ChannelOf(lists: DomainLists): ChannelKey -> string {
    k => Classify(k, lists)
  }

  function ChannelStats(keys: seq<ChannelKey>, lists: DomainLists, n: string): GroupStats {
    Stats(keys, ChannelOf(lists), (k: ChannelKey) => k.sessionId, (k: ChannelKey) => k.visitId, n)
  }

  /** `order by visitors desc, visits desc`. */
  function ByVisitors(r: ChannelRow): (int, int) {
    (r.stats.visitors, r.stats.visits)
  }

  /** The named channels, one row each. */
  function ChannelNames(keys: seq<ChannelKey>, lists: DomainLists): seq<string> {
    Filter(Dedup(Map(keys, ChannelOf(lists))), (n: string) => n != "")
  }

  /** getChannelExpandedMetrics without totaltime. */
  function ChannelMetrics(events: seq<Event>, websiteId: string, lists: DomainLists, filter: Event -> bool): seq<ChannelRow> {
    ChannelRows(GroupedKeys(events, websiteId, filter), lists)
  }

  /**
   * The report is ordered by visitors then visits, holds one row per non-empty
   * channel of the grouped events (and no '' row), each with that channel's
   * statistics; pageviews is the number of grouped events of the channel.
   */
  lemma ChannelMetricsMeaning(keys: seq<ChannelKey>, lists: DomainLists)
    ensures SortedDesc(ChannelRows(keys, lists), ByVisitors)
    ensures forall r :: r in ChannelRows(keys, lists) ==>
      r.name != "" && r.stats == ChannelStats(keys, lists, r.name) &&
      exists k :: k in keys && Classify(k, lists) == r.name
    ensures forall k :: k in keys && Classify(k, lists) != "" ==>
      exists r :: r in ChannelRows(keys, lists) && r.name == Classify(k, lists)
    ensures NoDups(Map(ChannelRows(keys, lists), ChannelRowName))
  {
    ChannelRowsDistinct(keys, lists);
    forall r | r in ChannelRows(keys, lists)
      ensures r.name != "" && r.stats == ChannelStats(keys, lists, r.name)
      ensures exists k :: k in keys && Classify(k, lists) == r.name
    {
      RowsAreChannels(keys, lists, r);
    }
    forall k | k in keys && Classify(k, lists) != ""
      ensures exists r :: r in ChannelRows(keys, lists) && r.name == Classify(k, lists)
    {
      ChannelsAreRows(keys, lists, k);
    }
  }

  /** A channel's pageviews are its grouped events; bounces, visitors and visits are bounded by its inner groups. */
  lemma ChannelStatsBounds(keys: seq<ChannelKey>, lists: DomainLists, n: string)
    ensures ChannelStats(keys, lists, n).pageviews == |Members(keys, ChannelOf(lists), n)|
    ensures ChannelStats(keys, lists, n).bounces <= ChannelStats(keys, lists, n).pageviews
    ensures ChannelStats(keys, lists, n).visitors <= ChannelStats(keys, lists, n).pageviews
    ensures ChannelStats(keys, lists, n).visits <= ChannelStats(keys, lists, n).pageviews
  {
    StatsBounds(keys, ChannelOf(lists), (k: ChannelKey) => k.sessionId, (k: ChannelKey) => k.visitId, n);
  }

  function ChannelRows(keys: seq<ChannelKey>, lists: DomainLists): seq<ChannelRow> {
    SortDesc(Map(ChannelNames(keys, lists), (n: string) => ChannelRow(n, ChannelStats(keys, lists, n))), ByVisitors)
  }

  function ChannelRowName(r: ChannelRow): string {
    r.name
  }

  /** No channel has two rows. */
  lemma ChannelRowsDistinct(keys: seq<ChannelKey>, lists: DomainLists)
    ensures NoDups(Map(ChannelRows(keys, lists), ChannelRowName))
  {
    var names := ChannelNames(keys, lists);
    var rows := Map(names, (n: string) => ChannelRow(n, ChannelStats(keys, lists, n)));
    FilterKeepsNoDups(Dedup(Map(keys, ChannelOf(lists))), (n: string) => n != "");
    assert Map(rows, ChannelRowName) == names;
    PermutationKeepsDistinct(rows, ChannelRows(keys, lists), ChannelRowName);
  }

  lemma RowsAreChannels(keys: seq<ChannelKey>, lists: DomainLists, r: ChannelRow)
    requires r in ChannelRows(keys, lists)
    ensures r.name != "" && r.stats == ChannelStats(keys, lists, r.name)
    ensures exists k :: k in keys && Classify(k, lists) == r.name
  {
    var names := ChannelNames(keys, lists);
    var rows := Map(names, (n: string) => ChannelRow(n, ChannelStats(keys, lists, n)));
    assert r in multiset(ChannelRows(keys, lists));
    assert r in multiset(rows);
    var i :| 0 <= i < |rows| && rows[i] == r;
    assert names[i] in names;
    var ks := Map(keys, ChannelOf(lists));
    assert r.name in ks;
    var j :| 0 <= j < |ks| && ks[j] == r.name;
    assert keys[j] in keys;
  }

  lemma ChannelsAreRows(keys: seq<ChannelKey>, lists: DomainLists, k: ChannelKey)
    requires k in keys && Classify(k, lists) != ""
    ensures exists r :: r in ChannelRows(keys, lists) && r.name == Classify(k, lists)
  {
    var names := ChannelNames(keys, lists);
    var rows := Map(names, (n: string) => ChannelRow(n, ChannelStats(keys, lists, n)));
    var ks := Map(keys, ChannelOf(lists));
    var j :| 0 <= j < |keys| && keys[j] == k;
    assert ks[j] == Classify(k, lists);
    assert Classify(k, lists) in names;
    var i :| 0 <= i < |names| && names[i] == Classify(k, lists);
    assert rows[i] in multiset(ChannelRows(keys, lists));
  }
}
