# umami analytics core, modelled in Dafny

This project models the server-side core of umami, a web analytics service,
and proves properties of that model. It covers:

- **The report queries.** These are the funnel, attribution, channel, pageview,
  session, value and weekly-traffic reports. Each one is modelled as the set of
  rows its SQL returns over a sequence of `website_event` rows.
  - Events are values of `Events.Event`.
  - Nullable columns are `Option`.
  - The filters that the shared filter builder adds are passed in as a
    predicate.
  - SQL rules that the model follows:
    - WHERE and CASE keep a condition only when it is TRUE, so a NULL
      comparison never holds.
    - LIKE understands `%` and `_`; ILIKE is LIKE after ASCII lower-casing.
    - `count(distinct ...)` is the length of a de-duplicated sequence.
    - ORDER BY ... DESC is a stable insertion sort.
    - LIMIT and OFFSET take a slice.
- **The query-building logic around the reports.**
  - The funnel's `reduce` over its steps.
  - The column, entry/exit and country decisions of the metrics reports.
  - The ILIKE clauses that inline constant lists, with their quotes doubled.
  - The comma-separated search of getValues.
  - The 7 × 24 grid that getWeeklyTraffic builds from its rows.
- **The write paths.**
  - saveEvent writes one event row, then its `event_data` rows and one
    revenue row.
  - saveEventData writes the flattened properties of an event.
  - saveSessionData is an update-or-create loop against a snapshot read once.
  - Each table is a `class` whose `seq` fields the methods reassign.
- **The website permission rules** and the small `lib/db` helpers.

The modules follow the source files: `Funnel`, `Attribution`, `Channels`,
`PageviewMetrics`, `PageviewExpanded`, `SessionMetrics`, `SessionExpanded`,
`Values`, `WeeklyTraffic`, `SaveEvent`, `EventData`, `SessionData`,
`Permissions` and `Db`. They share these modules:

| module | what it provides |
|---|---|
| `Wrappers` | Option and Result |
| `Text` | LIKE, splitting, quoting, truncation, digits |
| `Aggregate` | filter, map, de-duplication, counts, group statistics, set sizes |
| `Ordering` | sorting, top-n, paging |
| `Events` | the event row and SQL comparisons |
| `Clauses` | inlined ILIKE lists |
| `Metrics` | plan decisions shared by the metrics reports |
| `DataFields` | typed property values |

Where umami's documented behaviour and its code differ, the model follows the
code:
- **Funnel window.** A funnel level accepts an event at the same instant as
  the previous step's event: `between` includes both ends. It does not have to
  be strictly later.
- **First funnel step.** The first step's dropoff is `1 - visitors / 0`. That
  is -Infinity, or NaN when the step has no visitors; it is not 0. The
  remaining share is NaN when the first step has no visitors.
- **Funnel with no steps.** It is not rejected before querying. The query text
  is then only `ORDER BY level`, which the store rejects. This is modelled as
  an error.
- **Referral channel.** A medium is a referral when it *contains* `referral`,
  `app` or `link`, ignoring case. So `application` is a referral.
- **Search terms.** A comma-separated search keeps duplicate terms.
- **Currency-mode breakdowns** keep groups named `''`.
- **Visitors counted twice.** A breakdown without currency counts distinct
  sessions per name. A session whose touch time holds two events with
  different names is counted under both, so the counts can add up to more
  than the total visitors (Attribution.SameTimeReferrersOvercount). With one
  name per session and touch time they cannot
  (Attribution.BreakdownCountsWithinVisitors).
- **Path steps with currency** match no revenue row, because revenue rows
  store no url path.
- **Empty event name.** It is stored as NULL on the event row, but passed on
  as `''` to the event-data and revenue writes.
- **Missing user.** A permission check that reads a property of an absent user
  throws a TypeError. This is modelled as `Err`.
- **Session-data update.** An update also rewrites the record's id with the
  freshly generated one, because `...props` still holds `id`.

## Model

| member | source | states |
|---|---|---|
| Attribution.TargetOf | src/queries/sql/reports/getAttribution.ts:41-42 | a `path` step is compared on url_path with the pageview event type; every other step type on event_name with the custom-event type |
| Attribution.EventConversionsMeaning | src/queries/sql/reports/getAttribution.ts:68-79 | without currency there is one conversion per session; it carries the time of one of that session's step events, and every step event has its session's conversion at or after its time |
| Attribution.RevenuePairsFrom | src/queries/sql/reports/getAttribution.ts:81-100 | a row that reaches the revenue grouping is a revenue row of the website, range, step and currency, joined to an in-range, filtered event with the same website, session and event id |
| Attribution.RevenuePairsCover | src/queries/sql/reports/getAttribution.ts:81-97 | every matching revenue row with an in-range, filtered event of its session and event id reaches the revenue grouping |
| Attribution.PathStepNoRevenue | src/queries/sql/reports/getAttribution.ts:94-97 | with currency, a `path` step joins no revenue row and has no conversion, because revenue rows store no url path |
| Attribution.RevenueConversionsMeaning | src/queries/sql/reports/getAttribution.ts:81-100 | with currency there is one conversion per session with a joined revenue row, and every such session has one; its time is attained by a matching revenue row and is at or after each joined row (`max(created_at)`); its value is the sum of the session's joined revenue (`sum(revenue)`) |
| Attribution.PerSessionWitness | src/queries/sql/reports/getAttribution.ts:82-85 | each per-session revenue conversion's time is attained by one of that session's joined revenue rows |
| Attribution.ChosenTimeExtreme | src/queries/sql/reports/getAttribution.ts:102-123 | the model's chosen time is a candidate's time: the minimum for first-click, the maximum otherwise |
| Attribution.ModelTouchesChosen | src/queries/sql/reports/getAttribution.ts:102-123 | every touch belongs to a conversion of its session and is that conversion's earliest candidate (first-click) or latest one (any other model); ModelTouchesCover states the converse |
| Attribution.ModelTouchesCover | src/queries/sql/reports/getAttribution.ts:102-123 | every conversion with a candidate event gets the touch at its chosen time; with one conversion per session it is that session's only touch |
| Attribution.TouchTimes | src/queries/sql/reports/getAttribution.ts:102-123 | a first-click touch is no later than any in-range event of its session; a last-touch touch is strictly before its session's conversion time |
| Attribution.NoCandidateNoTouch | src/queries/sql/reports/getAttribution.ts:113-122 | a session without a candidate event (for last-touch: none strictly before the conversion) gets no touch at all |
| Attribution.PaidAdNamePriority | src/queries/sql/reports/getAttribution.ts:159-167 | the platform name is that of the first non-empty click id in the order gclid, fbclid, msclkid, ttclid, li_fat_id, twclid; it is '' exactly when all six are empty or NULL |
| Attribution.AttributedRowsFrom | src/queries/sql/reports/getAttribution.ts:129-145 | every grouped row comes from an event at a touch's time and session, kept by the breakdown's WHERE, and is named by that event; AttributedRowsCover states the converse |
| Attribution.AttributedRowsCover | src/queries/sql/reports/getAttribution.ts:129-145 | every event at a touch's time and session that the breakdown's WHERE keeps yields its row, named by the event and valued by its session's conversion |
| Attribution.AttributedRowsOfTouch | src/queries/sql/reports/getAttribution.ts:129-145 | one touch groups exactly one row per event it lands on that the WHERE keeps, in event order, named by the event and valued by its session's conversion |
| Attribution.ConversionValueOf | src/queries/sql/reports/getAttribution.ts:130-137 | with one conversion per session, the value joined for a session is that conversion's value |
| Attribution.GroupsMeaning | src/queries/sql/reports/getAttribution.ts:129-146 | there is one group per distinct name; each group's value is its distinct-session count, or its summed revenue with currency; every grouped row's name has its group |
| Attribution.Top20Shape | src/queries/sql/reports/getAttribution.ts:146-148 | exactly 20 groups, or all of them when there are fewer, by value descending, all taken from the groups; a group left out is worth no more than any group kept; distinctly named groups stay distinct |
| Attribution.BreakdownShape | src/queries/sql/reports/getAttribution.ts:176-181 | a breakdown has one row per name, in descending order, all taken from the grouping: exactly min(20, distinct names) rows, except that the paid-ads breakdown without currency holds exactly the top-20 groups with a name, at most one fewer; a group outside the top 20 is worth no more than any row kept |
| Attribution.PaidAdsNoEmpty | src/queries/sql/reports/getAttribution.ts:179-181 | without currency the paid-ads breakdown has no '' row |
| Attribution.FilterKeepsSorted | src/queries/sql/reports/getAttribution.ts:179-181 | removing rows after the limit keeps the descending order |
| Attribution.FilterDropsOneName | src/queries/sql/reports/getAttribution.ts:179-181 | among distinctly named groups, dropping the '' group removes at most one row, and none when every group has a name |
| Attribution.FilterAllNamed | src/queries/sql/reports/getAttribution.ts:179-181 | groups that all have a name pass the '' filter unchanged |
| Attribution.GroupFrom | src/queries/sql/reports/getAttribution.ts:129-145 | a group comes from a touched, kept event with its name; without currency it counts at least one session, and outside paid ads its name is not '' |
| Attribution.BreakdownRows | src/queries/sql/reports/getAttribution.ts:125-229 | each row of each breakdown carries its name's group value and comes from a touched, kept event; without currency no row is '' and each counts at least one session |
| Attribution.TotalMeaning | src/queries/sql/reports/getAttribution.ts:231-246 | pageviews is the number of step events; visitors and visits do not exceed it; the attribution model does not change the totals |
| Attribution.CountModeIgnoresRevenue | src/queries/sql/reports/getAttribution.ts:125-128 | without currency the revenue table does not affect any breakdown |
| Attribution.TouchPerSession | src/queries/sql/reports/getAttribution.ts:102-123 | with one conversion per session, a session has at most one touch |
| Attribution.GroupCountIsSessions | src/queries/sql/reports/getAttribution.ts:129-130 | without currency a group's value is the number of distinct sessions among its rows |
| Attribution.DistinctCountsSum | src/queries/sql/reports/getAttribution.ts:129-146 | when each session's rows carry one name, the counts of distinctly named groups add up to the number of sessions they name together |
| Attribution.RowsOneNamePerSession | src/queries/sql/reports/getAttribution.ts:102-145 | with one conversion per session, and when a session's in-range events at one time share the breakdown's name, the grouped rows give every session one name |
| Attribution.RowSessionsVisit | src/queries/sql/reports/getAttribution.ts:68-145 | without currency every grouped row's session has a step event, so it is among the visitors the totals count |
| Attribution.BreakdownCountsWithinSessions | src/queries/sql/reports/getAttribution.ts:129-148 | with one name per session, a breakdown's counts add up to at most the number of sessions grouped |
| Attribution.BreakdownCountsWithinVisitors | src/queries/sql/reports/getAttribution.ts:125-246 | without currency, when a session's in-range events at one time agree on the breakdown's name, the breakdown's counts add up to at most the total visitors |
| Attribution.SameTimeReferrersOvercount | src/queries/sql/reports/getAttribution.ts:125-148 | as written, one visitor whose touch time holds two events with different referrers is counted in two referrer groups, so the referrer counts add up to 2 against 1 total visitor |
| Channels.PrefixMeaning | src/queries/sql/getChannelExpandedMetrics.ts:50-53 | the prefix is `paid` exactly when the medium starts with `p` or contains ppc, retargeting or paid (case-sensitive); otherwise, NULL included, `organic` |
| Channels.KeyPrefix | src/queries/sql/getChannelExpandedMetrics.ts:49-76 | every grouping key carries the prefix `paid` or `organic` |
| Channels.DirectFirst | src/queries/sql/getChannelExpandedMetrics.ts:80 | an empty referrer with an empty query string is `direct`, whatever the other columns say |
| Channels.ClassifyIsReference | src/queries/sql/getChannelExpandedMetrics.ts:79-90 | for wildcard-free lists, the CASE equals an independent first-match-wins definition by case-insensitive containment of the listed values |
| Channels.ListClausesAgree | src/queries/sql/getChannelExpandedMetrics.ts:81-89 | each inlined list clause of the CASE holds exactly when the column contains a listed value, ignoring case |
| Channels.LiteralPatternsAgree | src/queries/sql/getChannelExpandedMetrics.ts:83-89 | each literal `%word%` ILIKE of the CASE holds exactly when the column contains the word, ignoring case |
| Channels.ClassifyShape | src/queries/sql/getChannelExpandedMetrics.ts:79-90 | the channel is one of direct, paidAds, referral, affiliate, sms, email, '' or the prefix followed by Search, Social, Shopping or Video; a Social channel implies its social clause held |
| Channels.ApplicationIsReferral | src/queries/sql/getChannelExpandedMetrics.ts:82 | a medium of `application` is classified as referral, because the test is containment |
| Channels.ChannelMetricsMeaning | src/queries/sql/getChannelExpandedMetrics.ts:98-108 | rows are ordered by visitors then visits; each row is a non-empty channel of some grouped key with that channel's statistics; every non-empty channel has a row, and no channel has two |
| Channels.ChannelRowsDistinct | src/queries/sql/getChannelExpandedMetrics.ts:105-108 | `group by name` yields at most one row per channel name |
| Channels.RowsAreChannels | src/queries/sql/getChannelExpandedMetrics.ts:98-107 | a row's name is not '' and is the channel of a grouped key, and its statistics are that channel's |
| Channels.ChannelsAreRows | src/queries/sql/getChannelExpandedMetrics.ts:98-107 | every grouped key with a non-empty channel has a row for that channel |
| Channels.ChannelStatsBounds | src/queries/sql/getChannelExpandedMetrics.ts:99-103 | pageviews is the number of grouped events of the channel; bounces, visitors and visits do not exceed it |
| Channels.SingleILike | src/queries/sql/getChannelExpandedMetrics.ts:83 | one `%v%` ILIKE with a wildcard-free `v` is the one-value list clause |
| Clauses.PositionClauseRoundTrip | src/queries/sql/getChannelExpandedMetrics.ts:115-117 | each inlined term names the column, and its literal, read back by the database, is `%v%` for the original value whatever quotes it holds |
| Clauses.ClauseMeaning | src/queries/sql/pageviews/getPageviewExpandedMetrics.ts:131-133 | the OR-ed clause holds exactly when the column ILIKEs `%v%` for some listed value |
| Clauses.ClauseIsContainment | src/queries/sql/getChannelExpandedMetrics.ts:115-117 | for wildcard-free values, the clause holds exactly when the column contains one of them, ignoring case; a NULL column never matches |
| DataFields.TypedCopiesExclusive | src/queries/sql/events/saveEventData.ts:36-37 | a property never has both a number and a date copy; a string property has neither |
| Db.SplitHead | src/lib/db.ts:10 | `split(sep)[0]` is the text before the first separator, or the whole text |
| Db.GetDatabaseType | src/lib/db.ts:9-17 | no URL gives no type; otherwise the type is the URL's text before the first ':', with `postgres` renamed `postgresql` |
| Db.TypeOfFirstField | src/lib/db.ts:10-16 | the type depends only on the text before the first ':' |
| Db.PostgresRenamed | src/lib/db.ts:12-14 | a `postgres://` URL gives `postgresql` |
| Db.PostgresqlKept | src/lib/db.ts:10-16 | a `postgresql://` URL gives `postgresql` |
| Db.OtherSchemeKept | src/lib/db.ts:16 | any other scheme is returned as it is |
| Db.NoColonWhole | src/lib/db.ts:10 | a URL without ':' is returned whole |
| Db.RunQuery | src/lib/db.ts:19-21 | the `prisma` entry is run; without one, calling it throws |
| Db.RunQueryIgnoresOthers | src/lib/db.ts:19-21 | entries other than `prisma` never affect the result |
| Db.NotImplemented | src/lib/db.ts:23-25 | always fails with `Not implemented.` |
| EventData.EventDataRows | src/queries/sql/events/saveEventData.ts:24-44 | exactly one row per flattened key, in order, linked to the event and sharing its website and creation time; its number and date copies are those of its item, present exactly for number keys and for date keys |
| EventData.UnstoredArguments | src/queries/sql/events/saveEventData.ts:25 | sessionId, urlPath and eventName do not affect the rows written |
| Funnel.WildcardToPattern | src/queries/sql/reports/getFunnel.ts:62 | the pattern has the value's length; only a leading and a trailing `*` become `%`, and every inner character is kept |
| Funnel.BothPattern | src/queries/sql/reports/getFunnel.ts:62 | `*m*` becomes `%m%` |
| Funnel.LeadPattern | src/queries/sql/reports/getFunnel.ts:62 | `*m`, with no other star, becomes `%m` |
| Funnel.TrailPattern | src/queries/sql/reports/getFunnel.ts:62 | `m*`, with no other star, becomes `m%` |
| Funnel.StepMatcher | src/queries/sql/reports/getFunnel.ts:54-63 | a path step is compared on url_path and any other on event_name; a value starting or ending with `*` is compared with LIKE on its pattern, any other value by equality |
| Funnel.WildcardStepMeaning | src/queries/sql/reports/getFunnel.ts:57-63 | with a plain middle part, `*m*`, `*m` and `m*` match exactly the events whose step column contains, ends with or starts with `m` |
| Funnel.ExactStepMeaning | src/queries/sql/reports/getFunnel.ts:57-58 | a value without a leading or trailing `*` matches exactly the events whose step column equals it |
| Funnel.GetFunnelQuery | src/queries/sql/reports/getFunnel.ts:41-106 | there is a level-one query for step 1 and one joined level per further step; there is one count arm per step, a union after the first; the i-th bound parameter is step i's value or pattern, and every level's placeholder names its own step's parameter |
| Funnel.LevelStepsInWindow | src/queries/sql/reports/getFunnel.ts:78-91 | a level-(k+1) row is an event of the same session, matching step k+1, no earlier than a level-k row, within the window of it and not after the end date |
| Funnel.LevelSessionsShrink | src/queries/sql/reports/getFunnel.ts:78-91 | the sessions of each level are among those of the level before |
| Funnel.LevelCounts | src/queries/sql/reports/getFunnel.ts:94 | there is one count per step: the number of distinct sessions in that step's level |
| Funnel.LevelCountsNonIncreasing | src/queries/sql/reports/getFunnel.ts:78-94 | the level counts never rise from one step to the next |
| Funnel.CountRows | src/queries/sql/reports/getFunnel.ts:108-113 | the count query returns one row per step in level order, each carrying its level's count |
| Funnel.ResultAt | src/queries/sql/reports/getFunnel.ts:123-137 | step i keeps its type and value; visitors is its count, 0 when missing; previous is step i-1's count, 0 before the first; with a positive previous, dropped is previous - visitors and dropoff is 1 - visitors/previous, otherwise dropped is 0; with a positive first count, remaining is visitors/first |
| Funnel.FormatResults | src/queries/sql/reports/getFunnel.ts:122-139 | it fails exactly when there are steps but no rows; otherwise there is one formatted entry per step, in order |
| Funnel.FormatResultsEdges | src/queries/sql/reports/getFunnel.ts:124-126 | the first step has previous and dropped 0; steps past the returned rows count 0 visitors |
| Funnel.GetFunnelVisitors | src/queries/sql/reports/getFunnel.ts:108-139 | the report succeeds exactly when there are steps; then each step's visitors is its level's distinct-session count, visitors never rise, each later step's previous is the step before's visitors, and dropped is never negative |
| Funnel.TwoStepScenario | src/queries/sql/reports/getFunnel.ts:122-139 | counts 100 and 40 give visitors 100 and 40, dropped 0 and 60, dropoff -Infinity and 0.6, remaining 1 and 0.4 |
| Metrics.ResolveColumn | src/queries/sql/pageviews/getPageviewMetrics.ts:33 | a non-empty FILTER_COLUMNS entry replaces the type; a missing or empty one leaves the type itself |
| Metrics.Limit | src/queries/sql/pageviews/getPageviewMetrics.ts:32 | an undefined limit defaults to 500; a given one is kept |
| Metrics.Offset | src/queries/sql/pageviews/getPageviewMetrics.ts:32 | an undefined offset defaults to 0; a given one is kept |
| Metrics.EntryExitOf | src/queries/sql/pageviews/getPageviewMetrics.ts:51-52 | entry selection exactly for the `entry` type, exit selection exactly for `exit` |
| Metrics.PlanSession | src/queries/sql/sessions/getSessionMetrics.ts:27-43 | the session plan groups by country exactly when the resolved column is city or region; it rewrites language exactly for the `language` type; it joins the session table exactly for session columns; the paging defaults apply |
| Metrics.SessionValue | src/queries/sql/sessions/getSessionMetrics.ts:41-42 | the language rewrite yields at most two lower-cased leading characters of the language, and NULL for NULL; without it the value is the plan's column |
| Metrics.LanguageRewriteExample | src/queries/sql/sessions/getSessionMetrics.ts:41-42 | `en-US` and `EN-gb` fall into the same `en` group |
| PageviewExpanded.MatchList | src/queries/sql/pageviews/getPageviewExpandedMetrics.ts:122 | a single match string stands for the one-element list, a list for itself |
| PageviewExpanded.GroupedFromNone | src/queries/sql/pageviews/getPageviewExpandedMetrics.ts:126 | when no WHEN from the i-th on holds, the CASE from there gives `Other` |
| PageviewExpanded.GroupedFromFirst | src/queries/sql/pageviews/getPageviewExpandedMetrics.ts:121-124 | when WHEN j is the first to hold from i on, the CASE from i gives group j's domain |
| PageviewExpanded.WhenHoldsMeaning | src/queries/sql/pageviews/getPageviewExpandedMetrics.ts:124-133 | a group's inlined WHEN holds exactly when the referrer ILIKEs `%m%` for one of its match strings |
| PageviewExpanded.GroupedReferrerFirstMatch | src/queries/sql/pageviews/getPageviewExpandedMetrics.ts:115-129 | the grouped referrer is the domain of the first group with a matching string, and `Other` when no group matches |
| PageviewExpanded.NullReferrerIsOther | src/queries/sql/pageviews/getPageviewExpandedMetrics.ts:126 | a NULL referrer is grouped as `Other` |
| PageviewExpanded.PlanPageviewExpanded | src/queries/sql/pageviews/getPageviewExpandedMetrics.ts:36-74 | a referrer column adds the self/empty-referrer exclusion and, for the `domain` type only, the grouped-referrer name; entry/exit add the visit-boundary selection; the paging defaults apply |
| PageviewExpanded.EntryExitMeaning | src/queries/sql/pageviews/getPageviewExpandedMetrics.ts:58-73 | with entry (exit), a selected event is its visit's earliest (latest) non-custom in-range event |
| PageviewExpanded.ExcludedReferrers | src/queries/sql/pageviews/getPageviewExpandedMetrics.ts:50-52 | with the exclusion, a selected event has a non-empty referrer different from its hostname |
| PageviewExpanded.ExpandedRowsMeaning | src/queries/sql/pageviews/getPageviewExpandedMetrics.ts:76-108 | one row per name and exactly min(limit, names − offset) of them; each has a non-empty name taken from the inner groups and that name's statistics |
| PageviewExpanded.RowNamesDistinct | src/queries/sql/pageviews/getPageviewExpandedMetrics.ts:76-100 | the outer grouping has each non-empty name of the inner groups once |
| PageviewExpanded.ExpandedRowsComplete | src/queries/sql/pageviews/getPageviewExpandedMetrics.ts:76-108 | no name has two rows; the page has exactly min(limit, names − offset) rows; every name's row is ranked; with offset 0 an omitted name ranks no higher than any listed row |
| PageviewExpanded.ExpandedRowsSorted | src/queries/sql/pageviews/getPageviewExpandedMetrics.ts:106-108 | the page is ordered by visitors then visits, descending |
| PageviewExpanded.RowStatsBounds | src/queries/sql/pageviews/getPageviewExpandedMetrics.ts:78-83 | pageviews is the number of selected events of the name; bounces, visitors and visits do not exceed it |
| PageviewMetrics.PlanPageview | src/queries/sql/pageviews/getPageviewMetrics.ts:32-68 | a referrer_domain column adds the self/empty-referrer exclusion; the `entry` and `exit` types select the visit-boundary event; the session table is joined for session columns; the paging defaults apply |
| PageviewMetrics.BoundaryMeaning | src/queries/sql/pageviews/getPageviewMetrics.ts:55-67 | `distinct on (visit_id) ... order by created_at` picks an event of the visit: the earliest one for entry, the latest for exit |
| PageviewMetrics.EntryExitValue | src/queries/sql/pageviews/getPageviewMetrics.ts:51-67 | with entry (exit), a selected event is grouped under the column of its visit's earliest (latest) event |
| PageviewMetrics.SelectedMeaning | src/queries/sql/pageviews/getPageviewMetrics.ts:46-49 | a counted event is a non-custom event of the website in range; with the exclusion its referrer is non-empty and differs from its hostname |
| PageviewMetrics.GroupRowsMeaning | src/queries/sql/pageviews/getPageviewMetrics.ts:72-86 | by count descending, one row per distinct x and exactly min(limit, distinct xs − offset) of them; each row's y is the number of distinct sessions with its x, at least 1, for an x that occurs |
| PageviewMetrics.GroupRowsComplete | src/queries/sql/pageviews/getPageviewMetrics.ts:72-86 | no x has two rows; the page has exactly min(limit, distinct xs − offset) rows; every x's group is ranked; with offset 0 an omitted x has no more sessions than any listed row |
| PageviewMetrics.GroupedRow | src/queries/sql/pageviews/getPageviewMetrics.ts:72-83 | a grouped row counts the distinct sessions of an x that occurs, and at least one |
| Permissions.OwnerCheck | src/permissions/website.ts:15-25 | true exactly for the owner of an existing, owned website; it throws exactly when the website is owned and there is no user |
| Permissions.CanViewWebsite | src/permissions/website.ts:6-26 | allowed exactly for an admin, for a share token of this website, or for the website's owner; it throws only without a user, without a matching token and with an owned website |
| Permissions.CanViewAllWebsites | src/permissions/website.ts:28-30 | allowed exactly for an admin; no user throws |
| Permissions.CanCreateWebsite | src/permissions/website.ts:32-38 | allowed for an admin or a role granted websiteCreate; no user throws |
| Permissions.CanUpdateWebsite | src/permissions/website.ts:40-56 | allowed exactly for an admin or the website's owner; no user throws |
| Permissions.CanDeleteWebsite | src/permissions/website.ts:58-74 | allowed exactly for an admin or the website's owner; no user throws |
| Permissions.ShareTokenIgnoredForChanges | src/permissions/website.ts:40-74 | a share token never changes the update or delete decision, and never grants them without a user |
| Permissions.ChangeImpliesView | src/permissions/website.ts:6-74 | whoever may update may view; delete and update decide alike |
| Permissions.SameRuleForSignedInUsers | src/permissions/website.ts:6-56 | for a signed-in user without a matching token, view and update agree; an admin is always allowed; a missing or unowned website is refused |
| SaveEvent.TruncateOpt | src/queries/sql/events/saveEvent.ts:98-108 | an absent value stays absent; a present one becomes its prefix of exactly min(length, n) code points: unchanged when it fits, n code points otherwise (JavaScript counts UTF-16 units; see Left out) |
| SaveEvent.StoredEventName | src/queries/sql/events/saveEvent.ts:116 | the stored name is NULL exactly when the name is absent or empty; otherwise it is the name's prefix of exactly min(length, limit) code points, and non-empty for a positive limit (JavaScript counts UTF-16 units; see Left out) |
| SaveEvent.EventRecord | src/queries/sql/events/saveEvent.ts:90-121 | the event row carries the generated id and the given identifiers; urlPath is the path's prefix of exactly min(length, URL limit) code points (JavaScript counts UTF-16 units; see Left out); the other url, referrer and title fields are cut to their limits, the name as above, and every other field is copied unchanged |
| SaveEvent.EventStore.SaveEventData | src/queries/sql/events/saveEventData.ts:42-44 | appends exactly the event's data rows and leaves the other tables alone |
| SaveEvent.EventStore.SaveRevenue | src/queries/sql/events/saveEvent.ts:137-145 | appends exactly one revenue row and leaves the other tables alone |
| SaveEvent.EventStore.SaveEvent | src/queries/sql/events/saveEvent.ts:90-147 | appends the event row, then its data rows when there is event data, and one revenue row when in addition revenue > 0 with a currency |
| SaveEvent.ChildRowsLinked | src/queries/sql/events/saveEvent.ts:90-146 | every data row and revenue row written carries the generated event id |
| SaveEvent.ChildWriteConditions | src/queries/sql/events/saveEvent.ts:123-146 | no event data means no child rows; otherwise one data row per key; a revenue row exactly when revenue > 0 and the currency is non-empty, holding that amount and currency |
| SaveEvent.EmptyEventName | src/queries/sql/events/saveEvent.ts:116-141 | an empty name is NULL on the event row but `''` on the revenue row |
| SaveEvent.TruncationLength | src/queries/sql/events/saveEvent.ts:98 | a value is stored whole exactly when it fits; a longer one keeps exactly the limit, counted in code points (JavaScript counts UTF-16 units; see Left out) |
| SessionData.CandidateRows | src/queries/sql/sessions/saveSessionData.ts:31-44 | one candidate record per flattened key, in order, sharing website, session, distinctId and createdAt; its number and date copies are those of its item, present exactly for number and date keys |
| SessionData.ExistingIsSnapshot | src/queries/sql/sessions/saveSessionData.ts:46-55 | the snapshot lists the (id, sessionId, dataKey) of stored rows, all of this session |
| SessionData.FindRecord | src/queries/sql/sessions/saveSessionData.ts:59 | a found record is in the snapshot with the session and key; nothing is found exactly when no snapshot record has both |
| SessionData.Updated | src/queries/sql/sessions/saveSessionData.ts:58-69 | an update keeps the session and key, writes every other field (id included), and leaves an undefined distinctId or createdAt as stored |
| SessionData.ReplaceById | src/queries/sql/sessions/saveSessionData.ts:62-69 | only rows with the given id are updated; all others, and the table's length, stay as they were |
| SessionData.ErrorSticks | src/queries/sql/sessions/saveSessionData.ts:57-75 | once an update fails, the remaining items change nothing |
| SessionData.SessionDataTable.SaveSessionData | src/queries/sql/sessions/saveSessionData.ts:22-76 | the table afterwards, and the error that stopped the loop, are those of the item-by-item upsert against the snapshot taken first |
| SessionData.UpsertKeepsRows | src/queries/sql/sessions/saveSessionData.ts:57-75 | every stored row stays in place, either unchanged or updated by an item with its session and key; rows that no item matches are untouched; added rows are items; MatchedRowUpdated states that a matched row is updated |
| SessionData.CreatedRows | src/queries/sql/sessions/saveSessionData.ts:70-73 | the rows added are exactly the items whose key the snapshot lacks, in order, duplicates included |
| SessionData.DistinctKeysNeverFail | src/queries/sql/sessions/saveSessionData.ts:57-75 | with distinct keys, unique stored ids and fresh new ids, no update fails |
| SessionData.MatchedRowUpdated | src/queries/sql/sessions/saveSessionData.ts:57-69 | a stored row whose key finds its own snapshot record ends up updated by the one item with that key if the item is present, and unchanged otherwise |
| SessionData.StoredKeyUpdated | src/queries/sql/sessions/saveSessionData.ts:46-69 | with one stored row per session and key, the stored row an item's key names is updated with that item |
| SessionData.SnapshotOnlyExample | src/queries/sql/sessions/saveSessionData.ts:46-73 | two new items with the same key both create a row, because lookups see only the snapshot |
| SessionExpanded.ExpandedRowsMeaning | src/queries/sql/sessions/getSessionExpandedMetrics.ts:54-87 | exactly min(limit, groups − offset) rows, none past the end, one per (name, country) group, by visitors then visits descending; each row is a group of the inner grouping with that group's statistics |
| SessionExpanded.EveryGroupRanked | src/queries/sql/sessions/getSessionExpandedMetrics.ts:80-85 | every inner group appears in the ranking before paging, with its statistics |
| SessionExpanded.RowStatsBounds | src/queries/sql/sessions/getSessionExpandedMetrics.ts:59-62 | pageviews is the number of selected events of the group; bounces, visitors and visits do not exceed it |
| SessionExpanded.CountryOnlyWhenIncluded | src/queries/sql/sessions/getSessionExpandedMetrics.ts:48-84 | without the country grouping, no inner group carries a country |
| SessionMetrics.CountryOnlyWhenIncluded | src/queries/sql/sessions/getSessionMetrics.ts:39-59 | each keyed row comes from a selected event and carries its value and, only with the country grouping, its country |
| SessionMetrics.GroupRowsMeaning | src/queries/sql/sessions/getSessionMetrics.ts:45-62 | by count descending, one row per distinct key and exactly min(limit, distinct keys − offset) of them; each counts the distinct sessions of a key that occurs, at least one |
| SessionMetrics.GroupRowsComplete | src/queries/sql/sessions/getSessionMetrics.ts:45-62 | no key has two rows; the page has exactly min(limit, distinct keys − offset) rows; every key's group is ranked; with offset 0 an omitted key has no more sessions than any listed row |
| SessionMetrics.GroupedRow | src/queries/sql/sessions/getSessionMetrics.ts:47-59 | a grouped row counts the distinct sessions of a (value, country) key that occurs |
| Values.BuildSearch | src/queries/sql/getValues.ts:20-44 | no clause for an empty search; one term for a search without commas; otherwise one term per part, each bound to its own `search<k>` parameter; the `search` parameter is always `%term%` |
| Values.SearchKeyNotSearch | src/queries/sql/getValues.ts:34 | no per-part key collides with the `search` parameter |
| Values.SearchKeysDistinct | src/queries/sql/getValues.ts:34 | the per-part keys are distinct |
| Values.SearchPartsMeaning | src/queries/sql/getValues.ts:29-32 | at most five parts, a prefix of the comma split; no part holds a comma; a comma gives at least two parts; with fewer than five commas the parts rejoin to the term |
| Values.DuplicatesKept | src/queries/sql/getValues.ts:31-32 | `a,a` searches for `a` twice |
| Values.TopValuesMeaning | src/queries/sql/getValues.ts:46-60 | exactly ten rows, or one per distinct value when there are fewer; one row per value, by count descending, each counting the selected events with its value |
| Values.TopValuesLargest | src/queries/sql/getValues.ts:57-59 | a value is left out only when ten rows are kept, and it occurs no more often than any of them |
| Values.GroupedRow | src/queries/sql/getValues.ts:48-57 | each grouped row's count is the number of selected events with its value, at least 1 |
| Values.GroupedHasValue | src/queries/sql/getValues.ts:48-57 | every selected value has its grouped row |
| Values.ReferrerExcluded | src/queries/sql/getValues.ts:23-26 | for referrer_domain, a counted event has a non-empty referrer different from its hostname |
| WeeklyTraffic.FindRow | src/queries/sql/getWeeklyTraffic.ts:50 | the found row is the first with that time key; nothing is found exactly when no row has it |
| WeeklyTraffic.FormatResults | src/queries/sql/getWeeklyTraffic.ts:41-57 | 7 days of 24 hours, each cell the value of the first row with key `i:HH`, or 0 |
| WeeklyTraffic.HourKeyDigits | src/queries/sql/getWeeklyTraffic.ts:50 | the key is the day digit, ':', then the hour padded to two digits |
| WeeklyTraffic.HourKeyInjective | src/queries/sql/getWeeklyTraffic.ts:50 | different cells have different keys |
| WeeklyTraffic.HourKeyExamples | src/queries/sql/getWeeklyTraffic.ts:50 | day 3 hour 5 is `3:05`; day 0 hour 13 is `0:13` |
| WeeklyTraffic.FindRowIgnoresOthers | src/queries/sql/getWeeklyTraffic.ts:50 | dropping rows with other keys does not change what is found |
| WeeklyTraffic.RowsOutsideGridIgnored | src/queries/sql/getWeeklyTraffic.ts:44-54 | rows whose key names no cell do not affect the grid |
| WeeklyTraffic.FirstRowWins | src/queries/sql/getWeeklyTraffic.ts:50 | a later row with a cell's key does not change that cell |
| WeeklyTraffic.FindRowAppend | src/queries/sql/getWeeklyTraffic.ts:50 | a key found in a prefix is found there in the whole |
| WeeklyTraffic.GetWeeklyTraffic | src/queries/sql/getWeeklyTraffic.ts:14-38 | the report's grid is the formatted grid of the per-slot distinct-session rows |
| WeeklyTraffic.CellIsDistinctSessions | src/queries/sql/getWeeklyTraffic.ts:22-38 | each cell is the number of distinct sessions whose selected events fall in its slot |
| Ordering.SortDesc | src/queries/sql/getValues.ts:58 | `order by ... desc` yields a descending permutation of its rows |
| Ordering.Take | src/queries/sql/getValues.ts:59 | `limit n` keeps the first n rows, or all of them |
| Ordering.Page | src/queries/sql/pageviews/getPageviewMetrics.ts:85-86 | `limit l offset o` keeps at most l rows starting at o, none past the end |
| Ordering.PageKeepsOrder | src/queries/sql/pageviews/getPageviewMetrics.ts:84-86 | a page of sorted rows is sorted and holds only rows of the input |
| Ordering.TakeKeepsTop | src/queries/sql/getValues.ts:58-59 | the kept rows of a sorted sequence rank at least as high as every dropped row |
| Ordering.TopKeepsLargest | src/queries/sql/reports/getAttribution.ts:146-148 | top-n is sorted, has exactly min(n, length) rows, is a sub-multiset of the input, and outranks every row it leaves out |
| Ordering.TopHoldsAll | src/queries/sql/getValues.ts:57-59 | when there are at most n rows, top-n keeps every one of them |
| Ordering.TopKeepsDistinct | src/queries/sql/reports/getAttribution.ts:146-148 | top-n of rows with distinct keys has distinct keys |
| Ordering.PermutationKeepsDistinct | src/queries/sql/pageviews/getPageviewMetrics.ts:84 | reordering rows keeps their keys distinct |
| Ordering.RankedPage | src/queries/sql/pageviews/getPageviewMetrics.ts:84-86 | a page of ranked distinct groups keeps them distinct, has exactly min(limit, groups − offset) rows, and with offset 0 outranks every group it leaves out |
| Aggregate.NoDupsCard | src/queries/sql/reports/getAttribution.ts:130 | a sequence without repeats has as many elements as its set |
| Aggregate.DedupCard | src/queries/sql/reports/getAttribution.ts:130 | `count(distinct x)` is the size of the set of counted values |
| Text.Truncate | src/queries/sql/events/saveEvent.ts:98 | the cut keeps the prefix of exactly min(length, n) code points: the whole text when it fits, n code points otherwise; this agrees with `substring(0, n)` only for text without characters outside the Basic Multilingual Plane (see Left out) |
| Text.JoinSplit | src/queries/sql/getValues.ts:31 | joining the parts of a split with the separator gives back the text |
| Text.SplitParts | src/queries/sql/getValues.ts:31 | no part holds the separator, and there is one more part than separators |
| Text.SplitSingle | src/queries/sql/getValues.ts:29-31 | a text splits into one part exactly when it has no separator |
| Text.LikeExact | src/queries/sql/reports/getFunnel.ts:60-62 | a pattern without wildcards matches only itself |
| Text.LikeStartsWith | src/queries/sql/getChannelExpandedMetrics.ts:50 | `v%` matches exactly the texts starting with v |
| Text.LikeEndsWith | src/queries/sql/reports/getFunnel.ts:60-62 | `%v` matches exactly the texts ending with v |
| Text.LikeContains | src/queries/sql/getChannelExpandedMetrics.ts:51-53 | `%v%` matches exactly the texts containing v |
| Text.ILikeContains | src/queries/sql/getChannelExpandedMetrics.ts:83-84 | ILIKE `%v%` is containment after lower-casing both sides |
| Text.EscapedLiteralRoundTrip | src/queries/sql/getChannelExpandedMetrics.ts:116 | a string literal with its quotes doubled reads back as the original text |
| Text.EscapeQuotesNoQuote | src/queries/sql/getChannelExpandedMetrics.ts:116 | a value without quotes is inlined as it is |

## Left out

- SQL text is not generated. Each report states which rows its query
  returns, and the plans record their choices as data. The only SQL text
  modelled is the literal escaping of inlined lists.
- totaltime (`getTimestampDiffSQL`) is left out because it is floating-point
  time arithmetic.
- The channel report's final `y: Number(item.y)` mapping is left out. Its
  query selects no `y` column, so the mapping only adds a `y` field converted
  from an absent value; that is serialisation, not a row the query returns.
- Funnel.ResultAt: dropoff is stated only for a positive previous count, and
  remaining only for a positive first count. Their NaN and ±Infinity values
  are modelled without rounding, and shown by Funnel.TwoStepScenario. Finite
  values are exact reals, not IEEE doubles.
- Attribution.TargetOf: the event type it picks is handed to `parseFilters`
  in the source. The filter is an uninterpreted predicate here, so nothing
  reads that type.
- Events.Column: an unknown column name is NULL in the model. In the source
  the name is inlined into the SQL text, so an unknown one is an SQL error.
- PageviewMetrics.XOf: for entry and exit reports the source reads
  `x.${column}` from a subquery that selects only url_path, so only the
  url_path column is valid there. The model reads any column of the boundary
  event.
- Metrics.Limit, Metrics.Offset: limit and offset are `number | string` and
  inlined raw into the SQL. The model takes them as natural numbers, so
  negative, fractional or non-numeric values and the SQL errors they cause
  are not modelled.
- SessionData.StoredKeyUpdated: this is stated for tables with one row per
  session and key. When a key is stored twice, `find` returns only the first
  snapshot record, so only that row is updated. SessionData.MatchedRowUpdated
  states that general case.
- Funnel window: `getAddIntervalQuery` is not part of this model. A window of
  w minutes is read as w × 60 seconds on integer timestamps.
- `parseFilters` and the cohort and session joins it returns are not part of
  this model. They are one uninterpreted event predicate per report. In the
  channel report that predicate also holds the date clause.
  - Events carry the columns of their joined session row.
  - getValues' inner join with `session` is read as keeping every event.
  - The attribution referrer query's `join session s` is read the same way.
  - That query's unqualified `hostname` is read as the event's hostname.
- These helpers are parameters, not definitions: `getSearchSQL`,
  `getDateWeeklySQL` (with its `utc` time zone), `flattenJSON`,
  `getStringValue`, `new Date(...)`, `uuid()`, `hasPermission` and
  `getWebsite`.
  - `uuid()` is modelled as a function of the item's position.
  - The uniqueness of generated ids is a precondition of the session-data
    lemmas, not a proven fact.
- The constant tables are parameters: FILTER_COLUMNS, SESSION_COLUMNS, the
  channel domain lists, GROUPED_DOMAINS, PERMISSIONS.websiteCreate and the
  URL, title and event-name length limits.
- Channels.ClassifyIsReference and Clauses.ClauseIsContainment hold only for
  list values without `%` or `_`. A value with `_` (such as an `li_fat_id`
  parameter name) keeps its LIKE meaning in Channels.Classify.
- Text.Truncate, SaveEvent.TruncateOpt, SaveEvent.StoredEventName, SaveEvent.EventRecord, SaveEvent.TruncationLength:
  lengths count code points, because strings are `seq<char>`. JavaScript's
  `substring(0, n)` counts UTF-16 code units. A string with characters
  outside the Basic Multilingual Plane is therefore cut at a different
  place: 501 emoji cut to 500 keep 250 emoji in the source and 500 in the
  model. A cut that splits a surrogate pair leaves a lone surrogate in the
  source. The model cannot represent that, so it is not modelled.
- LIKE's backslash escape is not modelled.
  - ILIKE and `lower(...)` lower-case only ASCII letters.
  - `left(language, 2)` counts characters of `seq<char>`, not grapheme
    clusters.
  - Group names such as `group.domain` are inlined without escaping, and the
    model takes them as plain text.
- Ties in ORDER BY are broken by input order (a stable sort); SQL leaves that
  order unspecified.
- `decodeURIComponent` is not modelled. The decoded search term is an input;
  a malformed term, which throws, is not modelled.
- Revenue amounts are exact numbers: integers in the attribution report and
  reals on the save path. The database's decimal rounding is not modelled.
- The `BigInt.prototype.toJSON` patch (src/lib/db.ts:5-7) is left out because
  it is serialisation only. So are the `Number(...)` conversions of counts.
- The write paths model only these outcomes: the rows written, and the
  "record to update not found" error of saveSessionData. Concurrency, await
  interleaving and other database failures are not modelled.
- saveRevenue is not part of this model. The revenue row is the argument
  record it receives, and saveEvent passes it no url path.
- Attribution.RevenuePairsFrom: a `path` step with currency compares
  `revenue.url_path`, a column the save path never fills. The model reads it
  as NULL, so the step matches no revenue row (Attribution.PathStepNoRevenue).
  If the table has no such column at all, the source's query is an SQL
  error, which is not modelled.
- The session fields that saveEvent receives are not modelled, because it
  never stores them.
- No other query file of the repository is part of this model. That includes
  getRevenue, getGoal, getUTM, getWebsiteStats, getActiveVisitors,
  getWebsiteDateRange, the event-data and session-data read queries, and the
  Avatar component.
