/**
 * The funnel report: step matching, the per-step query plan built by folding
 * over the steps, the meaning of the chain of session levels, and the
 * post-processing of level counts into visitors, previous, dropped, dropoff and
 * remaining.
 */
module Funnel {
  import opened Wrappers
  import opened Text
  import opened Events
  import Aggregate

  /** One funnel step: its type ("path" or anything else) and its value. */
  datatype Step = Step(stepType: string, value: string)

  datatype Operator = EqualsOp | LikeOp

  /** How a step is compared: column, operator and the value bound to its placeholder. */
  datatype Matcher = Matcher(column: string, op: Operator, param: string)

  /** A step value that starts or ends with `*` is a pattern. */
  predicate IsWildcard(v: string) {
    |v| > 0 && (v[0] == '*' || v[|v| - 1] == '*')
  }

  /** `value.replace(/^\*|\*$/g, '%')`: a leading and a trailing `*` each become `%`. */
  function WildcardToPattern(v: string): (p: string)
    ensures |p| == |v|
    ensures forall k :: 0 < k < |v| - 1 ==> p[k] == v[k]
    ensures |v| > 0 ==> p[0] == (if v[0] == '*' then '%' else v[0])
    ensures |v| > 1 ==> p[|v| - 1] == (if v[|v| - 1] == '*' then '%' else v[|v| - 1])
  {
    if |v| == 0 then v
    else if |v| == 1 then (if v[0] == '*' then "%" else v)
    else
      (if v[0] == '*' then "%" else [v[0]]) + v[1..|v| - 1] +
      (if v[|v| - 1] == '*' then "%" else [v[|v| - 1]])
  }

  /** The column, operator and parameter value of a step. */
  function StepMatcher(step: Step): (m: Matcher)
    ensures m.column == if step.stepType == "path" then "url_path" else "event_name"
    ensures IsWildcard(step.value) ==> m.op == LikeOp && m.param == WildcardToPattern(step.value)
    ensures !IsWildcard(step.value) ==> m.op == EqualsOp && m.param == step.value
  {
    var column := if step.stepType == "path" then "url_path" else "event_name";
    if IsWildcard(step.value) then Matcher(column, LikeOp, WildcardToPattern(step.value))
    else Matcher(column, EqualsOp, step.value)
  }

  /** `column operator param` holds for event `e`. */
  predicate MatcherHolds(e: Event, m: Matcher) {
    var col := Column(e, m.column);
    match m.op
    case EqualsOp => EqualsText(col, m.param)
    case LikeOp => col.Some? && Like(col.value, m.param)
  }

  /**
   * With a plain middle part `m`, the three wildcard forms mean "contains",
   * "ends with" and "starts with" on the step's column.
   */
  lemma WildcardStepMeaning(e: Event, stepType: string, m: string)
    requires WildcardFree(m) && '*' !in m
    ensures var col := Column(e, StepMatcher(Step(stepType, "*" + m + "*")).column);
      MatcherHolds(e, StepMatcher(Step(stepType, "*" + m + "*"))) <==> col.Some? && Contains(col.value, m)
    ensures var col := Column(e, StepMatcher(Step(stepType, "*" + m)).column);
      MatcherHolds(e, StepMatcher(Step(stepType, "*" + m))) <==> col.Some? && IsSuffix(m, col.value)
    ensures var col := Column(e, StepMatcher(Step(stepType, m + "*")).column);
      MatcherHolds(e, StepMatcher(Step(stepType, m + "*"))) <==> col.Some? && IsPrefix(m, col.value)
  {
    var col := Column(e, if stepType == "path" then "url_path" else "event_name");
    BothPattern(m);
    LeadPattern(m);
    TrailPattern(m);
    if col.Some? {
      LikeContains(col.value, m);
      LikeEndsWith(col.value, m);
      LikeStartsWith(col.value, m);
    }
  }

  lemma BothPattern(m: string)
    ensures WildcardToPattern("*" + m + "*") == "%" + m + "%"
  {
    var both := "*" + m + "*";
    assert both[1..|both| - 1] == m;
  }

  lemma LeadPattern(m: string)
    requires '*' !in m
    ensures WildcardToPattern("*" + m) == "%" + m
  {
    var lead := "*" + m;
    if |m| > 0 {
      assert lead[|lead| - 1] == m[|m| - 1];
      assert lead[1..|lead| - 1] + [lead[|lead| - 1]] == m;
    }
  }

  lemma TrailPattern(m: string)
    requires '*' !in m
    ensures WildcardToPattern(m + "*") == m + "%"
  {
    var trail := m + "*";
    if |m| > 0 {
      assert trail[0] == m[0];
      assert [trail[0]] + trail[1..|trail| - 1] == m;
    }
  }

  /** A value with no edge `*` is compared for equality and matches only itself. */
  lemma ExactStepMeaning(e: Event, step: Step)
    requires !IsWildcard(step.value)
    ensures MatcherHolds(e, StepMatcher(step)) <==> Column(e, StepMatcher(step).column) == Some(step.value)
  {
  }

  /**
   * One level of the plan: its number, the level it joins (None for level 1,
   * which reads website_event with the filters), the step's column and
   * operator, and the index of the placeholder `{{i}}` holding its value. The
   * step value itself is not part of the plan: it is bound, never inlined.
   */
  datatype LevelQuery = LevelQuery(level: nat, previous: Option<nat>, column: string, op: Operator, placeholder: nat)

  /** One arm of the count query: `[union] select <level> as level, count(distinct session_id)`. */
  datatype CountQuery = CountQuery(level: nat, union: bool)

  function LevelFor(steps: seq<Step>, i: nat): LevelQuery
    requires i < |steps|
  {
    var m := StepMatcher(steps[i]);
    LevelQuery(i + 1, if i == 0 then None else Some(i), m.column, m.op, i)
  }

  /** The joined levels of the first `n` steps: one per step after the first. */
  function JoinedLevels(steps: seq<Step>, n: nat): (ls: seq<LevelQuery>)
    requires n <= |steps|
    ensures |ls| == if n == 0 then 0 else n - 1
    ensures forall j :: 0 <= j < |ls| ==> ls[j] == LevelFor(steps, j + 1)
  {
    if n <= 1 then [] else JoinedLevels(steps, n - 1) + [LevelFor(steps, n - 1)]
  }

  /** The count-query arms of the first `n` steps: level k + 1, a union after the first. */
  function CountArms(n: nat): (cs: seq<CountQuery>)
    ensures |cs| == n && forall k :: 0 <= k < n ==> cs[k] == CountQuery(k + 1, k > 0)
  {
    if n == 0 then [] else CountArms(n - 1) + [CountQuery(n, n - 1 > 0)]
  }

  /** The bound parameter values of the first `n` steps, in step order. */
  function StepParams(steps: seq<Step>, n: nat): (ps: seq<string>)
    requires n <= |steps|
    ensures |ps| == n && forall k :: 0 <= k < n ==> ps[k] == StepMatcher(steps[k]).param
  {
    if n == 0 then [] else StepParams(steps, n - 1) + [StepMatcher(steps[n - 1]).param]
  }

  /**
   * getFunnelQuery: the `reduce` over the steps, which sets the level-one
   * query, appends one joined level per further step, appends one arm of the
   * count query per step and pushes each step's parameter value.
   */
  method GetFunnelQuery(steps: seq<Step>) returns (levelOne: Option<LevelQuery>, levels: seq<LevelQuery>, sums: seq<CountQuery>, params: seq<string>)
    ensures levelOne == if |steps| == 0 then None else Some(LevelFor(steps, 0))
    ensures |levels| == if |steps| == 0 then 0 else |steps| - 1
    ensures forall j :: 0 <= j < |levels| ==> levels[j] == LevelFor(steps, j + 1)
    ensures |sums| == |steps| && forall i :: 0 <= i < |steps| ==> sums[i] == CountQuery(i + 1, i > 0)
    ensures |params| == |steps|
    ensures forall i :: 0 <= i < |steps| ==> params[i] == StepMatcher(steps[i]).param
    ensures levelOne.Some? ==> params[levelOne.value.placeholder] == StepMatcher(steps[0]).param
    ensures forall j :: 0 <= j < |levels| ==> levels[j].placeholder < |params| && params[levels[j].placeholder] == StepMatcher(steps[j + 1]).param
  {
    levelOne, levels, sums, params := None, [], [], [];
    var i := 0;
    while i < |steps|
      invariant 0 <= i <= |steps|
      invariant levelOne == if i == 0 then None else Some(LevelFor(steps, 0))
      invariant levels == JoinedLevels(steps, i)
      invariant sums == CountArms(i)
      invariant params == StepParams(steps, i)
    {
      var levelNumber := i + 1;
      var m := StepMatcher(steps[i]);
      if levelNumber == 1 {
        levelOne := Some(LevelQuery(1, None, m.column, m.op, i));
      } else {
        levels := levels + [LevelQuery(levelNumber, Some(i), m.column, m.op, i)];
      }
      sums := sums + [CountQuery(levelNumber, i > 0)];
      params := params + [m.param];
      i := i + 1;
    }
    assert forall j :: 0 <= j < |levels| ==> levels[j].placeholder == j + 1;
  }

  /** The report's inputs besides steps: website, date range and window in minutes. */
  datatype FunnelWindow = FunnelWindow(websiteId: string, startDate: int, endDate: int, windowMinutes: int)

  const SecondsPerMinute: int := 60

  /** A level: the distinct (session_id, created_at) pairs its query selects. */
  type LevelRows = set<(string, int)>

  /** level1: events of the website in the date range that match step 1 and pass the filters. */
  function LevelOne(events: seq<Event>, w: FunnelWindow, filter: Event -> bool, m: Matcher): LevelRows {
    set e | e in events && InWindow(e, w.websiteId, w.startDate, w.endDate) && MatcherHolds(e, m) && filter(e)
      :: (e.sessionId, e.createdAt)
  }

  /** The event `e` follows the level row `l` within the window and by the end date. */
  predicate Follows(e: Event, l: (string, int), w: FunnelWindow) {
    l.0 == e.sessionId &&
    l.1 <= e.createdAt <= l.1 + w.windowMinutes * SecondsPerMinute &&
    e.createdAt <= w.endDate
  }

  /**
   * level k+1: events of the website joined to a level-k row of the same
   * session, inside [l.created_at, l.created_at + window] and not after the end
   * date, that match step k+1 (the filters and the start date are not applied).
   */
  function NextLevel(events: seq<Event>, w: FunnelWindow, prev: LevelRows, m: Matcher): LevelRows {
    set e, l | e in events && l in prev && e.websiteId == w.websiteId && Follows(e, l, w) && MatcherHolds(e, m)
      :: (e.sessionId, e.createdAt)
  }

  function Level(events: seq<Event>, w: FunnelWindow, filter: Event -> bool, steps: seq<Step>, k: nat): LevelRows
    requires k < |steps|
  {
    if k == 0 then LevelOne(events, w, filter, StepMatcher(steps[0]))
    else NextLevel(events, w, Level(events, w, filter, steps, k - 1), StepMatcher(steps[k]))
  }

  function Sessions(rows: LevelRows): set<string> {
    set p | p in rows :: p.0
  }

  /** Each level-(k+1) row comes from a matching event that follows some level-k row. */
  lemma LevelStepsInWindow(events: seq<Event>, w: FunnelWindow, filter: Event -> bool, steps: seq<Step>, k: nat, p: (string, int))
    requires k + 1 < |steps|
    requires p in Level(events, w, filter, steps, k + 1)
    ensures exists l :: (l in Level(events, w, filter, steps, k) && l.0 == p.0 &&
      l.1 <= p.1 <= l.1 + w.windowMinutes * SecondsPerMinute && p.1 <= w.endDate)
    ensures exists e :: (e in events && e.sessionId == p.0 && e.createdAt == p.1 && e.websiteId == w.websiteId &&
      MatcherHolds(e, StepMatcher(steps[k + 1])))
  {
  }

  /** The sessions of level k+1 are among those of level k. */
  lemma LevelSessionsShrink(events: seq<Event>, w: FunnelWindow, filter: Event -> bool, steps: seq<Step>, k: nat)
    requires k + 1 < |steps|
    ensures Sessions(Level(events, w, filter, steps, k + 1)) <= Sessions(Level(events, w, filter, steps, k))
  {
    forall s | s in Sessions(Level(events, w, filter, steps, k + 1))
      ensures s in Sessions(Level(events, w, filter, steps, k))
    {
      var p :| p in Level(events, w, filter, steps, k + 1) && p.0 == s;
      LevelStepsInWindow(events, w, filter, steps, k, p);
    }
  }

  /** count(distinct session_id) of each level. */
  function LevelCounts(events: seq<Event>, w: FunnelWindow, filter: Event -> bool, steps: seq<Step>): (c: seq<nat>)
    ensures |c| == |steps|
    ensures forall k :: 0 <= k < |steps| ==> c[k] == |Sessions(Level(events, w, filter, steps, k))|
  {
    seq(|steps|, k requires 0 <= k < |steps| => |Sessions(Level(events, w, filter, steps, k))|)
  }

  /** Distinct-session counts never increase from one level to the next. */
  lemma LevelCountsNonIncreasing(events: seq<Event>, w: FunnelWindow, filter: Event -> bool, steps: seq<Step>)
    ensures forall k :: 0 <= k < |steps| - 1 ==>
      LevelCounts(events, w, filter, steps)[k + 1] <= LevelCounts(events, w, filter, steps)[k]
  {
    var c := LevelCounts(events, w, filter, steps);
    forall k | 0 <= k < |steps| - 1
      ensures c[k + 1] <= c[k]
    {
      var next := Sessions(Level(events, w, filter, steps, k + 1));
      var here := Sessions(Level(events, w, filter, steps, k));
      LevelSessionsShrink(events, w, filter, steps, k);
      Aggregate.SubsetCard(next, here);
      assert c[k + 1] == |next| && c[k] == |here|;
    }
  }

  /** One row of the count query's result. */
  datatype CountRow = CountRow(level: nat, count: nat)

  /** The count query's rows, one per step, in level order (ORDER BY level). */
  function CountRows(events: seq<Event>, w: FunnelWindow, filter: Event -> bool, steps: seq<Step>): (rows: seq<CountRow>)
    ensures |rows| == |steps|
    ensures forall k :: 0 <= k < |steps| ==> rows[k] == CountRow(k + 1, LevelCounts(events, w, filter, steps)[k])
  {
    var c := LevelCounts(events, w, filter, steps);
    seq(|steps|, k requires 0 <= k < |steps| => CountRow(k + 1, c[k]))
  }

  /** A JavaScript number as far as the funnel arithmetic can take it (rounding is not modelled). */
  datatype JsNumber = Finite(value: real) | NaN | Infinity | NegInfinity

  /** `a / b` on non-negative counts. */
  function Divide(a: nat, b: nat): JsNumber {
    if b > 0 then Finite(a as real / b as real) else if a == 0 then NaN else Infinity
  }

  /** `1 - x`. */
  function OneMinus(x: JsNumber): JsNumber {
    match x
    case Finite(v) => Finite(1.0 - v)
    case NaN => NaN
    case Infinity => NegInfinity
    case NegInfinity => Infinity
  }

  datatype FunnelResult = FunnelResult(
    stepType: string, value: string,
    visitors: nat, previous: nat, dropped: int, dropoff: JsNumber, remaining: JsNumber)

  /** `Number(results[i]?.count) || 0`. */
  function CountAt(results: seq<CountRow>, i: int): nat {
    if 0 <= i < |results| then results[i].count else 0
  }

  /**
   * Entry `x` formats step `i`: the step's type and value, its count and the
   * previous step's (0 before the first), and, when those are positive, the
   * dropped count, the dropoff ratio and the share of the first step's count.
   */
  predicate Formatted(steps: seq<Step>, results: seq<CountRow>, i: nat, x: FunnelResult)
    requires i < |steps| && |results| > 0
  {
    x.stepType == steps[i].stepType && x.value == steps[i].value &&
    x.visitors == CountAt(results, i) && x.previous == CountAt(results, i - 1) &&
    (x.previous > 0 ==> x.dropped == x.previous - x.visitors && x.dropoff == Finite(1.0 - x.visitors as real / x.previous as real)) &&
    (x.previous == 0 ==> x.dropped == 0) &&
    (results[0].count > 0 ==> x.remaining == Finite(x.visitors as real / results[0].count as real))
  }

  function ResultAt(steps: seq<Step>, results: seq<CountRow>, i: nat): (r: FunnelResult)
    requires i < |steps| && |results| > 0
    ensures Formatted(steps, results, i, r)
  {
    var visitors := CountAt(results, i);
    var previous := CountAt(results, i - 1);
    FunnelResult(
      steps[i].stepType, steps[i].value, visitors, previous,
      if previous > 0 then previous - visitors else 0,
      OneMinus(Divide(visitors, previous)),
      Divide(visitors, results[0].count))
  }

  /**
   * formatResults: one entry per step, in order, each formatting its step.
   * Reading `results[0].count` throws when there are steps but no rows.
   */
  function FormatResults(steps: seq<Step>, results: seq<CountRow>): (r: Result<seq<FunnelResult>>)
    ensures r.Err? <==> |steps| > 0 && |results| == 0
    ensures r.Ok? ==> |r.value| == |steps|
    ensures r.Ok? && |steps| > 0 ==> forall i :: 0 <= i < |steps| ==> Formatted(steps, results, i, r.value[i])
  {
    if |steps| > 0 && |results| == 0 then Err("Cannot read properties of undefined (reading 'count')")
    else if |steps| == 0 then Ok([])
    else Ok(seq(|steps|, i requires 0 <= i < |steps| => ResultAt(steps, results, i)))
  }

  /** Steps past the returned rows count 0; the first step has no previous count and drops nothing. */
  lemma FormatResultsEdges(steps: seq<Step>, results: seq<CountRow>)
    requires |steps| > 0 && |results| > 0
    ensures var r := FormatResults(steps, results);
      r.value[0].previous == 0 && r.value[0].dropped == 0 &&
      forall i :: |results| <= i < |steps| ==> r.value[i].visitors == 0
  {
    assert Formatted(steps, results, 0, FormatResults(steps, results).value[0]);
  }

  /**
   * getFunnel: the level chain's counts formatted. With no steps the query
   * text is only `ORDER BY level`, which the store rejects.
   */
  function GetFunnel(events: seq<Event>, w: FunnelWindow, filter: Event -> bool, steps: seq<Step>): Result<seq<FunnelResult>> {
    if |steps| == 0 then Err("syntax error: empty funnel query")
    else FormatResults(steps, CountRows(events, w, filter, steps))
  }

  /**
   * End to end: one result per step, visitors is the distinct-session count of
   * that step's level, never rising from one step to the next, and the first
   * step has previous = dropped = 0.
   */
  lemma GetFunnelVisitors(events: seq<Event>, w: FunnelWindow, filter: Event -> bool, steps: seq<Step>)
    ensures GetFunnel(events, w, filter, steps).Ok? <==> |steps| > 0
    ensures var r := GetFunnel(events, w, filter, steps);
      r.Ok? ==> (|r.value| == |steps| &&
        (forall k :: 0 <= k < |steps| ==> r.value[k].visitors == |Sessions(Level(events, w, filter, steps, k))|) &&
        (forall k :: 0 <= k < |steps| - 1 ==> r.value[k + 1].visitors <= r.value[k].visitors) &&
        r.value[0].previous == 0 && r.value[0].dropped == 0)
    ensures var r := GetFunnel(events, w, filter, steps);
      r.Ok? ==> forall k :: 1 <= k < |steps| ==>
        r.value[k].previous == r.value[k - 1].visitors && r.value[k].dropped >= 0
  {
    if |steps| > 0 {
      var rows := CountRows(events, w, filter, steps);
      var c := LevelCounts(events, w, filter, steps);
      LevelCountsNonIncreasing(events, w, filter, steps);
      assert GetFunnel(events, w, filter, steps) == FormatResults(steps, rows);
      var r := FormatResults(steps, rows).value;
      forall k | 0 <= k < |steps|
        ensures r[k].visitors == c[k]
        ensures k == 0 ==> r[k].previous == 0 && r[k].dropped == 0
        ensures k > 0 ==> r[k].previous == c[k - 1] && r[k].dropped >= 0
      {
        assert Formatted(steps, rows, k, r[k]);
        assert rows[k].count == c[k];
        if k > 0 {
          assert rows[k - 1].count == c[k - 1];
          assert c[k] <= c[k - 1];
        }
      }
    }
  }

  /**
   * The two-step scenario of 100 sessions at the first step and 40 at the
   * second: the first step's dropoff is 1 - 100/0, minus infinity.
   */
  lemma TwoStepScenario()
    ensures var r := FormatResults([Step("path", "/pricing"), Step("path", "/signup")], [CountRow(1, 100), CountRow(2, 40)]);
      r.Ok? && |r.value| == 2 &&
      r.value[0].visitors == 100 && r.value[1].visitors == 40 &&
      r.value[0].dropped == 0 && r.value[1].dropped == 60 &&
      r.value[0].dropoff == NegInfinity && r.value[1].dropoff == Finite(0.6) &&
      r.value[0].remaining == Finite(1.0) && r.value[1].remaining == Finite(0.4)
  {
  }
}
