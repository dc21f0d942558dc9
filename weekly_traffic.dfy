/**
 * getWeeklyTraffic: distinct sessions per (weekday, hour) slot, laid out as a
 * 7 x 24 heat-map grid. The query groups events by the `d:hh` key that
 * getDateWeeklySQL renders; `formatResults` then looks every grid cell up by
 * that key.
 */
module WeeklyTraffic {
  import opened Wrappers
  import opened Aggregate
  import opened Text
  import opened Events

  /** The query always renders slots in UTC. */
  const Timezone: string := "utc"

  const Days: nat := 7
  const Hours: nat := 24

  /** One row of the query result: the slot key and its count (absent or NULL values allowed). */
  datatype WeeklyRow = WeeklyRow(time: string, value: Option<int>)

  /** The key of cell [i][j]: `${i}:${j.toString().padStart(2, '0')}`. */
  function HourKey(i: nat, j: nat): string {
    NatToString(i) + ":" + PadStart(NatToString(j), 2, '0')
  }

  /** `data.find(({ time }) => time === key)`: the first row with that key. */
  function FindRow(data: seq<WeeklyRow>, key: string): (r: Option<WeeklyRow>)
    ensures r.Some? ==> exists k :: (0 <= k < |data| && data[k] == r.value &&
      r.value.time == key && forall m :: 0 <= m < k ==> data[m].time != key)
    ensures r.None? <==> forall k :: 0 <= k < |data| ==> data[k].time != key
  {
    if data == [] then None
    else if data[0].time == key then Some(data[0])
    else
      var r := FindRow(data[1..], key);
      r
  }

  /** `Number(row?.value || 0)`: a missing row, a NULL value and 0 all give 0. */
  function CellValue(data: seq<WeeklyRow>, i: nat, j: nat): int {
    var r := FindRow(data, HourKey(i, j));
    if r.Some? && r.value.value.Some? then r.value.value.value else 0
  }

  /** formatResults: seven rows of twenty-four cells, each looked up by its key. */
  method FormatResults(data: seq<WeeklyRow>) returns (days: seq<seq<int>>)
    ensures |days| == Days
    ensures forall i :: 0 <= i < |days| ==> |days[i]| == Hours
    ensures forall i, j :: 0 <= i < Days && 0 <= j < Hours ==> days[i][j] == CellValue(data, i, j)
  {
    days := [];
    var i := 0;
    while i < Days
      invariant 0 <= i <= Days
      invariant |days| == i
      invariant forall a :: 0 <= a < i ==> |days[a]| == Hours
      invariant forall a, b :: 0 <= a < i && 0 <= b < Hours ==> days[a][b] == CellValue(data, a, b)
    {
      var day: seq<int> := [];
      var j := 0;
      while j < Hours
        invariant 0 <= j <= Hours
        invariant |day| == j
        invariant forall b :: 0 <= b < j ==> day[b] == CellValue(data, i, b)
      {
        var found := FindRow(data, HourKey(i, j));
        var cell := 0;
        if found.Some? && found.value.value.Some? && found.value.value.value != 0 {
          cell := found.value.value.value;
        }
        day := day + [cell];
        j := j + 1;
      }
      days := days + [day];
      i := i + 1;
    }
  }

  /** A grid key is four characters: the weekday digit, ':', and the hour's two digits. */
  lemma HourKeyDigits(i: nat, j: nat)
    requires i < Days && j < Hours
    ensures HourKey(i, j) == [Digit(i), ':', Digit(j / 10), Digit(j % 10)]
  {
    if j < 10 {
      assert PadStart([Digit(j)], 2, '0') == PadStart(['0', Digit(j)], 2, '0');
      assert Digit(0) == '0';
    } else {
      assert NatToString(j) == NatToString(j / 10) + [Digit(j % 10)];
    }
  }

  lemma DigitInjective(a: nat, b: nat)
    requires a < 10 && b < 10 && Digit(a) == Digit(b)
    ensures a == b
  {
  }

  /** Distinct cells have distinct keys, so no query row can fill two cells. */
  lemma HourKeyInjective(i: nat, j: nat, i': nat, j': nat)
    requires i < Days && j < Hours && i' < Days && j' < Hours
    requires HourKey(i, j) == HourKey(i', j')
    ensures i == i' && j == j'
  {
    HourKeyDigits(i, j);
    HourKeyDigits(i', j');
    assert HourKey(i, j)[0] == Digit(i) && HourKey(i', j')[0] == Digit(i');
    assert HourKey(i, j)[2] == Digit(j / 10) && HourKey(i', j')[2] == Digit(j' / 10);
    assert HourKey(i, j)[3] == Digit(j % 10) && HourKey(i', j')[3] == Digit(j' % 10);
    DigitInjective(i, i');
    DigitInjective(j / 10, j' / 10);
    DigitInjective(j % 10, j' % 10);
  }

  /** The hour is zero-padded and the weekday is not. */
  lemma HourKeyExamples()
    ensures HourKey(3, 5) == "3:05"
    ensures HourKey(0, 13) == "0:13"
  {
    HourKeyDigits(3, 5);
    HourKeyDigits(0, 13);
  }

  /** A row with a key the grid uses. */
  predicate InGrid(r: WeeklyRow) {
    exists i: nat, j: nat :: i < Days && j < Hours && r.time == HourKey(i, j)
  }

  /** Dropping rows that lack `key` does not change which row `find` returns for it. */
  lemma {:induction false} FindRowIgnoresOthers(data: seq<WeeklyRow>, key: string, p: WeeklyRow -> bool)
    requires forall r :: r in data && r.time == key ==> p(r)
    ensures FindRow(Filter(data, p), key) == FindRow(data, key)
  {
    if data != [] {
      FindRowIgnoresOthers(data[1..], key, p);
      var rest := Filter(data[1..], p);
      if p(data[0]) {
        assert Filter(data, p) == [data[0]] + rest;
        assert ([data[0]] + rest)[1..] == rest;
      } else {
        assert Filter(data, p) == rest;
      }
    }
  }

  /** Rows whose key lies outside the grid affect no cell. */
  lemma RowsOutsideGridIgnored(data: seq<WeeklyRow>, i: nat, j: nat)
    requires i < Days && j < Hours
    ensures CellValue(Filter(data, InGrid), i, j) == CellValue(data, i, j)
  {
    forall r | r in data && r.time == HourKey(i, j) ensures InGrid(r) {
    }
    FindRowIgnoresOthers(data, HourKey(i, j), InGrid);
  }

  /** Only the first row with a cell's key counts; later duplicates are ignored. */
  lemma FirstRowWins(data: seq<WeeklyRow>, extra: WeeklyRow, i: nat, j: nat)
    requires FindRow(data, HourKey(i, j)).Some?
    ensures CellValue(data + [extra], i, j) == CellValue(data, i, j)
  {
    FindRowAppend(data, [extra], HourKey(i, j));
  }

  lemma {:induction false} FindRowAppend(a: seq<WeeklyRow>, b: seq<WeeklyRow>, key: string)
    requires FindRow(a, key).Some?
    ensures FindRow(a + b, key) == FindRow(a, key)
  {
    if a[0].time != key {
      assert (a + b)[1..] == a[1..] + b;
      FindRowAppend(a[1..], b, key);
    }
  }

  /** The events the query counts. `filter` stands for parseFilters' fragments. */
  predicate Selected(e: Event, websiteId: string, startDate: int, endDate: int, filter: Event -> bool) {
    InWindow(e, websiteId, startDate, endDate) && filter(e)
  }

  function SelectedEvents(events: seq<Event>, websiteId: string, startDate: int, endDate: int, filter: Event -> bool): seq<Event> {
    Filter(events, (e: Event) => Selected(e, websiteId, startDate, endDate, filter))
  }

  /** The slot key getDateWeeklySQL gives an event; `slot` stands for that hidden helper. */
  function SlotOf(e: Event, slot: (int, string) -> string): string {
    slot(e.createdAt, Timezone)
  }

  function SessionOf(e: Event): string {
    e.sessionId
  }

  /** The selected events in slot `t`. */
  function SlotEvents(es: seq<Event>, slot: (int, string) -> string, t: string): seq<Event> {
    Filter(es, (e: Event) => SlotOf(e, slot) == t)
  }

  /** `count(distinct session_id)` of slot `t`. */
  function SlotRow(es: seq<Event>, slot: (int, string) -> string, t: string): WeeklyRow {
    WeeklyRow(t, Some(|Dedup(Map(SlotEvents(es, slot, t), SessionOf))|))
  }

  function Slots(es: seq<Event>, slot: (int, string) -> string): seq<string> {
    Dedup(Map(es, (e: Event) => SlotOf(e, slot)))
  }

  /** The rows of the query: one per slot that holds an event, `group by time`. */
  function WeeklyRows(events: seq<Event>, websiteId: string, startDate: int, endDate: int, filter: Event -> bool, slot: (int, string) -> string): seq<WeeklyRow> {
    var es := SelectedEvents(events, websiteId, startDate, endDate, filter);
    Map(Slots(es, slot), (t: string) => SlotRow(es, slot, t))
  }

  /** getWeeklyTraffic: the query rows formatted into the grid. */
  method GetWeeklyTraffic(events: seq<Event>, websiteId: string, startDate: int, endDate: int, filter: Event -> bool, slot: (int, string) -> string)
    returns (days: seq<seq<int>>)
    ensures |days| == Days && forall i :: 0 <= i < |days| ==> |days[i]| == Hours
    ensures forall i, j :: 0 <= i < Days && 0 <= j < Hours ==>
      days[i][j] == CellValue(WeeklyRows(events, websiteId, startDate, endDate, filter, slot), i, j)
  {
    days := FormatResults(WeeklyRows(events, websiteId, startDate, endDate, filter, slot));
  }

  /**
   * Each grid cell is the number of distinct sessions with a selected event in
   * that slot, and 0 when the slot is empty.
   */
  lemma CellIsDistinctSessions(events: seq<Event>, websiteId: string, startDate: int, endDate: int, filter: Event -> bool, slot: (int, string) -> string, i: nat, j: nat)
    requires i < Days && j < Hours
    ensures var es := SelectedEvents(events, websiteId, startDate, endDate, filter);
      CellValue(WeeklyRows(events, websiteId, startDate, endDate, filter, slot), i, j) ==
      |Dedup(Map(SlotEvents(es, slot, HourKey(i, j)), SessionOf))|
  {
    var es := SelectedEvents(events, websiteId, startDate, endDate, filter);
    var key := HourKey(i, j);
    var rows := WeeklyRows(events, websiteId, startDate, endDate, filter, slot);
    var ts := Slots(es, slot);
    var found := FindRow(rows, key);
    if found.Some? {
      var k :| 0 <= k < |rows| && rows[k] == found.value && found.value.time == key;
      assert rows[k] == SlotRow(es, slot, ts[k]);
    } else {
      var m := Map(es, (e: Event) => SlotOf(e, slot));
      assert key !in m;
      forall e | e in es ensures SlotOf(e, slot) != key {
        var n :| 0 <= n < |es| && es[n] == e;
        assert m[n] == SlotOf(e, slot);
      }
      FilterNone(es, (e: Event) => SlotOf(e, slot) == key);
    }
  }
}
