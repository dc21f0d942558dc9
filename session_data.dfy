/**
 * saveSessionData: store the flattened properties of a session. The rows of
 * the session already in the table are read once; then, item by item, a key
 * found in that snapshot updates the stored record (by its id) and any other
 * key creates a record. Nothing is deleted.
 */
module SessionData {
  import opened Wrappers
  import opened Aggregate
  import opened DataFields

  /** A `session_data` record. `distinctId` and `createdAt` are optional arguments. */
  datatype SessionDataRow = SessionDataRow(
    id: string,
    websiteId: string,
    sessionId: string,
    dataKey: string,
    stringValue: string,
    numberValue: Option<RawValue>,
    dateValue: Option<int>,
    dataType: DataType,
    distinctId: Option<string>,
    createdAt: Option<int>)

  /** The row `flattenedData` holds for the k-th item. */
  function CandidateRow(websiteId: string, sessionId: string, a: FlatItem, k: nat,
                        distinctId: Option<string>, createdAt: Option<int>, h: Helpers): SessionDataRow {
    SessionDataRow(h.uuid(k), websiteId, sessionId, a.key, h.stringValue(a.value, a.dataType),
      NumberValue(a), DateValue(a, h), a.dataType, distinctId, createdAt)
  }

  /**
   * `flattenedData`: one row per flattened key, in order, all sharing the
   * website, the session, distinctId and createdAt.
   */
  function CandidateRows(websiteId: string, sessionId: string, items: seq<FlatItem>,
                         distinctId: Option<string>, createdAt: Option<int>, h: Helpers): (rs: seq<SessionDataRow>)
    ensures |rs| == |items|
    ensures forall k :: 0 <= k < |rs| ==>
      rs[k].id == h.uuid(k) && rs[k].dataKey == items[k].key && rs[k].dataType == items[k].dataType &&
      rs[k].websiteId == websiteId && rs[k].sessionId == sessionId &&
      rs[k].distinctId == distinctId && rs[k].createdAt == createdAt &&
      rs[k].stringValue == h.stringValue(items[k].value, items[k].dataType) &&
      rs[k].numberValue == NumberValue(items[k]) && rs[k].dateValue == DateValue(items[k], h)
    ensures forall k :: 0 <= k < |rs| ==>
      (rs[k].numberValue.Some? <==> items[k].dataType == NumberType) &&
      (rs[k].dateValue.Some? <==> items[k].dataType == DateType)
  {
    seq(|items|, k requires 0 <= k < |items| => CandidateRow(websiteId, sessionId, items[k], k, distinctId, createdAt, h))
  }

  /** The columns the snapshot selects: `{ id, sessionId, dataKey }`. */
  datatype ExistingRef = ExistingRef(id: string, sessionId: string, dataKey: string)

  function RefOf(r: SessionDataRow): ExistingRef {
    ExistingRef(r.id, r.sessionId, r.dataKey)
  }

  /** `findMany({ where: { sessionId } })`: the snapshot taken before the loop. */
  function Existing(rows: seq<SessionDataRow>, sessionId: string): seq<ExistingRef> {
    Map(Filter(rows, (r: SessionDataRow) => r.sessionId == sessionId), RefOf)
  }

  /** Every reference in `ex` names a row of `rows` with the same id, session and key. */
  predicate SnapshotOf(rows: seq<SessionDataRow>, ex: seq<ExistingRef>) {
    forall e :: e in ex ==> exists j :: 0 <= j < |rows| && RefOf(rows[j]) == e
  }

  lemma ExistingIsSnapshot(rows: seq<SessionDataRow>, sessionId: string)
    ensures SnapshotOf(rows, Existing(rows, sessionId))
    ensures forall e :: e in Existing(rows, sessionId) ==> e.sessionId == sessionId
  {
    var f := Filter(rows, (r: SessionDataRow) => r.sessionId == sessionId);
    var ex := Existing(rows, sessionId);
    forall e | e in ex ensures (exists j :: 0 <= j < |rows| && RefOf(rows[j]) == e) && e.sessionId == sessionId {
      var i :| 0 <= i < |ex| && ex[i] == e;
      assert f[i] in f;
      var j :| 0 <= j < |rows| && rows[j] == f[i];
      assert RefOf(rows[j]) == e;
    }
  }

  /** `existing.find(e => e.sessionId === sessionId && e.dataKey === dataKey)`. */
  function FindRecord(ex: seq<ExistingRef>, sessionId: string, dataKey: string): (r: Option<ExistingRef>)
    ensures r.Some? ==> r.value in ex && r.value.sessionId == sessionId && r.value.dataKey == dataKey
    ensures r.None? <==> forall e :: e in ex ==> !(e.sessionId == sessionId && e.dataKey == dataKey)
  {
    if ex == [] then None
    else if ex[0].sessionId == sessionId && ex[0].dataKey == dataKey then Some(ex[0])
    else FindRecord(ex[1..], sessionId, dataKey)
  }

  /**
   * `update({ where: { id }, data: props })`: every field but sessionId and
   * dataKey is written, the new id included. An undefined optional field
   * (distinctId, createdAt) leaves the stored value as it was.
   */
  function Updated(r: SessionDataRow, data: SessionDataRow): (u: SessionDataRow)
    ensures u.sessionId == r.sessionId && u.dataKey == r.dataKey
    ensures u.id == data.id && u.websiteId == data.websiteId && u.stringValue == data.stringValue &&
      u.numberValue == data.numberValue && u.dateValue == data.dateValue && u.dataType == data.dataType
    ensures u.distinctId == (if data.distinctId.Some? then data.distinctId else r.distinctId)
    ensures u.createdAt == (if data.createdAt.Some? then data.createdAt else r.createdAt)
  {
    r.(id := data.id, websiteId := data.websiteId, stringValue := data.stringValue,
       numberValue := data.numberValue, dateValue := data.dateValue, dataType := data.dataType,
       distinctId := if data.distinctId.Some? then data.distinctId else r.distinctId,
       createdAt := if data.createdAt.Some? then data.createdAt else r.createdAt)
  }

  predicate HasId(rows: seq<SessionDataRow>, id: string) {
    exists i :: 0 <= i < |rows| && rows[i].id == id
  }

  /** The table after updating the record with `id`. */
  function ReplaceById(rows: seq<SessionDataRow>, id: string, data: SessionDataRow): (r: seq<SessionDataRow>)
    ensures |r| == |rows|
    ensures forall i :: 0 <= i < |rows| ==> r[i] == if rows[i].id == id then Updated(rows[i], data) else rows[i]
  {
    seq(|rows|, i requires 0 <= i < |rows| => if rows[i].id == id then Updated(rows[i], data) else rows[i])
  }

  /**
   * The table while the loop runs, and the error that ends it: the id of a
   * snapshot record that is no longer in the table ("record to update not found").
   */
  datatype Upserted = Upserted(rows: seq<SessionDataRow>, error: Option<string>)

  /** One iteration of the loop; an earlier error has already stopped it. */
  function Step(st: Upserted, ex: seq<ExistingRef>, data: SessionDataRow): Upserted {
    if st.error.Some? then st
    else
      var record := FindRecord(ex, data.sessionId, data.dataKey);
      if record.None? then Upserted(st.rows + [data], None)
      else if HasId(st.rows, record.value.id) then Upserted(ReplaceById(st.rows, record.value.id, data), None)
      else Upserted(st.rows, Some(record.value.id))
  }

  /** The loop over `cs`, starting from `rows`, with lookups in the snapshot `ex` only. */
  function UpsertAll(rows: seq<SessionDataRow>, ex: seq<ExistingRef>, cs: seq<SessionDataRow>): Upserted {
    if cs == [] then Upserted(rows, None)
    else Step(UpsertAll(rows, ex, cs[..|cs| - 1]), ex, cs[|cs| - 1])
  }

  /** Once an item fails, the remaining items change nothing. */
  lemma {:induction false} ErrorSticks(rows: seq<SessionDataRow>, ex: seq<ExistingRef>, cs: seq<SessionDataRow>, k: nat)
    requires k <= |cs|
    requires UpsertAll(rows, ex, cs[..k]).error.Some?
    ensures UpsertAll(rows, ex, cs) == UpsertAll(rows, ex, cs[..k])
    decreases |cs| - k
  {
    if k < |cs| {
      var init := cs[..|cs| - 1];
      assert init[..k] == cs[..k];
      ErrorSticks(rows, ex, init, k);
    } else {
      assert cs[..k] == cs;
    }
  }

  /** A `session_data` table. */
  class SessionDataTable {
    var rows: seq<SessionDataRow>

    constructor(initial: seq<SessionDataRow>)
      ensures rows == initial
    {
      rows := initial;
    }

    /** saveSessionData; the result is the error that aborted the loop, if any. */
    method SaveSessionData(websiteId: string, sessionId: string, items: seq<FlatItem>,
                           distinctId: Option<string>, createdAt: Option<int>, h: Helpers)
      returns (error: Option<string>)
      modifies this
      ensures var st := UpsertAll(old(rows), Existing(old(rows), sessionId),
                                  CandidateRows(websiteId, sessionId, items, distinctId, createdAt, h));
        rows == st.rows && error == st.error
    {
      var flattened := CandidateRows(websiteId, sessionId, items, distinctId, createdAt, h);
      var existing := Existing(rows, sessionId);
      ghost var start := rows;
      error := None;
      var k := 0;
      while k < |flattened| && error.None?
        invariant 0 <= k <= |flattened|
        invariant UpsertAll(start, existing, flattened[..k]) == Upserted(rows, error)
      {
        var data := flattened[k];
        assert flattened[..k + 1][..k] == flattened[..k];
        assert UpsertAll(start, existing, flattened[..k + 1]) == Step(Upserted(rows, error), existing, data);
        var record := FindRecord(existing, data.sessionId, data.dataKey);
        if record.Some? {
          if HasId(rows, record.value.id) {
            rows := ReplaceById(rows, record.value.id, data);
          } else {
            error := Some(record.value.id);
          }
        } else {
          rows := rows + [data];
        }
        k := k + 1;
      }
      if k < |flattened| {
        ErrorSticks(start, existing, flattened, k);
      }
      assert flattened[..|flattened|] == flattened;
    }
  }

  /** Item `c` has the session and key of stored row `r`. */
  predicate Matches(c: SessionDataRow, r: SessionDataRow) {
    c.sessionId == r.sessionId && c.dataKey == r.dataKey
  }

  /** The primary key: no two stored rows share an id. */
  predicate UniqueIds(rows: seq<SessionDataRow>) {
    forall i, j :: 0 <= i < j < |rows| ==> rows[i].id != rows[j].id
  }

  /** The generated ids are not ids of stored rows. */
  predicate FreshIds(rows: seq<SessionDataRow>, cs: seq<SessionDataRow>) {
    forall c :: c in cs ==> !HasId(rows, c.id)
  }

  /**
   * `t` is `rows` after some of the items `cs`: every stored row is still at its
   * place, unchanged or updated by an item with its session and key, and every
   * added row is one of the items.
   */
  predicate KeepsRows(rows: seq<SessionDataRow>, cs: seq<SessionDataRow>, t: seq<SessionDataRow>) {
    |t| >= |rows| &&
    (forall i :: 0 <= i < |rows| ==>
      t[i] == rows[i] || exists c :: c in cs && Matches(c, rows[i]) && t[i] == Updated(rows[i], c)) &&
    (forall i :: |rows| <= i < |t| ==> t[i] in cs)
  }

  /** The record a snapshot reference names is the one stored row with its id. */
  lemma RecordRow(rows: seq<SessionDataRow>, ex: seq<ExistingRef>, record: ExistingRef) returns (j: nat)
    requires SnapshotOf(rows, ex) && record in ex
    ensures j < |rows| && RefOf(rows[j]) == record
  {
    j :| 0 <= j < |rows| && RefOf(rows[j]) == record;
  }

  /** An update through the snapshot touches only the stored row it names. */
  lemma ReplaceKeepsRows(rows: seq<SessionDataRow>, ex: seq<ExistingRef>, cs: seq<SessionDataRow>,
                         t: seq<SessionDataRow>, last: SessionDataRow)
    requires UniqueIds(rows) && FreshIds(rows, cs) && SnapshotOf(rows, ex)
    requires last in cs && KeepsRows(rows, cs, t)
    requires FindRecord(ex, last.sessionId, last.dataKey).Some?
    ensures KeepsRows(rows, cs, ReplaceById(t, FindRecord(ex, last.sessionId, last.dataKey).value.id, last))
    ensures forall i :: |rows| <= i < |t| ==>
      ReplaceById(t, FindRecord(ex, last.sessionId, last.dataKey).value.id, last)[i] == t[i]
  {
    var record := FindRecord(ex, last.sessionId, last.dataKey).value;
    var next := ReplaceById(t, record.id, last);
    var j := RecordRow(rows, ex, record);
    forall i | 0 <= i < |rows|
      ensures next[i] == rows[i] || exists c :: c in cs && Matches(c, rows[i]) && next[i] == Updated(rows[i], c)
    {
      if t[i].id == record.id && t[i] == rows[i] {
        assert i == j;
        assert Matches(last, rows[i]);
      }
    }
    forall i | |rows| <= i < |t| ensures next[i] == t[i] {
      assert t[i] in cs;
      assert !HasId(rows, t[i].id);
      assert rows[j].id == record.id;
    }
  }

  lemma KeepsRowsWiden(rows: seq<SessionDataRow>, cs: seq<SessionDataRow>, ds: seq<SessionDataRow>, t: seq<SessionDataRow>)
    requires KeepsRows(rows, cs, t)
    requires forall c :: c in cs ==> c in ds
    ensures KeepsRows(rows, ds, t)
  {
  }

  /**
   * Nothing is deleted: every stored row stays where it was, either unchanged or
   * updated by an item with its session and key; a row that no item matches is
   * unchanged; every added row is one of the items.
   */
  lemma {:induction false} UpsertKeepsRows(rows: seq<SessionDataRow>, ex: seq<ExistingRef>, cs: seq<SessionDataRow>)
    requires UniqueIds(rows) && FreshIds(rows, cs) && SnapshotOf(rows, ex)
    ensures KeepsRows(rows, cs, UpsertAll(rows, ex, cs).rows)
    ensures forall i :: 0 <= i < |rows| && (forall c :: c in cs ==> !Matches(c, rows[i])) ==>
      UpsertAll(rows, ex, cs).rows[i] == rows[i]
  {
    if cs != [] {
      var init := cs[..|cs| - 1];
      var last := cs[|cs| - 1];
      assert forall c :: c in init ==> c in cs;
      UpsertKeepsRows(rows, ex, init);
      var prev := UpsertAll(rows, ex, init);
      KeepsRowsWiden(rows, init, cs, prev.rows);
      var record := FindRecord(ex, last.sessionId, last.dataKey);
      if prev.error.None? && record.Some? && HasId(prev.rows, record.value.id) {
        ReplaceKeepsRows(rows, ex, cs, prev.rows, last);
      }
    }
  }

  /** The distinct-key items whose key the snapshot lacks, in order: the ones the loop creates. */
  function NewOnes(ex: seq<ExistingRef>, cs: seq<SessionDataRow>): seq<SessionDataRow> {
    if cs == [] then []
    else
      var last := cs[|cs| - 1];
      NewOnes(ex, cs[..|cs| - 1]) + (if FindRecord(ex, last.sessionId, last.dataKey).None? then [last] else [])
  }

  /**
   * The rows added to the table are exactly the items without a snapshot
   * record, in order: a key created earlier in the same loop is created again,
   * because lookups see only the snapshot.
   */
  lemma {:induction false} CreatedRows(rows: seq<SessionDataRow>, ex: seq<ExistingRef>, cs: seq<SessionDataRow>)
    requires UniqueIds(rows) && FreshIds(rows, cs) && SnapshotOf(rows, ex)
    requires UpsertAll(rows, ex, cs).error.None?
    ensures |UpsertAll(rows, ex, cs).rows| >= |rows|
    ensures UpsertAll(rows, ex, cs).rows[|rows|..] == NewOnes(ex, cs)
  {
    if cs != [] {
      var init := cs[..|cs| - 1];
      var last := cs[|cs| - 1];
      var prev := UpsertAll(rows, ex, init);
      assert UpsertAll(rows, ex, cs) == Step(prev, ex, last);
      assert forall c :: c in init ==> c in cs;
      CreatedRows(rows, ex, init);
      UpsertKeepsRows(rows, ex, init);
      KeepsRowsWiden(rows, init, cs, prev.rows);
      StepAppends(rows, ex, cs, prev, last);
    }
  }

  /** One iteration adds the item when its key is new and leaves the added rows alone otherwise. */
  lemma StepAppends(rows: seq<SessionDataRow>, ex: seq<ExistingRef>, cs: seq<SessionDataRow>, prev: Upserted, last: SessionDataRow)
    requires UniqueIds(rows) && FreshIds(rows, cs) && SnapshotOf(rows, ex)
    requires last in cs && KeepsRows(rows, cs, prev.rows)
    requires Step(prev, ex, last).error.None?
    ensures prev.error.None?
    ensures |Step(prev, ex, last).rows| >= |rows|
    ensures Step(prev, ex, last).rows[|rows|..] ==
      prev.rows[|rows|..] + (if FindRecord(ex, last.sessionId, last.dataKey).None? then [last] else [])
  {
    var record := FindRecord(ex, last.sessionId, last.dataKey);
    if record.None? {
      assert (prev.rows + [last])[|rows|..] == prev.rows[|rows|..] + [last];
    } else {
      assert HasId(prev.rows, record.value.id);
      ReplaceKeepsRows(rows, ex, cs, prev.rows, last);
      var next := ReplaceById(prev.rows, record.value.id, last);
      assert next[|rows|..] == prev.rows[|rows|..];
    }
  }

  /** No two items share a session and key (flattenJSON yields each key once). */
  predicate DistinctKeys(cs: seq<SessionDataRow>) {
    forall a, b :: 0 <= a < b < |cs| ==> !Matches(cs[a], cs[b])
  }

  /**
   * With distinct keys the loop never fails: the record a key finds in the
   * snapshot is still in the table, because no earlier item had that key.
   */
  lemma {:induction false} DistinctKeysNeverFail(rows: seq<SessionDataRow>, ex: seq<ExistingRef>, cs: seq<SessionDataRow>)
    requires UniqueIds(rows) && FreshIds(rows, cs) && SnapshotOf(rows, ex)
    requires DistinctKeys(cs)
    ensures UpsertAll(rows, ex, cs).error.None?
  {
    if cs != [] {
      var init := cs[..|cs| - 1];
      var last := cs[|cs| - 1];
      assert forall c :: c in init ==> c in cs;
      DistinctKeysNeverFail(rows, ex, init);
      UpsertKeepsRows(rows, ex, init);
      var prev := UpsertAll(rows, ex, init);
      var record := FindRecord(ex, last.sessionId, last.dataKey);
      if record.Some? {
        var j :| 0 <= j < |rows| && RefOf(rows[j]) == record.value;
        assert prev.rows[j].id == record.value.id;
      }
    }
  }

  /**
   * A stored row whose snapshot record is the one its key finds is updated by
   * the one item with its session and key, wherever that item comes in the
   * loop, and left as it was when no item has its key.
   */
  lemma {:induction false} MatchedRowUpdated(rows: seq<SessionDataRow>, ex: seq<ExistingRef>, cs: seq<SessionDataRow>,
                                             i: nat, c: SessionDataRow)
    requires UniqueIds(rows) && FreshIds(rows, cs) && SnapshotOf(rows, ex) && DistinctKeys(cs)
    requires i < |rows| && FindRecord(ex, rows[i].sessionId, rows[i].dataKey) == Some(RefOf(rows[i]))
    requires Matches(c, rows[i]) && forall d :: d in cs && Matches(d, rows[i]) ==> d == c
    ensures |UpsertAll(rows, ex, cs).rows| >= |rows|
    ensures UpsertAll(rows, ex, cs).rows[i] == if c in cs then Updated(rows[i], c) else rows[i]
  {
    if cs != [] {
      var init := cs[..|cs| - 1];
      var last := cs[|cs| - 1];
      assert forall d :: d in init ==> d in cs;
      assert DistinctKeys(init) by {
        forall a, b | 0 <= a < b < |init| ensures !Matches(init[a], init[b]) {
          assert init[a] == cs[a] && init[b] == cs[b];
        }
      }
      MatchedRowUpdated(rows, ex, init, i, c);
      DistinctKeysNeverFail(rows, ex, init);
      var prev := UpsertAll(rows, ex, init);
      assert UpsertAll(rows, ex, cs) == Step(prev, ex, last);
      assert c in cs <==> c in init || c == last by {
        assert cs == init + [last];
      }
      if last == c {
        forall a | 0 <= a < |init| ensures init[a] != c {
          assert init[a] == cs[a] && !Matches(cs[a], cs[|cs| - 1]);
        }
      }
      assert last in cs;
      assert c in init ==> !HasId(rows, c.id) by {
        if c in init {
          assert c in cs;
        }
      }
      DistinctKeysNeverFail(rows, ex, cs);
      UpdateStep(rows, ex, prev.rows, last, i, c);
    }
  }

  /** One iteration changes stored row i only when the item is the one with its key. */
  lemma UpdateStep(rows: seq<SessionDataRow>, ex: seq<ExistingRef>, t: seq<SessionDataRow>, last: SessionDataRow,
                   i: nat, c: SessionDataRow)
    requires UniqueIds(rows) && SnapshotOf(rows, ex)
    requires i < |rows| <= |t| && FindRecord(ex, rows[i].sessionId, rows[i].dataKey) == Some(RefOf(rows[i]))
    requires Matches(c, rows[i])
    requires t[i] == rows[i] || (t[i] == Updated(rows[i], c) && !HasId(rows, c.id))
    requires last == c ==> t[i] == rows[i]
    requires last != c ==> !Matches(last, rows[i])
    ensures Step(Upserted(t, None), ex, last).error.None? ==>
      |Step(Upserted(t, None), ex, last).rows| >= |rows| &&
      Step(Upserted(t, None), ex, last).rows[i] == if last == c then Updated(rows[i], c) else t[i]
  {
    var record := FindRecord(ex, last.sessionId, last.dataKey);
    if record.Some? && last != c {
      var j := RecordRow(rows, ex, record.value);
      assert rows[j].id != rows[i].id by {
        assert !Matches(rows[j], rows[i]);
        assert j != i;
      }
      assert t[i] != rows[i] ==> rows[j].id != c.id;
    }
  }

  /** No two stored rows share a session and key. */
  predicate UniqueKeys(rows: seq<SessionDataRow>) {
    forall i, j :: 0 <= i < j < |rows| ==> !Matches(rows[i], rows[j])
  }

  /**
   * saveSessionData on a table with one row per session and key: the stored
   * row an item's key names is updated with that item.
   */
  lemma StoredKeyUpdated(rows: seq<SessionDataRow>, sessionId: string, cs: seq<SessionDataRow>, i: nat, c: SessionDataRow)
    requires UniqueIds(rows) && UniqueKeys(rows) && FreshIds(rows, cs) && DistinctKeys(cs)
    requires i < |rows| && rows[i].sessionId == sessionId
    requires c in cs && Matches(c, rows[i])
    ensures |UpsertAll(rows, Existing(rows, sessionId), cs).rows| >= |rows|
    ensures UpsertAll(rows, Existing(rows, sessionId), cs).rows[i] == Updated(rows[i], c)
  {
    var ex := Existing(rows, sessionId);
    ExistingIsSnapshot(rows, sessionId);
    var f := Filter(rows, (r: SessionDataRow) => r.sessionId == sessionId);
    assert rows[i] in f;
    var k :| 0 <= k < |f| && f[k] == rows[i];
    assert ex[k] == RefOf(rows[i]);
    var record := FindRecord(ex, rows[i].sessionId, rows[i].dataKey);
    assert record.Some?;
    var j := RecordRow(rows, ex, record.value);
    assert Matches(rows[j], rows[i]);
    assert j == i;
    forall d | d in cs && Matches(d, rows[i]) ensures d == c {
      var a :| 0 <= a < |cs| && cs[a] == d;
      var b :| 0 <= b < |cs| && cs[b] == c;
      assert Matches(cs[a], cs[b]);
      assert a == b;
    }
    MatchedRowUpdated(rows, ex, cs, i, c);
  }

  /** Two new items with the same key on an empty table both create a row. */
  lemma SnapshotOnlyExample(a: SessionDataRow, b: SessionDataRow)
    requires Matches(a, b)
    ensures UpsertAll([], Existing([], a.sessionId), [a, b]) == Upserted([a, b], None)
  {
    var ex := Existing([], a.sessionId);
    assert ex == [];
    assert [a, b][..1] == [a];
    assert [a][..0] == [];
    assert UpsertAll([], ex, []) == Upserted([], None);
    assert UpsertAll([], ex, [a]) == Upserted([a], None);
  }
}
