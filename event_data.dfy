/**
 * saveEventData: the flattened properties of one event become `event_data`
 * rows, one per key, all linked to the event and written by one createMany.
 */
module EventData {
  import opened Wrappers
  import opened DataFields

  /** An `event_data` record. */
  datatype EventDataRow = EventDataRow(
    id: string,
    websiteEventId: string,
    websiteId: string,
    dataKey: string,
    stringValue: string,
    numberValue: Option<RawValue>,
    dateValue: Option<int>,
    dataType: DataType,
    createdAt: Option<int>)

  /** The arguments of saveEventData; `items` is flattenJSON(eventData). */
  datatype SaveEventDataArgs = SaveEventDataArgs(
    websiteId: string,
    eventId: string,
    sessionId: Option<string>,
    urlPath: Option<string>,
    eventName: Option<string>,
    items: seq<FlatItem>,
    createdAt: Option<int>)

  function DataRow(args: SaveEventDataArgs, a: FlatItem, k: nat, h: Helpers): EventDataRow {
    EventDataRow(h.uuid(k), args.eventId, args.websiteId, a.key, h.stringValue(a.value, a.dataType),
      NumberValue(a), DateValue(a, h), a.dataType, args.createdAt)
  }

  /**
   * `flattenedData`: exactly one row per flattened key, in order, each linked to
   * the event and sharing the website and createdAt of the arguments.
   */
  function EventDataRows(args: SaveEventDataArgs, h: Helpers): (rs: seq<EventDataRow>)
    ensures |rs| == |args.items|
    ensures forall k :: 0 <= k < |rs| ==>
      rs[k].id == h.uuid(k) && rs[k].websiteEventId == args.eventId &&
      rs[k].websiteId == args.websiteId && rs[k].createdAt == args.createdAt &&
      rs[k].dataKey == args.items[k].key && rs[k].dataType == args.items[k].dataType &&
      rs[k].stringValue == h.stringValue(args.items[k].value, args.items[k].dataType) &&
      rs[k].numberValue == NumberValue(args.items[k]) && rs[k].dateValue == DateValue(args.items[k], h)
    ensures forall k :: 0 <= k < |rs| ==>
      (rs[k].numberValue.Some? <==> args.items[k].dataType == NumberType) &&
      (rs[k].dateValue.Some? <==> args.items[k].dataType == DateType)
  {
    seq(|args.items|, k requires 0 <= k < |args.items| => DataRow(args, args.items[k], k, h))
  }

  /** sessionId, urlPath and eventName are accepted but stored nowhere. */
  lemma UnstoredArguments(args: SaveEventDataArgs, sessionId: Option<string>, urlPath: Option<string>, eventName: Option<string>, h: Helpers)
    ensures EventDataRows(args.(sessionId := sessionId, urlPath := urlPath, eventName := eventName), h) == EventDataRows(args, h)
  {
    var other := args.(sessionId := sessionId, urlPath := urlPath, eventName := eventName);
    assert forall k :: 0 <= k < |args.items| ==> DataRow(other, args.items[k], k, h) == DataRow(args, args.items[k], k, h);
  }
}
