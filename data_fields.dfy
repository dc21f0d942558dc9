/**
 * The typed key/value pairs that event data and session data are stored as.
 * A payload is flattened (by flattenJSON, which is not part of this model) into
 * items carrying a dotted key, the raw JSON value and its data type; each item
 * becomes one stored row with a string rendering of the value and, for numbers
 * and dates, a typed copy.
 */
module DataFields {
  import opened Wrappers

  /** The data types a flattened value can have (the numeric codes of DATA_TYPE are not part of this model). */
  datatype DataType = StringType | NumberType | BooleanType | DateType | ArrayType

  /** A raw JSON value. */
  datatype RawValue = JsonText(text: string) | JsonNumber(number: real) | JsonBool(flag: bool) | JsonOther

  /** One flattened key of a payload: `{ key, value, dataType }`. */
  datatype FlatItem = FlatItem(key: string, value: RawValue, dataType: DataType)

  /**
   * The foreign helpers a row mapping calls: getStringValue, `new Date(value)`
   * as a timestamp, and the id that the k-th call of uuid() returns.
   */
  datatype Helpers = Helpers(
    stringValue: (RawValue, DataType) -> string,
    toDate: RawValue -> int,
    uuid: nat -> string)

  /** `dataType === DATA_TYPE.number ? value : null`. */
  function NumberValue(a: FlatItem): (r: Option<RawValue>)
    ensures r.Some? <==> a.dataType == NumberType
    ensures r.Some? ==> r.value == a.value
  {
    if a.dataType == NumberType then Some(a.value) else None
  }

  /** `dataType === DATA_TYPE.date ? new Date(value) : null`. */
  function DateValue(a: FlatItem, h: Helpers): (r: Option<int>)
    ensures r.Some? <==> a.dataType == DateType
    ensures r.Some? ==> r.value == h.toDate(a.value)
  {
    if a.dataType == DateType then Some(h.toDate(a.value)) else None
  }

  /** A value carries at most one typed copy: a number or a date, never both. */
  lemma TypedCopiesExclusive(a: FlatItem, h: Helpers)
    ensures !(NumberValue(a).Some? && DateValue(a, h).Some?)
    ensures a.dataType == StringType ==> NumberValue(a).None? && DateValue(a, h).None?
  {
  }
}
