/**
 * The ILIKE clauses the reports inline into their SQL: one
 * `column ilike '%value%'` term per listed value, OR-ed together, each value's
 * quotes doubled so that it stays inside its string literal.
 */
module Clauses {
  import opened Wrappers
  import opened Aggregate
  import opened Text

  /** `column ilike pattern` on a nullable column; NULL is never a match. */
  predicate ColumnILike(col: Option<string>, pattern: string) {
    col.Some? && ILike(col.value, pattern)
  }

  /** `column LIKE pattern` on a nullable column. */
  predicate ColumnLike(col: Option<string>, pattern: string) {
    col.Some? && Like(col.value, pattern)
  }

  /** One term of a position clause: `column ilike '<body>'`, with the literal body as inlined. */
  datatype ILikeTerm = ILikeTerm(column: string, body: string)

  /** `toPostgresPositionClause(column, arr)` and `toPostgresLikeClause(column, arr)`: one OR-ed term per value, quotes doubled. */
  function PositionClause(column: string, arr: seq<string>): (ts: seq<ILikeTerm>)
    ensures |ts| == |arr|
  {
    Map(arr, (v: string) => ILikeTerm(column, "%" + EscapeQuotes(v) + "%"))
  }

  /** How the database evaluates the OR of the terms on the column's value: each literal is read back first. */
  predicate ClauseHolds(col: Option<string>, ts: seq<ILikeTerm>) {
    exists k :: 0 <= k < |ts| && LiteralValue(ts[k].body).Some? && ColumnILike(col, LiteralValue(ts[k].body).value)
  }

  /** Reading an inlined term back gives `%v%` for the original value, whatever quotes it holds. */
  lemma PositionClauseRoundTrip(column: string, arr: seq<string>, k: int)
    requires 0 <= k < |arr|
    ensures PositionClause(column, arr)[k].column == column
    ensures LiteralValue(PositionClause(column, arr)[k].body) == Some("%" + arr[k] + "%")
  {
    EscapeQuotesAppend("%", arr[k]);
    EscapeQuotesAppend("%" + arr[k], "%");
    assert EscapeQuotes("%") == "%";
    EscapedLiteralRoundTrip("%" + arr[k] + "%");
  }

  /** The clause holds iff the column ILIKEs `%v%` for some listed value. */
  lemma ClauseMeaning(col: Option<string>, column: string, arr: seq<string>)
    ensures ClauseHolds(col, PositionClause(column, arr)) <==>
      exists k :: 0 <= k < |arr| && ColumnILike(col, "%" + arr[k] + "%")
  {
    var ts := PositionClause(column, arr);
    if ClauseHolds(col, ts) {
      var k :| 0 <= k < |ts| && LiteralValue(ts[k].body).Some? && ColumnILike(col, LiteralValue(ts[k].body).value);
      PositionClauseRoundTrip(column, arr, k);
    }
    if exists k :: 0 <= k < |arr| && ColumnILike(col, "%" + arr[k] + "%") {
      var k :| 0 <= k < |arr| && ColumnILike(col, "%" + arr[k] + "%");
      PositionClauseRoundTrip(column, arr, k);
    }
  }

  /** The column contains, case-insensitively, one of the values. */
  predicate ContainsAny(col: Option<string>, arr: seq<string>) {
    col.Some? && exists k :: 0 <= k < |arr| && Contains(Lower(col.value), Lower(arr[k]))
  }

  predicate AllWildcardFree(arr: seq<string>) {
    forall k :: 0 <= k < |arr| ==> WildcardFree(arr[k])
  }

  /** For wildcard-free values the clause is case-insensitive substring containment. */
  lemma ClauseIsContainment(col: Option<string>, column: string, arr: seq<string>)
    requires AllWildcardFree(arr)
    ensures ClauseHolds(col, PositionClause(column, arr)) <==> ContainsAny(col, arr)
  {
    ClauseMeaning(col, column, arr);
    if col.Some? {
      forall k | 0 <= k < |arr|
        ensures ColumnILike(col, "%" + arr[k] + "%") <==> Contains(Lower(col.value), Lower(arr[k]))
      {
        ILikeContains(col.value, arr[k]);
      }
    }
  }

}
