/**
 * lib/db: the database type named by the connection URL's scheme, and the
 * dispatch that runs the relational variant of a query.
 */
module Db {
  import opened Wrappers
  import opened Text

  const Prisma: string := "prisma"
  const PostgreSQL: string := "postgresql"

  /**
   * `t` is the text of `s` before its first `sep`: a prefix without `sep`,
   * followed by `sep` or by the end of `s`.
   */
  predicate FirstField(t: string, s: string, sep: char) {
    IsPrefix(t, s) && sep !in t && (|t| == |s| || s[|t|] == sep)
  }

  /** `s.split(sep)[0]` is the text before the first separator. */
  lemma {:induction false} SplitHead(s: string, sep: char)
    ensures FirstField(Split(s, sep)[0], s, sep)
  {
    if |s| > 0 && s[0] != sep {
      SplitHead(s[1..], sep);
      var t := Split(s[1..], sep)[0];
      assert Split(s, sep)[0] == [s[0]] + t;
      assert s == [s[0]] + s[1..];
    }
  }

  /** The first field is unique. */
  lemma FirstFieldUnique(t: string, u: string, s: string, sep: char)
    requires FirstField(t, s, sep) && FirstField(u, s, sep)
    ensures t == u
  {
  }

  /** getDatabaseType: `url?.split(':')[0]`, with `postgres` read as `postgresql`. */
  function GetDatabaseType(url: Option<string>): (r: Option<string>)
    ensures r.None? <==> url.None?
    ensures url.Some? ==> forall t :: FirstField(t, url.value, ':') ==>
      r.value == if t == "postgres" then PostgreSQL else t
  {
    match url
    case None => None
    case Some(u) =>
      var t := Split(u, ':')[0];
      SplitHead(u, ':');
      assert forall v :: FirstField(v, u, ':') ==> v == t by {
        forall v | FirstField(v, u, ':') ensures v == t {
          FirstFieldUnique(v, t, u, ':');
        }
      }
      if t == "postgres" then Some(PostgreSQL) else Some(t)
  }

  /** The type follows from the first field alone. */
  lemma TypeOfFirstField(u: string, t: string)
    requires FirstField(t, u, ':')
    ensures GetDatabaseType(Some(u)) == Some(if t == "postgres" then PostgreSQL else t)
  {
  }

  /** A `postgres` scheme is renamed. */
  lemma PostgresRenamed()
    ensures GetDatabaseType(Some("postgres://h")) == Some(PostgreSQL)
  {
    var p := "postgres://h";
    assert p[..8] == "postgres" && p[8] == ':';
    TypeOfFirstField(p, "postgres");
  }

  /** A `postgresql` scheme is kept. */
  lemma PostgresqlKept()
    ensures GetDatabaseType(Some("postgresql://h")) == Some(PostgreSQL)
  {
    var q := "postgresql://h";
    assert q[..10] == "postgresql" && q[10] == ':';
    TypeOfFirstField(q, "postgresql");
  }

  /** Any other scheme is returned as it is. */
  lemma OtherSchemeKept()
    ensures GetDatabaseType(Some("mysql://h")) == Some("mysql")
  {
    var m := "mysql://h";
    assert m[..5] == "mysql" && m[5] == ':';
    TypeOfFirstField(m, "mysql");
  }

  /** A URL without ':' is returned whole. */
  lemma NoColonWhole(u: string)
    requires ':' !in u && u != "postgres"
    ensures GetDatabaseType(Some(u)) == Some(u)
  {
    TypeOfFirstField(u, u);
  }

  /** runQuery: call the `prisma` entry; a missing entry is not a function and throws. */
  function RunQuery<T>(queries: map<string, T>): (r: Result<T>)
    ensures r.Ok? <==> Prisma in queries
    ensures r.Ok? ==> r.value == queries[Prisma]
  {
    if Prisma in queries then Ok(queries[Prisma]) else Err(TypeError)
  }

  const TypeError: string := "TypeError"

  /** Entries other than `prisma` are never run. */
  lemma RunQueryIgnoresOthers<T>(queries: map<string, T>, k: string, v: T)
    requires k != Prisma
    ensures RunQuery(queries[k := v]) == RunQuery(queries)
  {
  }

  /** notImplemented: always throws. */
  function NotImplemented<T>(): (r: Result<T>)
    ensures r.Err? && r.error == "Not implemented."
  {
    Err("Not implemented.")
  }
}
