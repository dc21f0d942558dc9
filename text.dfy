/**
 * Strings as the queries and the JavaScript around them treat them: SQL LIKE and
 * ILIKE patterns, substring containment, JavaScript's `split`, `substring` and
 * `padStart`, decimal rendering of small numbers, and the doubling of quotes that
 * makes a value safe to embed in a SQL string literal.
 */
module Text {
  import opened Wrappers
  import Aggregate

  /** ASCII lower-casing, the comparison ILIKE makes. */
  function LowerChar(c: char): char {
    if 'A' <= c <= 'Z' then (c as int + 32) as char else c
  }

  function Lower(s: string): (r: string)
    ensures |r| == |s|
    ensures forall i :: 0 <= i < |s| ==> r[i] == LowerChar(s[i])
  {
    seq(|s|, i requires 0 <= i < |s| => LowerChar(s[i]))
  }

  lemma LowerAppend(a: string, b: string)
    ensures Lower(a + b) == Lower(a) + Lower(b)
  {
  }

  predicate IsPrefix(p: string, s: string) {
    |p| <= |s| && s[..|p|] == p
  }

  predicate IsSuffix(p: string, s: string) {
    |p| <= |s| && s[|s| - |p|..] == p
  }

  /** `v` occurs somewhere inside `s`. */
  predicate Contains(s: string, v: string) {
    exists i :: 0 <= i <= |s| && IsPrefix(v, s[i..])
  }

  /** No character of `s` is a LIKE wildcard. */
  predicate WildcardFree(s: string) {
    forall i :: 0 <= i < |s| ==> s[i] != '%' && s[i] != '_'
  }

  /** SQL LIKE: '%' matches any run of characters and '_' exactly one; the rest match themselves. */
  predicate Like(s: string, p: string)
    decreases |s| + |p|
  {
    if |p| == 0 then |s| == 0
    else if p[0] == '%' then Like(s, p[1..]) || (|s| > 0 && Like(s[1..], p))
    else |s| > 0 && (p[0] == '_' || p[0] == s[0]) && Like(s[1..], p[1..])
  }

  /** SQL ILIKE: LIKE after lower-casing both sides. */
  predicate ILike(s: string, p: string) {
    Like(Lower(s), Lower(p))
  }

  lemma {:induction false} LikeAnything(s: string)
    ensures Like(s, "%")
  {
    if |s| > 0 {
      LikeAnything(s[1..]);
    }
  }

  /** A wildcard-free head of a pattern must match the head of the text literally. */
  lemma {:induction false} LikeLiteralHead(s: string, v: string, q: string)
    requires WildcardFree(v)
    ensures Like(s, v + q) <==> IsPrefix(v, s) && Like(s[|v|..], q)
  {
    if |v| > 0 {
      assert (v + q)[0] == v[0];
      assert (v + q)[1..] == v[1..] + q;
      if |s| > 0 {
        LikeLiteralHead(s[1..], v[1..], q);
        if |v| <= |s| {
          assert s[1..][|v| - 1..] == s[|v|..];
        }
        if IsPrefix(v, s) {
          assert s[1..][..|v| - 1] == v[1..];
        }
        if s[0] == v[0] && IsPrefix(v[1..], s[1..]) {
          assert s[..|v|] == [s[0]] + s[1..][..|v| - 1];
          assert v == [v[0]] + v[1..];
        }
      }
    } else {
      assert v + q == q;
    }
  }

  /** A leading '%' lets the rest of the pattern match any suffix of the text. */
  lemma {:induction false} LikeLeadingPercent(s: string, q: string)
    ensures Like(s, "%" + q) <==> exists i :: 0 <= i <= |s| && Like(s[i..], q)
  {
    var p := "%" + q;
    assert p[1..] == q;
    if |s| == 0 {
      assert s[0..] == s;
    } else {
      LikeLeadingPercent(s[1..], q);
      if Like(s, p) {
        if Like(s, q) {
          assert s[0..] == s;
        } else {
          var i :| 0 <= i <= |s[1..]| && Like(s[1..][i..], q);
          assert s[1..][i..] == s[i + 1..];
        }
      }
      if exists i :: 0 <= i <= |s| && Like(s[i..], q) {
        var i :| 0 <= i <= |s| && Like(s[i..], q);
        if i == 0 {
          assert s[0..] == s;
        } else {
          assert s[1..][i - 1..] == s[i..];
        }
      }
    }
  }

  /** For a wildcard-free value, LIKE with the value plain is equality. */
  lemma LikeExact(s: string, v: string)
    requires WildcardFree(v)
    ensures Like(s, v) <==> s == v
  {
    LikeLiteralHead(s, v, "");
    assert v + "" == v;
  }

  /** `v%` matches exactly the texts that start with `v`. */
  lemma LikeStartsWith(s: string, v: string)
    requires WildcardFree(v)
    ensures Like(s, v + "%") <==> IsPrefix(v, s)
  {
    LikeLiteralHead(s, v, "%");
    if |v| <= |s| {
      LikeAnything(s[|v|..]);
    }
  }

  /** `%v` matches exactly the texts that end with `v`. */
  lemma LikeEndsWith(s: string, v: string)
    requires WildcardFree(v)
    ensures Like(s, "%" + v) <==> IsSuffix(v, s)
  {
    LikeLeadingPercent(s, v);
    if Like(s, "%" + v) {
      var i :| 0 <= i <= |s| && Like(s[i..], v);
      LikeExact(s[i..], v);
    }
    if IsSuffix(v, s) {
      LikeExact(s[|s| - |v|..], v);
    }
  }

  /** `%v%` matches exactly the texts that contain `v`. */
  lemma LikeContains(s: string, v: string)
    requires WildcardFree(v)
    ensures Like(s, "%" + v + "%") <==> Contains(s, v)
  {
    assert "%" + v + "%" == "%" + (v + "%");
    LikeLeadingPercent(s, v + "%");
    if Like(s, "%" + v + "%") {
      var i :| 0 <= i <= |s| && Like(s[i..], v + "%");
      LikeStartsWith(s[i..], v);
    }
    if Contains(s, v) {
      var i :| 0 <= i <= |s| && IsPrefix(v, s[i..]);
      LikeStartsWith(s[i..], v);
    }
  }

  lemma LowerKeepsWildcardFree(v: string)
    requires WildcardFree(v)
    ensures WildcardFree(Lower(v))
  {
  }

  /** `ilike '%v%'` is case-insensitive containment. */
  lemma ILikeContains(s: string, v: string)
    requires WildcardFree(v)
    ensures ILike(s, "%" + v + "%") <==> Contains(Lower(s), Lower(v))
  {
    LowerAppend("%" + v, "%");
    LowerAppend("%", v);
    assert Lower("%") == "%";
    assert Lower("%" + v + "%") == "%" + Lower(v) + "%";
    LowerKeepsWildcardFree(v);
    LikeContains(Lower(s), Lower(v));
  }

  /** JavaScript's `s.substring(0, n)`, counted in code points: the first `n` of them, or all of a shorter string. */
  function Truncate(s: string, n: nat): (r: string)
    ensures |r| <= n && IsPrefix(r, s)
    ensures |s| <= n ==> r == s
    ensures |s| > n ==> |r| == n
  {
    if |s| <= n then s else s[..n]
  }

  /** JavaScript's `s.split(sep)` for a one-character separator. */
  function Split(s: string, sep: char): (parts: seq<string>)
    ensures |parts| >= 1
  {
    if |s| == 0 then [""]
    else
      var rest := Split(s[1..], sep);
      if s[0] == sep then [""] + rest else [[s[0]] + rest[0]] + rest[1..]
  }

  /** JavaScript's `parts.join(sep)`. */
  function Join(parts: seq<string>, sep: char): string
    requires |parts| >= 1
  {
    if |parts| == 1 then parts[0] else parts[0] + [sep] + Join(parts[1..], sep)
  }

  /** Splitting and joining again gives the original text back. */
  lemma {:induction false} JoinSplit(s: string, sep: char)
    ensures Join(Split(s, sep), sep) == s
  {
    if |s| > 0 {
      var rest := Split(s[1..], sep);
      JoinSplit(s[1..], sep);
      if s[0] == sep {
        assert Split(s, sep)[1..] == rest;
        assert s == [sep] + s[1..];
      } else {
        var parts := Split(s, sep);
        if |rest| == 1 {
          assert s == [s[0]] + s[1..];
        } else {
          assert parts[1..] == rest[1..];
          assert Join(rest, sep) == rest[0] + [sep] + Join(rest[1..], sep);
          assert s == [s[0]] + s[1..];
        }
      }
    }
  }

  /** No part of a split contains the separator, and there is one part more than separators. */
  lemma {:induction false} SplitParts(s: string, sep: char)
    ensures forall k :: 0 <= k < |Split(s, sep)| ==> sep !in Split(s, sep)[k]
    ensures |Split(s, sep)| == Aggregate.CountOf(s, sep) + 1
  {
    if |s| > 0 {
      SplitParts(s[1..], sep);
    }
  }

  /** The text has a separator exactly when it splits into more than one part. */
  lemma SplitSingle(s: string, sep: char)
    ensures |Split(s, sep)| == 1 <==> sep !in s
    ensures sep !in s ==> Split(s, sep) == [s]
  {
    SplitParts(s, sep);
    if sep !in s {
      JoinSplit(s, sep);
    }
  }

  /** JavaScript's `value.replace(/'/g, "''")`: double every single quote. */
  function EscapeQuotes(s: string): string {
    if s == [] then [] else (if s[0] == '\'' then "''" else [s[0]]) + EscapeQuotes(s[1..])
  }

  lemma {:induction false} EscapeQuotesAppend(a: string, b: string)
    ensures EscapeQuotes(a + b) == EscapeQuotes(a) + EscapeQuotes(b)
  {
    if a != [] {
      assert (a + b)[1..] == a[1..] + b;
      EscapeQuotesAppend(a[1..], b);
    } else {
      assert a + b == b;
    }
  }

  /**
   * How SQL reads the body of a string literal: a doubled quote stands for one
   * quote, and a lone quote would end the literal early (None).
   */
  function LiteralValue(body: string): Option<string> {
    if body == [] then Some([])
    else if body[0] == '\'' then
      if |body| >= 2 && body[1] == '\'' then
        match LiteralValue(body[2..])
        case Some(rest) => Some("'" + rest)
        case None => None
      else None
    else
      match LiteralValue(body[1..])
      case Some(rest) => Some([body[0]] + rest)
      case None => None
  }

  /** Escaping with `EscapeQuotes` and reading the literal back gives the original value. */
  lemma {:induction false} EscapedLiteralRoundTrip(s: string)
    ensures LiteralValue(EscapeQuotes(s)) == Some(s)
  {
    if s != [] {
      EscapedLiteralRoundTrip(s[1..]);
      var e := EscapeQuotes(s);
      if s[0] == '\'' {
        assert e[2..] == EscapeQuotes(s[1..]);
      } else {
        assert e[1..] == EscapeQuotes(s[1..]);
      }
      assert s == [s[0]] + s[1..];
    }
  }

  /** A value without quotes is its own literal body. */
  lemma {:induction false} EscapeQuotesNoQuote(s: string)
    requires '\'' !in s
    ensures EscapeQuotes(s) == s
  {
    if s != [] {
      EscapeQuotesNoQuote(s[1..]);
      assert s == [s[0]] + s[1..];
    }
  }

  /** The decimal digit for `d`. */
  function Digit(d: nat): char
    requires d < 10
  {
    "0123456789"[d]
  }

  /** JavaScript's `String(n)` (and `${n}` in a template) for a natural number. */
  function NatToString(n: nat): (r: string)
    ensures |r| >= 1
  {
    if n < 10 then [Digit(n)] else NatToString(n / 10) + [Digit(n % 10)]
  }

  /** JavaScript's `s.padStart(width, '0')`. */
  function PadStart(s: string, width: nat, fill: char): (r: string)
    ensures |r| == if |s| < width then width else |s|
    decreases width - |s|
  {
    if |s| >= width then s else PadStart([fill] + s, width, fill)
  }
}
