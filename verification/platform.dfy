/**
 * `quoteValue` of the PDO platform, and how MySQL reads the literal it
 * produces. Integers are returned as they are; anything else is cast to a
 * string, escaped with `addcslashes` over NUL, LF, CR, backslash, both
 * quotes and 0x1a, and wrapped in single quotes.
 *
 * The reading side follows the escape table of section "String Literals"
 * of the MySQL 8.0 Reference Manual (backslash escapes enabled).
 */
module Platform {
  import opened Wrappers
  import opened Php

  const Sub: char := '\U{1a}'

  /** The characters `addcslashes` is asked to escape. */
  predicate Special(c: char) {
    c == '\0' || c == '\n' || c == '\r' || c == '\\' || c == '\'' || c == '"' || c == Sub
  }

  /**
   * `addcslashes` on one character of its list: control characters other
   * than the named C escapes become three octal digits.
   */
  function CEscape(c: char): string {
    if c == '\0' then "\\000"
    else if c == '\n' then "\\n"
    else if c == '\r' then "\\r"
    else if c == Sub then "\\032"
    else if c == '\\' || c == '\'' || c == '"' then ['\\', c]
    else [c]
  }

  /** The escape MySQL itself reads back: `\0` and `\Z` for NUL and 0x1a. */
  function MysqlEscape(c: char): string {
    if c == '\0' then "\\0"
    else if c == Sub then "\\Z"
    else CEscape(c)
  }

  /** `addcslashes($s, "\x00\n\r\\'\"\x1a")`. */
  function EscapeAsWritten(s: string): (r: string)
    ensures (forall i :: 0 <= i < |s| ==> !Special(s[i])) ==> r == s
  {
    if |s| == 0 then "" else CEscape(s[0]) + EscapeAsWritten(s[1..])
  }

  /** The escaping the literal needs for MySQL to read the string back. */
  function Escape(s: string): (r: string)
    ensures (forall i :: 0 <= i < |s| ==> !Special(s[i])) ==> r == s
  {
    if |s| == 0 then "" else MysqlEscape(s[0]) + Escape(s[1..])
  }

  /** `quoteValue($value)` as written, floats aside. */
  function QuoteValueAsWritten(v: Value): (r: Value)
    ensures v.Int? ==> r == v
    ensures !v.Int? ==> r.Str? && |r.s| >= 2 && r.s[0] == '\'' && r.s[|r.s| - 1] == '\''
  {
    if v.Int? then v else Str("'" + EscapeAsWritten(StrVal(v)) + "'")
  }

  /** `quoteValue` with MySQL's own escapes for NUL and 0x1a. */
  function QuoteValue(v: Value): (r: Value)
    ensures v.Int? ==> r == v
    ensures !v.Int? ==> r.Str? && |r.s| >= 2 && r.s[0] == '\'' && r.s[|r.s| - 1] == '\''
    ensures v.Str? && (forall i :: 0 <= i < |v.s| ==> !Special(v.s[i])) ==> r == Str("'" + v.s + "'")
  {
    if v.Int? then v else Str("'" + Escape(StrVal(v)) + "'")
  }

  // ---------------------------------------------------------------------------
  // Reading a literal back
  // ---------------------------------------------------------------------------

  /** What MySQL makes of a backslash followed by `x`. */
  function Unescape(x: char): string {
    if x == '0' then "\0"
    else if x == 'b' then "\U{08}"
    else if x == 'n' then "\n"
    else if x == 'r' then "\r"
    else if x == 't' then "\t"
    else if x == 'Z' then [Sub]
    else if x == '%' || x == '_' then ['\\', x]
    else [x]
  }

  function Prefix(x: string, o: Option<(string, string)>): Option<(string, string)> {
    match o
    case None => None
    case Some((v, rest)) => Some((x + v, rest))
  }

  /**
   * The body of a single-quoted literal up to its closing quote: the value
   * read and the text after the quote. A doubled quote stands for one quote.
   */
  function ReadBody(t: string): Option<(string, string)>
    decreases |t|
  {
    if |t| == 0 then None
    else if t[0] == '\'' then
      if |t| >= 2 && t[1] == '\'' then Prefix("'", ReadBody(t[2..])) else Some(("", t[1..]))
    else if t[0] == '\\' then
      if |t| < 2 then None else Prefix(Unescape(t[1]), ReadBody(t[2..]))
    else Prefix([t[0]], ReadBody(t[1..]))
  }

  /** A single-quoted literal at the start of `t`. */
  function ReadLiteral(t: string): Option<(string, string)> {
    if |t| > 0 && t[0] == '\'' then ReadBody(t[1..]) else None
  }

  lemma PrefixConcat(a: string, b: string, o: Option<(string, string)>)
    ensures Prefix(a, Prefix(b, o)) == Prefix(a + b, o)
  {
    if o.Some? {
      assert a + (b + o.value.0) == (a + b) + o.value.0;
    }
  }

  /** One escaped character reads back as that character. */
  lemma ReadEscaped(c: char, t: string)
    ensures ReadBody(MysqlEscape(c) + t) == Prefix([c], ReadBody(t))
  {
    var e := MysqlEscape(c);
    if |e| == 2 {
      assert (e + t)[0] == '\\' && (e + t)[1] == e[1] && (e + t)[2..] == t;
      assert Unescape(e[1]) == [c];
    } else {
      assert (e + t)[0] == c && (e + t)[1..] == t;
    }
  }

  /** What MySQL reads from the as-written escape of one character. */
  function ReadAsWritten(c: char): string {
    if c == '\0' then "\0" + "00"
    else if c == Sub then "\0" + "32"
    else [c]
  }

  /** A character that is neither a quote nor a backslash reads as itself. */
  lemma ReadPlain(c: char, t: string)
    requires c != '\'' && c != '\\'
    ensures ReadBody([c] + t) == Prefix([c], ReadBody(t))
  {
    assert ([c] + t)[0] == c && ([c] + t)[1..] == t;
  }

  /** A backslash and `x` read as `Unescape(x)`. */
  lemma ReadBackslash(x: char, t: string)
    ensures ReadBody(['\\', x] + t) == Prefix(Unescape(x), ReadBody(t))
  {
    assert (['\\', x] + t)[0] == '\\' && (['\\', x] + t)[1] == x && (['\\', x] + t)[2..] == t;
  }

  /** `\ooo` reads as NUL followed by the two last digits. */
  lemma ReadOctal(d1: char, d2: char, t: string)
    requires IsDigit(d1) && IsDigit(d2)
    ensures ReadBody(['\\', '0', d1, d2] + t) == Prefix(['\0', d1, d2], ReadBody(t))
  {
    assert ['\\', '0', d1, d2] + t == ['\\', '0'] + ([d1] + ([d2] + t));
    ReadBackslash('0', [d1] + ([d2] + t));
    ReadPlain(d1, [d2] + t);
    ReadPlain(d2, t);
    PrefixConcat([d1], [d2], ReadBody(t));
    PrefixConcat("\0", [d1] + [d2], ReadBody(t));
    assert "\0" + ([d1] + [d2]) == ['\0', d1, d2];
  }

  lemma ReadCEscaped(c: char, t: string)
    ensures ReadBody(CEscape(c) + t) == Prefix(ReadAsWritten(c), ReadBody(t))
  {
    if c == '\0' {
      assert CEscape(c) == ['\\', '0', '0', '0'];
      assert ReadAsWritten(c) == ['\0', '0', '0'];
      ReadOctal('0', '0', t);
    } else if c == Sub {
      assert CEscape(c) == ['\\', '0', '3', '2'];
      assert ReadAsWritten(c) == ['\0', '3', '2'];
      ReadOctal('3', '2', t);
    } else if Special(c) {
      assert CEscape(c) == ['\\', CEscape(c)[1]];
      ReadBackslash(CEscape(c)[1], t);
    } else {
      ReadPlain(c, t);
    }
  }

  /** The escaped body followed by the closing quote reads back as the string. */
  lemma {:induction false} ReadBodyOfEscape(s: string, rest: string)
    requires |rest| == 0 || rest[0] != '\''
    ensures ReadBody(Escape(s) + "'" + rest) == Some((s, rest))
    decreases |s|
  {
    if |s| == 0 {
      assert Escape(s) + "'" + rest == "'" + rest;
      assert ("'" + rest)[1..] == rest;
    } else {
      var t := Escape(s[1..]) + "'" + rest;
      assert Escape(s) + "'" + rest == MysqlEscape(s[0]) + t;
      ReadEscaped(s[0], t);
      ReadBodyOfEscape(s[1..], rest);
      assert [s[0]] + s[1..] == s;
    }
  }

  lemma Quoted(s: string, rest: string)
    ensures QuoteValue(Str(s)).s + rest == "'" + (Escape(s) + "'" + rest)
  {
  }

  lemma ReadQuoted(body: string)
    ensures ReadLiteral("'" + body) == ReadBody(body)
  {
    assert ("'" + body)[1..] == body;
  }

  /**
   * A quoted string is one whole literal: MySQL reads exactly the original
   * string, and the literal ends at the closing delimiter, leaving what
   * follows untouched.
   */
  lemma QuoteRoundTrip(s: string, rest: string)
    requires |rest| == 0 || rest[0] != '\''
    ensures ReadLiteral(QuoteValue(Str(s)).s + rest) == Some((s, rest))
  {
    var body := Escape(s) + "'" + rest;
    Quoted(s, rest);
    ReadQuoted(body);
    ReadBodyOfEscape(s, rest);
  }

  /** What MySQL reads from the literal as written: NUL and 0x1a come back as NUL and two digits. */
  function ReadBackAsWritten(s: string): (r: string)
    ensures (forall i :: 0 <= i < |s| ==> s[i] != '\0' && s[i] != Sub) ==> r == s
  {
    if |s| == 0 then "" else ReadAsWritten(s[0]) + ReadBackAsWritten(s[1..])
  }

  lemma {:induction false} ReadBodyOfEscapeAsWritten(s: string, rest: string)
    requires |rest| == 0 || rest[0] != '\''
    ensures ReadBody(EscapeAsWritten(s) + "'" + rest) == Some((ReadBackAsWritten(s), rest))
    decreases |s|
  {
    if |s| == 0 {
      assert EscapeAsWritten(s) + "'" + rest == "'" + rest;
      assert ("'" + rest)[1..] == rest;
    } else {
      var t := EscapeAsWritten(s[1..]) + "'" + rest;
      assert EscapeAsWritten(s) + "'" + rest == CEscape(s[0]) + t;
      ReadCEscaped(s[0], t);
      ReadBodyOfEscapeAsWritten(s[1..], rest);
    }
  }

  /**
   * The literal as written also ends exactly at its closing delimiter, so no
   * input breaks out of it; but a NUL in the string is read back as NUL
   * followed by `00`.
   */
  lemma QuoteAsWrittenMisreadsNul(s: string, rest: string)
    requires |rest| == 0 || rest[0] != '\''
    ensures ReadLiteral(QuoteValueAsWritten(Str(s)).s + rest) == Some((ReadBackAsWritten(s), rest))
  {
    var body := EscapeAsWritten(s) + "'" + rest;
    QuotedAsWritten(s, rest);
    ReadQuoted(body);
    ReadBodyOfEscapeAsWritten(s, rest);
  }

  lemma QuotedAsWritten(s: string, rest: string)
    ensures QuoteValueAsWritten(Str(s)).s + rest == "'" + (EscapeAsWritten(s) + "'" + rest)
  {
  }

  /** The string holding one NUL is quoted as `'\000'`, which MySQL reads as NUL, `0`, `0`. */
  lemma NulMisread()
    ensures QuoteValueAsWritten(Str("\0")) == Str("'\\000'")
    ensures ReadLiteral(QuoteValueAsWritten(Str("\0")).s) == Some(("\0" + "00", ""))
    ensures ReadLiteral(QuoteValue(Str("\0")).s) == Some(("\0", ""))
  {
    assert EscapeAsWritten("\0") == "\\000" by {
      assert EscapeAsWritten("\0") == CEscape('\0') + EscapeAsWritten("");
    }
    assert ReadBackAsWritten("\0") == "\0" + "00" by {
      assert ReadBackAsWritten("\0") == ReadAsWritten('\0') + ReadBackAsWritten("");
    }
    NoRest(QuoteValueAsWritten(Str("\0")).s);
    QuoteAsWrittenMisreadsNul("\0", "");
    NoRest(QuoteValue(Str("\0")).s);
    QuoteRoundTrip("\0", "");
  }

  lemma NoRest(q: string)
    ensures q + "" == q
  {
  }

  /** The two escapings differ only on NUL and 0x1a. */
  lemma {:induction false} EscapesAgree(s: string)
    requires forall i :: 0 <= i < |s| ==> s[i] != '\0' && s[i] != Sub
    ensures Escape(s) == EscapeAsWritten(s)
    decreases |s|
  {
    if |s| > 0 {
      EscapesAgree(s[1..]);
    }
  }
}
