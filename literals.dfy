// Filter values and their rendering as XQuery string literals (query.py:787-797).
module Literals {
  import opened Wrappers
  import opened Text

  /** A value handed to a filter, in the Python types the query builder distinguishes. */
  datatype FilterValue =
    | Str(s: string)                  // a str or unicode value
    | XmlQuery(xml: string)           // an XmlQuery object, given by its serialised XML
    | Int(n: int)                     // an int or long
    | Bool(b: bool)                   // True or False
    | List(items: seq<FilterValue>)   // a list or tuple

  /** Python truth value of a filter value. */
  predicate Truthy(v: FilterValue)
  {
    match v
    case Str(s) => s != ""
    case XmlQuery(_) => true
    case Int(n) => n != 0
    case Bool(b) => b
    case List(items) => items != []
  }

  /** `escape_string`: double every `"` and then write every `&` as `&amp;`. */
  function EscapeString(s: string): string
  {
    ReplaceAll(ReplaceAll(s, "\"", "\"\""), "&", "&amp;")
  }

  function EscapeChar(c: char): string
  {
    if c == '"' then "\"\"" else if c == '&' then "&amp;" else [c]
  }

  /** The same escape, one character at a time. */
  function EscapeChars(s: string): string
  {
    if |s| == 0 then "" else EscapeChar(s[0]) + EscapeChars(s[1..])
  }

  /** The two successive replacements escape each character independently. */
  lemma {:induction false} EscapeStringPerChar(s: string)
    ensures EscapeString(s) == EscapeChars(s)
    decreases |s|
  {
    if |s| > 0 {
      var q := ReplaceAll(s[1..], "\"", "\"\"");
      var head := if s[0] == '"' then "\"\"" else [s[0]];
      assert ReplaceAll(s, "\"", "\"\"") == head + q;
      ReplaceCharAppend(head, q, '&', "&amp;");
      EscapeStringPerChar(s[1..]);
      if s[0] == '"' {
        assert ReplaceAll(head, "&", "&amp;") == "\"\"" by {
          assert head[1..] == "\"";
          assert head[1..][1..] == "";
        }
      } else if s[0] == '&' {
        assert ReplaceAll(head, "&", "&amp;") == "&amp;" by {
          assert head[1..] == "";
        }
      } else {
        assert ReplaceAll(head, "&", "&amp;") == [s[0]] by {
          assert head[1..] == "";
        }
      }
    }
  }

  /** Characters the escape leaves alone pass through unchanged. */
  lemma {:induction false} EscapeIdentity(s: string)
    requires forall i :: 0 <= i < |s| ==> s[i] != '"' && s[i] != '&'
    ensures EscapeString(s) == s
    decreases |s|
  {
    EscapeStringPerChar(s);
    if |s| > 0 {
      EscapeIdentity(s[1..]);
      EscapeStringPerChar(s[1..]);
      assert s == [s[0]] + s[1..];
    }
  }

  /**
   * `_quote_as_string_literal`: an XmlQuery passes through as its XML; anything else must be
   * a string (the escape calls `replace`, which other values lack).
   */
  function QuoteAsStringLiteral(v: FilterValue): Result<string>
  {
    match v
    case Str(s) => Success("\"" + EscapeString(s) + "\"")
    case XmlQuery(xml) => Success(xml)
    case _ => Failure(AttributeError("replace"))
  }

  /** The character a predefined entity reference at the start of `s` stands for, and its length. */
  function PredefinedEntity(s: string): Option<(char, nat)>
  {
    if StartsWith(s, "&lt;") then Some(('<', 4))
    else if StartsWith(s, "&gt;") then Some(('>', 4))
    else if StartsWith(s, "&amp;") then Some(('&', 5))
    else if StartsWith(s, "&quot;") then Some(('"', 6))
    else if StartsWith(s, "&apos;") then Some(('\'', 6))
    else None
  }

  function Prepend(c: char, r: Option<(string, string)>): Option<(string, string)>
  {
    match r
    case None => None
    case Some((v, rest)) => Some(([c] + v, rest))
  }

  /**
   * Reads the body of a double-quoted XQuery string literal (XQuery 1.0, section 3.1.1):
   * `""` stands for one quote, a predefined entity reference for its character, and the
   * first lone `"` ends the literal.  The result is the literal's value and the text after
   * the closing quote.
   */
  function DecodeBody(s: string): Option<(string, string)>
    decreases |s|
  {
    if |s| == 0 then None
    else if s[0] == '"' then
      if |s| >= 2 && s[1] == '"' then Prepend('"', DecodeBody(s[2..])) else Some(("", s[1..]))
    else if s[0] == '&' then
      match PredefinedEntity(s)
      case None => None
      case Some((c, n)) => Prepend(c, DecodeBody(s[n..]))
    else Prepend(s[0], DecodeBody(s[1..]))
  }

  /** A double-quoted string literal at the start of `t`: its value and what follows it. */
  function ParseStringLiteral(t: string): Option<(string, string)>
  {
    if |t| > 0 && t[0] == '"' then DecodeBody(t[1..]) else None
  }

  /** Decoding steps over one escaped character. */
  lemma DecodeStep(c: char, tail: string)
    ensures DecodeBody(EscapeChar(c) + tail) == Prepend(c, DecodeBody(tail))
  {
    var t := EscapeChar(c) + tail;
    if c == '"' {
      assert t[2..] == tail;
    } else if c == '&' {
      assert t[..5] == "&amp;";
      assert t[..4] == "&amp";
      assert t[5..] == tail;
    } else {
      assert t[1..] == tail;
    }
  }

  lemma {:induction false} DecodeEscaped(s: string, rest: string)
    requires |rest| == 0 || rest[0] != '"'
    ensures DecodeBody(EscapeChars(s) + "\"" + rest) == Some((s, rest))
    decreases |s|
  {
    if |s| == 0 {
      assert EscapeChars(s) + "\"" + rest == "\"" + rest;
      assert ("\"" + rest)[1..] == rest;
    } else {
      var tail := EscapeChars(s[1..]) + "\"" + rest;
      DecodeEscaped(s[1..], rest);
      assert EscapeChars(s) + "\"" + rest == EscapeChar(s[0]) + tail;
      DecodeStep(s[0], tail);
      assert s == [s[0]] + s[1..];
    }
  }

  /**
   * The quoted form of a string reads back, as an XQuery string literal, to exactly that
   * string, and the literal ends where the quoting ends: the value cannot close the literal
   * early or swallow the text after it.
   */
  lemma QuoteRoundTrip(s: string, rest: string)
    requires |rest| == 0 || rest[0] != '"'
    ensures QuoteAsStringLiteral(Str(s)).Success?
    ensures ParseStringLiteral(QuoteAsStringLiteral(Str(s)).value + rest) == Some((s, rest))
  {
    var q := QuoteAsStringLiteral(Str(s)).value;
    assert q == "\"" + EscapeString(s) + "\"";
    EscapeStringPerChar(s);
    var t := q + rest;
    assert t[0] == '"' && t[1..] == EscapeChars(s) + "\"" + rest;
    assert ParseStringLiteral(t) == DecodeBody(t[1..]);
    DecodeEscaped(s, rest);
  }

  /** Distinct strings give distinct literals. */
  lemma QuoteInjective(s: string, u: string)
    requires QuoteAsStringLiteral(Str(s)) == QuoteAsStringLiteral(Str(u))
    ensures s == u
  {
    QuoteRoundTrip(s, "");
    QuoteRoundTrip(u, "");
    assert QuoteAsStringLiteral(Str(s)).value + "" == QuoteAsStringLiteral(Str(s)).value;
    assert QuoteAsStringLiteral(Str(u)).value + "" == QuoteAsStringLiteral(Str(u)).value;
  }
}
