// Raw xpaths in projections and sorts (`return_only(..., raw=True)` and `sort_raw`,
// query.py:1004, 1172-1187, 1228): Python's `%` formatting with the FLWOR variable.
module RawXPath {
  import opened Wrappers
  import opened Text
  import opened Binding

  /**
   * Python's `%` with the mapping `{'xq_var': '$n'}`: `%%` is a literal percent sign,
   * `%(xq_var)s` the FLWOR variable, any other key a KeyError.  Flags, widths and other
   * conversions are reported as FormatError.
   */
  function RawFormat(s: string): Result<string>
    decreases |s|
  {
    if |s| == 0 then Success("")
    else if s[0] != '%' then
      var r :- RawFormat(s[1..]); Success([s[0]] + r)
    else if |s| == 1 then Failure(ValueError("incomplete format"))
    else if s[1] == '%' then
      var r :- RawFormat(s[2..]); Success("%" + r)
    else if s[1] == '(' then
      var j := Find(s[2..], ")");
      if j < 0 then Failure(ValueError("incomplete format key"))
      else if s[2..2 + j] != "xq_var" then Failure(KeyError(s[2..2 + j]))
      else if 3 + j >= |s| then Failure(ValueError("incomplete format"))
      else if s[3 + j] != 's' then Failure(FormatError([s[3 + j]]))
      else
        var r :- RawFormat(s[4 + j..]); Success(XqVar + r)
    else Failure(FormatError([s[1]]))
  }

  /** Text without a percent sign comes through unchanged. */
  lemma {:induction false} RawFormatPlain(s: string)
    requires forall i :: 0 <= i < |s| ==> s[i] != '%'
    ensures RawFormat(s) == Success(s)
    decreases |s|
  {
    if |s| > 0 {
      RawFormatPlain(s[1..]);
      assert s == [s[0]] + s[1..];
    }
  }

  /** Text without a percent sign before a formattable rest comes through unchanged. */
  lemma {:induction false} RawFormatPlainPrefix(p: string, t: string)
    requires forall i :: 0 <= i < |p| ==> p[i] != '%'
    requires RawFormat(t).Success?
    ensures RawFormat(p + t) == Success(p + RawFormat(t).value)
    decreases |p|
  {
    if |p| == 0 {
      assert p + t == t;
      assert p + RawFormat(t).value == RawFormat(t).value;
    } else {
      var u := p + t;
      assert u[0] == p[0] && u[1..] == p[1..] + t;
      RawFormatPlainPrefix(p[1..], t);
      assert p + RawFormat(t).value == [p[0]] + (p[1..] + RawFormat(t).value);
    }
  }

  /** A key with one `%(xq_var)s` between plain text becomes that text around the FLWOR variable. */
  lemma RawFormatOneVariable(p: string, q: string)
    requires forall i :: 0 <= i < |p| ==> p[i] != '%'
    requires forall i :: 0 <= i < |q| ==> q[i] != '%'
    ensures RawFormat(p + "%(xq_var)s" + q) == Success(p + XqVar + q)
  {
    RawFormatPlain(q);
    RawFormatVariable(q);
    RawFormatPlainPrefix(p, "%(xq_var)s" + q);
    assert p + "%(xq_var)s" + q == p + ("%(xq_var)s" + q);
    assert p + (XqVar + q) == p + XqVar + q;
  }

  /** Doubling every percent sign is undone by the formatting: `%%` is how to write a plain `%`. */
  lemma {:induction false} RawFormatEscaped(s: string)
    ensures RawFormat(ReplaceAll(s, "%", "%%")) == Success(s)
    decreases |s|
  {
    if |s| > 0 {
      RawFormatEscaped(s[1..]);
      var t := ReplaceAll(s, "%", "%%");
      if s[0] == '%' {
        assert t == "%%" + ReplaceAll(s[1..], "%", "%%");
        assert t[2..] == ReplaceAll(s[1..], "%", "%%");
        assert s == "%" + s[1..];
      } else {
        assert t == [s[0]] + ReplaceAll(s[1..], "%", "%%");
        assert t[1..] == ReplaceAll(s[1..], "%", "%%");
        assert s == [s[0]] + s[1..];
      }
    }
  }

  /** `%(xq_var)s` becomes the FLWOR variable. */
  lemma RawFormatVariable(t: string)
    ensures RawFormat("%(xq_var)s" + t) == (match RawFormat(t) case Success(r) => Success(XqVar + r) case Failure(e) => Failure(e))
  {
    var s := "%(xq_var)s" + t;
    var u := s[2..];
    assert u == "xq_var)s" + t;
    assert OccursAt(u, ")", 6) by {
      assert u[6..7] == ")";
    }
    if Find(u, ")") < 0 || 6 < Find(u, ")") {
      FindFirst(u, ")", 6);
    }
    FindOccurs(u, ")");
    var j := Find(u, ")");
    assert u[j..j + 1] == ")";
    assert u[j] == ')';
    assert j == 6;
    assert s[2..8] == "xq_var";
    assert s[10..] == t;
  }
}
