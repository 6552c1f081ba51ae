// The message of an eXist exception (`ExistDBException.message`, exceptions.py:26-52) and
// the exception subtypes that share it (exceptions.py:55-65).
module Errors {
  import opened Wrappers
  import opened Text

  /**
   * The exception an `ExistDBException` wraps.  A socket timeout is a socket error with
   * `timeout` set (it is a subclass of `socket.error`); anything else is known only by
   * its `str`, which is also the `str` of the wrapping exception.
   */
  datatype Wrapped =
    | SocketError(timeout: bool, errno: int, text: string)
    | ProtocolError(url: string, errcode: int, errmsg: string)
    | Other(text: string)

  /** `ExistDBException` and its subtypes; all of them carry the wrapped exception. */
  datatype Kind = Base | DoesNotExist | ReturnedMultiple | Timeout

  datatype ExistError = ExistError(kind: Kind, orig: Wrapped)

  /** `silent_variable_failure`: only `DoesNotExist` is silent in a template. */
  predicate SilentVariableFailure(k: Kind)
  {
    k == Kind.DoesNotExist
  }

  const RpcPrefix: string := "RpcConnection: "

  /** The characters stripped from both ends before looking for the prefix. */
  const Quotes: set<char> := {'\'', '<', '>', '"'}

  /** The noise the eXist server puts before xmldb and xpath error texts. */
  function Denoise(m: string): string
  {
    var m1 := ReplaceAll(m, "org.exist.xquery.XPathException: ", "");
    var m2 := ReplaceAll(m1, "XMLDB exception caught: ", "");
    ReplaceAll(m2, "[at line 1, column 1]", "")
  }

  /**
   * `message()`.  `unquote` stands for `urllib.unquote_plus`.  Splitting on the prefix
   * must give exactly two pieces, or the unpacking raises ValueError.
   */
  function Message(e: ExistError, unquote: string -> string): Result<string>
  {
    match e.orig
    case SocketError(timeout, _, text) =>
      if timeout then Success("Request Timed Out") else Success("I/O Error: " + text)
    case ProtocolError(url, code, msg) =>
      Success("XMLRPC Error at " + url + ": " + IntToString(code) + " " + unquote(msg))
    case Other(text) =>
      if Contains(text, RpcPrefix) then
        var parts := Split(Strip(text, Quotes), RpcPrefix);
        if |parts| != 2 then Failure(ValueError("wrong number of values to unpack"))
        else Success(Denoise(parts[1]))
      else Success(text)
  }

  /** A timeout is recognised before the general socket error, whatever its errno and text. */
  lemma TimeoutFirst(k: Kind, errno: int, text: string, unquote: string -> string)
    ensures Message(ExistError(k, SocketError(true, errno, text)), unquote) == Success("Request Timed Out")
    ensures Message(ExistError(k, SocketError(false, errno, text)), unquote) == Success("I/O Error: " + text)
  {
  }

  /** A protocol error's message names the URL, the code and the unquoted message. */
  lemma ProtocolMessage(k: Kind, url: string, code: int, msg: string, unquote: string -> string)
    ensures var m := Message(ExistError(k, ProtocolError(url, code, msg)), unquote);
            && m.Success?
            && StartsWith(m.value, "XMLRPC Error at ")
            && Contains(m.value, url) && Contains(m.value, IntToString(code)) && Contains(m.value, unquote(msg))
  {
    var a := "XMLRPC Error at ";
    var c := IntToString(code);
    var u := unquote(msg);
    var m := a + url + ": " + c + " " + u;
    assert m[..|a|] == a;
    assert OccursAt(m, url, |a|) by {
      assert m[|a|..|a| + |url|] == url;
    }
    var i := |a| + |url| + 2;
    assert OccursAt(m, c, i) by {
      assert m[i..i + |c|] == c;
    }
    var j := i + |c| + 1;
    assert OccursAt(m, u, j) by {
      assert m[j..] == u;
      assert j + |u| == |m|;
    }
  }

  /** Text without the prefix is passed through unchanged. */
  lemma PlainMessage(k: Kind, text: string, unquote: string -> string)
    requires !Contains(text, RpcPrefix)
    ensures Message(ExistError(k, Other(text)), unquote) == Success(text)
  {
  }

  /** The prefix's first character occurs nowhere else in it. */
  lemma PrefixHeadUnique()
    ensures |RpcPrefix| > 0 && forall k :: 0 < k < |RpcPrefix| ==> RpcPrefix[k] != RpcPrefix[0]
  {
  }

  /** A string free of `sep` cannot hold an occurrence that starts inside it and runs on into `sep`. */
  lemma NoStraddle(a: string, sep: string, rest: string)
    requires |sep| > 0 && forall k :: 0 < k < |sep| ==> sep[k] != sep[0]
    requires !Contains(a, sep)
    ensures forall i :: 0 <= i < |a| ==> !OccursAt(a + sep + rest, sep, i)
  {
    var s := a + sep + rest;
    forall i | 0 <= i < |a| ensures !OccursAt(s, sep, i) {
      if i + |sep| <= |a| {
        assert s[i..i + |sep|] == a[i..i + |sep|];
        assert !OccursAt(a, sep, i);
      } else if i + |sep| <= |s| {
        assert s[|a|] == sep[0];
        assert s[i..i + |sep|][|a| - i] == s[|a|];
        assert sep[|a| - i] != sep[0];
      }
    }
  }

  /** An occurrence at the very front closes an empty first piece. */
  lemma {:induction false} SplitAt(a: string, sep: string, rest: string)
    requires |sep| > 0
    requires forall i :: 0 <= i < |a| ==> !OccursAt(a + sep + rest, sep, i)
    ensures Split(a + sep + rest, sep) == [a] + Split(rest, sep)
    decreases |a|
  {
    var s := a + sep + rest;
    if |a| == 0 {
      assert s == sep + rest;
      assert s[..|sep|] == sep;
      assert s[|sep|..] == rest;
    } else {
      assert !OccursAt(s, sep, 0);
      assert !StartsWith(s, sep);
      var t := a[1..];
      assert s[1..] == t + sep + rest;
      forall i | 0 <= i < |t| ensures !OccursAt(t + sep + rest, sep, i) {
        assert !OccursAt(s, sep, i + 1);
        if i + |sep| <= |t + sep + rest| {
          assert (t + sep + rest)[i..i + |sep|] == s[i + 1..i + 1 + |sep|];
        }
      }
      SplitAt(t, sep, rest);
      assert [a[0]] + t == a;
    }
  }

  /** A string without `sep` is one piece. */
  lemma {:induction false} SplitAbsent(s: string, sep: string)
    requires |sep| > 0 && !Contains(s, sep)
    ensures Split(s, sep) == [s]
    decreases |s|
  {
    if |s| > 0 {
      assert !OccursAt(s, sep, 0);
      assert !Contains(s[1..], sep) by {
        forall i | 0 <= i <= |s| - 1 && OccursAt(s[1..], sep, i)
          ensures OccursAt(s, sep, i + 1)
        {
          assert s[1..][i..i + |sep|] == s[i + 1..i + 1 + |sep|];
        }
      }
      SplitAbsent(s[1..], sep);
      assert [s[0]] + s[1..] == s;
    }
  }

  /** An occurrence in a piece of a string is an occurrence in the string. */
  lemma OccursInSlice(s: string, lo: int, hi: int, p: string, i: int)
    requires 0 <= lo <= hi <= |s| && OccursAt(s[lo..hi], p, i)
    ensures OccursAt(s, p, lo + i)
  {
    var u := s[lo..hi][i..i + |p|];
    assert |u| == |p|;
    assert forall k :: 0 <= k < |p| ==> u[k] == s[lo + i + k];
    assert u == s[lo + i..lo + i + |p|];
  }

  /** Stripping keeps a middle piece of the string. */
  lemma StripIsSlice(s: string, cs: set<char>)
    ensures exists lo, hi :: 0 <= lo <= hi <= |s| && Strip(s, cs) == s[lo..hi]
  {
    var l := LStrip(s, cs);
    var r := RStrip(l, cs);
    var lo := |s| - |l|;
    assert r == l[..|r|] == s[lo..lo + |r|];
  }

  /**
   * An eXist error text: after the quotes are stripped it reads `preamble`, the prefix once,
   * then the message, which comes back with the noise removed.
   */
  lemma RpcMessage(k: Kind, text: string, pre: string, msg: string, unquote: string -> string)
    requires Strip(text, Quotes) == pre + RpcPrefix + msg
    requires !Contains(pre, RpcPrefix) && !Contains(msg, RpcPrefix)
    ensures Message(ExistError(k, Other(text)), unquote) == Success(Denoise(msg))
  {
    RpcContained(text, pre, msg);
    SplitOnce(pre, msg);
    assert Split(Strip(text, Quotes), RpcPrefix) == [pre, msg];
  }

  /** One occurrence of the prefix cuts the text into exactly the two pieces around it. */
  lemma SplitOnce(pre: string, msg: string)
    requires !Contains(pre, RpcPrefix) && !Contains(msg, RpcPrefix)
    ensures Split(pre + RpcPrefix + msg, RpcPrefix) == [pre, msg]
  {
    PrefixHeadUnique();
    NoStraddle(pre, RpcPrefix, msg);
    SplitAt(pre, RpcPrefix, msg);
    SplitAbsent(msg, RpcPrefix);
  }

  /** Two occurrences, each the first after what precedes it, give at least three pieces. */
  lemma SplitTwice(pre: string, mid: string, post: string, sep: string)
    requires |sep| > 0 && forall k :: 0 < k < |sep| ==> sep[k] != sep[0]
    requires !Contains(pre, sep) && !Contains(mid, sep)
    ensures |Split(pre + sep + (mid + sep + post), sep)| >= 3
  {
    var rest := mid + sep + post;
    NoStraddle(pre, sep, rest);
    SplitAt(pre, sep, rest);
    NoStraddle(mid, sep, post);
    SplitAt(mid, sep, post);
  }

  /** A second prefix in an eXist error text makes the unpacking fail. */
  lemma RpcMessageTwice(k: Kind, text: string, pre: string, mid: string, post: string, unquote: string -> string)
    requires Strip(text, Quotes) == pre + RpcPrefix + (mid + RpcPrefix + post)
    requires !Contains(pre, RpcPrefix) && !Contains(mid, RpcPrefix)
    ensures Message(ExistError(k, Other(text)), unquote).Failure?
  {
    var rest := mid + RpcPrefix + post;
    RpcContained(text, pre, rest);
    PrefixHeadUnique();
    SplitTwice(pre, mid, post, RpcPrefix);
  }

  /** The prefix found in the stripped text is in the text itself. */
  lemma RpcContained(text: string, pre: string, msg: string)
    requires Strip(text, Quotes) == pre + RpcPrefix + msg
    ensures Contains(text, RpcPrefix)
  {
    StripIsSlice(text, Quotes);
    var lo, hi :| 0 <= lo <= hi <= |text| && Strip(text, Quotes) == text[lo..hi];
    var t := pre + RpcPrefix + msg;
    assert t[|pre|..|pre| + |RpcPrefix|] == RpcPrefix;
    OccursInSlice(text, lo, hi, RpcPrefix, |pre|);
  }

  /** The XPath exception noise in front of an eXist message is dropped; the message itself is kept. */
  lemma DenoiseXPath(body: string)
    requires !Contains(body, "org.exist.xquery.XPathException: ")
    requires !Contains(body, "XMLDB exception caught: ") && !Contains(body, "[at line 1, column 1]")
    ensures Denoise("org.exist.xquery.XPathException: " + body) == body
  {
    var noise := "org.exist.xquery.XPathException: ";
    var m := noise + body;
    assert StartsWith(m, noise) && m[|noise|..] == body by {
      assert m[..|noise|] == noise;
    }
    assert ReplaceAll(m, noise, "") == ReplaceAll(body, noise, "");
    ReplaceAbsent(body, noise, "");
    ReplaceAbsent(body, "XMLDB exception caught: ", "");
    ReplaceAbsent(body, "[at line 1, column 1]", "");
  }
}
