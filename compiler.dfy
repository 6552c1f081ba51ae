// Compiling the builder state into one XQuery (`getQuery`, query.py:898-1039).
module Compiler {
  import opened Wrappers
  import opened Text
  import opened Literals
  import opened XPath
  import opened Binding
  import opened QueryModel
  import opened RawXPath
  import opened Returns

  // ---------------------------------------------------------------------------------------
  // The path part of the query.

  /** The base xpath within its document or collection; the document takes precedence. */
  function Selection(st: QueryState, parse: string -> Expr): string
  {
    match st.document
    case Some(d) => Bind(parse(st.xpath), "doc(\"" + d + "\")")
    case None =>
      match st.collection
      case Some(c) => Bind(parse(st.xpath), "collection(\"/db/" + c + "\")")
      case None => st.xpath
  }

  /** One bracket per AND filter, in the order they were added. */
  function AndBrackets(fs: seq<string>): string
  {
    if |fs| == 0 then "" else "[" + fs[0] + "]" + AndBrackets(fs[1..])
  }

  /** One bracket holding the OR filters, or nothing. */
  function OrBracket(fs: seq<string>): string
  {
    if |fs| == 0 then "" else "[" + Join(" or ", fs) + "]"
  }

  function Negated(fs: seq<string>): (r: seq<string>)
    ensures |r| == |fs| && forall i :: 0 <= i < |fs| ==> r[i] == "not(" + fs[i] + ")"
  {
    if |fs| == 0 then [] else ["not(" + fs[0] + ")"] + Negated(fs[1..])
  }

  /** One bracket requiring every NOT filter to fail, or nothing. */
  function NotBracket(fs: seq<string>): string
  {
    if |fs| == 0 then "" else "[" + Join(" and ", Negated(fs)) + "]"
  }

  function FilteredPath(st: QueryState, parse: string -> Expr): string
  {
    Selection(st, parse) + AndBrackets(st.filters) + OrBracket(st.orFilters) + NotBracket(st.notFilters)
  }

  /** Filters are additive: a new AND filter adds one bracket at the end of the AND brackets. */
  lemma {:induction false} AndBracketsAppend(fs: seq<string>, f: string)
    ensures AndBrackets(fs + [f]) == AndBrackets(fs) + "[" + f + "]"
    decreases |fs|
  {
    if |fs| == 0 {
      assert fs + [f] == [f];
      assert ([f])[1..] == [];
    } else {
      var head := "[" + fs[0] + "]";
      var g := fs + [f];
      assert g[0] == fs[0] && g[1..] == fs[1..] + [f];
      AndBracketsAppend(fs[1..], f);
      assert AndBrackets(g) == head + AndBrackets(fs[1..] + [f]);
      assert AndBrackets(fs) == head + AndBrackets(fs[1..]);
    }
  }

  /** The AND brackets list the filters one by one. */
  lemma {:induction false} AndBracketsJoin(fs: seq<string>)
    ensures |fs| > 0 ==> AndBrackets(fs) == "[" + Join("][", fs) + "]"
    decreases |fs|
  {
    if |fs| > 1 {
      AndBracketsJoin(fs[1..]);
      JoinCons("][", fs[0], fs[1..]);
      assert [fs[0]] + fs[1..] == fs;
    } else if |fs| == 1 {
      assert fs[1..] == [];
    }
  }

  /** With `highlight` set to a search term the path is offered with and without the full-text match. */
  function HighlightedPath(st: QueryState, parse: string -> Expr): Result<string>
  {
    var x := FilteredPath(st, parse);
    match st.highlight
    case Some(v) =>
      if v.Bool? then Success(x)
      else
        var q :- QuoteAsStringLiteral(v);
        Success("(" + x + "[ft:query(., " + q + ")]|" + x + ")")
    case None => Success(x)
  }


  // ---------------------------------------------------------------------------------------
  // The FLWOR parts.

  predicate OrderGiven(st: QueryState)
  {
    st.orderBy.Some? && st.orderBy.value != ""
  }

  /** When `getQuery` builds a FLWOR expression instead of a plain path. */
  predicate NeedsFlwor(st: QueryState)
  {
    || OrderGiven(st)
    || |st.returnFields| > 0
    || |st.alsoFields| > 0
    || |st.whereFilters| > 0
    || (st.ftQuery && |st.ftOptions| > 0)
  }

  /** Text content as an XML serialiser writes it. */
  function XmlText(s: string): string
  {
    if |s| == 0 then ""
    else (if s[0] == '&' then "&amp;" else if s[0] == '<' then "&lt;" else if s[0] == '>' then "&gt;" else [s[0]])
         + XmlText(s[1..])
  }

  function OptionElements(opts: Dict): string
  {
    if |opts| == 0 then ""
    else "<" + opts[0].0 + ">" + XmlText(opts[0].1) + "</" + opts[0].0 + ">" + OptionElements(opts[1..])
  }

  /** The `let $ft_options := <options>...</options>` line, when full-text options are in use. */
  function FlworPre(st: QueryState): string
  {
    if st.ftQuery && |st.ftOptions| > 0
    then "let " + FtOptionVar + " := <options>" + OptionElements(st.ftOptions) + "</options>"
    else ""
  }

  /** A special field is defined when the sort, a projection or a where filter refers to it. */
  predicate Referenced(st: QueryState, f: string)
  {
    st.orderBy == Some(f) || f in Keys(st.returnFields) || f in Keys(st.alsoFields) || f in st.whereFields
  }

  /** The expression each special field is bound to. */
  function LetValue(f: string): string
  {
    if f == "fulltext_score" then "ft:score(" + XqVar + ")"
    else if f == "hash" then "util:hash(" + XqVar + ", \"SHA-1\")"
    else if f == "document_name" then "util:document-name(" + XqVar + ")"
    else if f == "collection_name" then "util:collection-name(" + XqVar + ")"
    else if f == "last_modified" then
      "xmldb:last-modified(util:collection-name(" + XqVar + "), util:document-name(" + XqVar + "))"
    else "count(util:expand(" + XqVar + ")//exist:match)"
  }

  /** The names of `xs` that `keep` accepts, in their order. */
  function Select(xs: seq<string>, keep: string -> bool): seq<string>
  {
    if |xs| == 0 then [] else (if keep(xs[0]) then [xs[0]] else []) + Select(xs[1..], keep)
  }

  /** The special fields that get a `let`, in the order they are written. */
  function LetNames(st: QueryState): seq<string>
  {
    Select(SpecialFields, f => Referenced(st, f))
  }

  function LetLines(names: seq<string>): (r: seq<string>)
    ensures |r| == |names|
    ensures forall i :: 0 <= i < |names| ==> r[i] == "let $" + names[i] + " := " + LetValue(names[i])
  {
    if |names| == 0 then [] else ["let $" + names[0] + " := " + LetValue(names[0])] + LetLines(names[1..])
  }

  function IndexOf(s: seq<string>, x: string): (i: int)
    ensures x in s ==> 0 <= i < |s| && s[i] == x
  {
    if |s| == 0 then -1 else if s[0] == x then 0 else 1 + IndexOf(s[1..], x)
  }

  /** The special field names are distinct: they start with distinct letters. */
  lemma SpecialFieldsDistinct()
    ensures NoDup(SpecialFields)
  {
    var firsts := "flhdcm";
    assert forall i :: 0 <= i < |SpecialFields| ==> |SpecialFields[i]| > 0 && SpecialFields[i][0] == firsts[i];
  }

  lemma {:induction false} NoDupTail(xs: seq<string>)
    requires |xs| > 0 && NoDup(xs)
    ensures NoDup(xs[1..]) && xs[0] !in xs[1..]
  {
    var t := xs[1..];
    forall i, j | 0 <= i < j < |t| ensures t[i] != t[j] {
      assert t[i] == xs[i + 1] && t[j] == xs[j + 1];
    }
    forall i | 0 <= i < |t| ensures t[i] != xs[0] {
      assert t[i] == xs[i + 1];
    }
  }

  /** Selecting keeps exactly the accepted names. */
  lemma {:induction false} SelectMembers(xs: seq<string>, keep: string -> bool)
    ensures forall f :: f in Select(xs, keep) <==> f in xs && keep(f)
    decreases |xs|
  {
    if |xs| > 0 {
      SelectMembers(xs[1..], keep);
      assert xs == [xs[0]] + xs[1..];
    }
  }

  /** Selecting from distinct names gives distinct names. */
  lemma {:induction false} SelectNoDup(xs: seq<string>, keep: string -> bool)
    requires NoDup(xs)
    ensures NoDup(Select(xs, keep))
    decreases |xs|
  {
    if |xs| > 0 {
      var t := xs[1..];
      NoDupTail(xs);
      SelectNoDup(t, keep);
      SelectMembers(t, keep);
      var rest := Select(t, keep);
      var r := Select(xs, keep);
      if keep(xs[0]) {
        assert r == [xs[0]] + rest;
        forall i, j | 0 <= i < j < |r| ensures r[i] != r[j] {
          assert r[j] == rest[j - 1];
          assert rest[j - 1] in rest;
          if i > 0 {
            assert r[i] == rest[i - 1];
          }
        }
      } else {
        assert r == rest;
      }
    }
  }

  /** `a` is `b` with some items left out, the rest in their order. */
  predicate Subsequence(a: seq<string>, b: seq<string>)
    decreases |b|
  {
    if |a| == 0 then true
    else if |b| == 0 then false
    else (a[0] == b[0] && Subsequence(a[1..], b[1..])) || Subsequence(a, b[1..])
  }

  /** Selecting keeps the order of the names it keeps. */
  lemma {:induction false} SelectOrder(xs: seq<string>, keep: string -> bool)
    ensures Subsequence(Select(xs, keep), xs)
    decreases |xs|
  {
    if |xs| > 0 {
      SelectOrder(xs[1..], keep);
      var rest := Select(xs[1..], keep);
      if keep(xs[0]) {
        assert Select(xs, keep) == [xs[0]] + rest;
        assert ([xs[0]] + rest)[1..] == rest;
      } else {
        assert Select(xs, keep) == rest;
        if |rest| > 0 {
          assert Subsequence(rest, xs[1..]);
        }
      }
    }
  }

  /** Selections agree when the tests agree. */
  lemma {:induction false} SelectSame(xs: seq<string>, p: string -> bool, q: string -> bool)
    requires forall f :: p(f) == q(f)
    ensures Select(xs, p) == Select(xs, q)
    decreases |xs|
  {
    if |xs| > 0 {
      SelectSame(xs[1..], p, q);
    }
  }

  /**
   * Each special field gets a `let` exactly when something refers to it, at most once, and
   * the `let`s follow the order of `special_fields`.
   */
  lemma LetNamesSpec(st: QueryState)
    ensures forall f :: f in LetNames(st) <==> f in SpecialFields && Referenced(st, f)
    ensures NoDup(LetNames(st)) && |LetNames(st)| <= |SpecialFields|
    ensures Subsequence(LetNames(st), SpecialFields)
  {
    SpecialFieldsDistinct();
    SelectMembers(SpecialFields, f => Referenced(st, f));
    SelectNoDup(SpecialFields, f => Referenced(st, f));
    SelectOrder(SpecialFields, f => Referenced(st, f));
    NoDupSubsetLength(LetNames(st), SpecialFields);
  }

  lemma {:induction false} NoDupSubsetLength(a: seq<string>, b: seq<string>)
    requires NoDup(a) && forall x :: x in a ==> x in b
    ensures |a| <= |b|
    decreases |a|
  {
    if |a| > 0 {
      var x := a[0];
      var i := IndexOf(b, x);
      var b' := b[..i] + b[i + 1..];
      var a' := a[1..];
      assert NoDup(a') by {
        forall p, q | 0 <= p < q < |a'| ensures a'[p] != a'[q] {
          assert a'[p] == a[p + 1] && a'[q] == a[q + 1];
        }
      }
      forall y | y in a' ensures y in b' {
        var p :| 0 <= p < |a'| && a'[p] == y;
        assert a[p + 1] == y && y != x;
        assert y in a;
        var m :| 0 <= m < |b| && b[m] == y;
        if m < i {
          assert b'[m] == y;
        } else {
          assert m != i;
          assert b'[m - 1] == y;
        }
      }
      NoDupSubsetLength(a', b');
    }
  }

  function WhereLine(st: QueryState): string
  {
    if |st.whereFilters| == 0 then "" else "where " + Join("\n and ", st.whereFilters)
  }

  /** The sort key: a special field's variable, a formatted raw xpath, or the bound xpath. */
  function OrderField(st: QueryState, parse: string -> Expr): Result<string>
    requires st.orderBy.Some?
  {
    var ob := st.orderBy.value;
    if ob in SpecialFields then Success("$" + ob)
    else if st.orderByRaw then RawFormat(ob)
    else Success(Bind(parse(ob), XqVar))
  }

  function OrderLine(st: QueryState, parse: string -> Expr): Result<string>
  {
    if !OrderGiven(st) then Success("")
    else
      var f :- OrderField(st, parse);
      Success("order by " + f + " " + ShowOpt(st.orderMode))
  }

  /**
   * A case-insensitive descending sort on `@id` sorts on the lower-cased attribute of the
   * FLWOR variable.  `sort` leaves the raw flag alone, so the state must not hold a raw sort.
   */
  lemma CaseInsensitiveSortLine(st: QueryState, parse: string -> Expr)
    requires !st.orderByRaw
    requires parse("fn:lower-case(@id)") == FunctionCall("fn:lower-case", [Step("@", "id", [])])
    ensures OrderLine(Sort(st, "@id", false, true), parse) == Success("order by " + "fn:lower-case($n/@id)" + " " + "descending")
  {
    var s := Sort(st, "@id", false, true);
    LowerCaseKey();
    assert s.orderBy == Some("fn:lower-case(@id)") && !s.orderByRaw;
    assert "fn:lower-case(@id)" !in SpecialFields;
    LowerCaseIdBinds();
    assert OrderField(s, parse) == Success("fn:lower-case($n/@id)");
    assert ShowOpt(s.orderMode) == "descending";
  }

  /** The sort key `sort` writes for a case-insensitive sort on `@id`. */
  lemma LowerCaseKey()
    ensures "fn:lower-case(" + "@id" + ")" == "fn:lower-case(@id)"
  {
    var key := "fn:lower-case(" + "@id" + ")";
    assert |key| == 18 && forall i :: 0 <= i < 18 ==> key[i] == "fn:lower-case(@id)"[i];
  }

  /** Bound to the FLWOR variable, the lower-cased `@id` reads the variable's attribute. */
  lemma LowerCaseIdBinds()
    ensures Bind(FunctionCall("fn:lower-case", [Step("@", "id", [])]), XqVar) == "fn:lower-case($n/@id)"
  {
    var id := Step("@", "id", []);
    assert Serialize(id) == "@id";
    assert BindArg(id, XqVar) == Other("$n/@id");
    assert [id][1..] == [];
    assert BindArgs([id], XqVar) == [Other("$n/@id")];
    assert Serialize(FunctionCall("fn:lower-case", [Other("$n/@id")])) == "fn:lower-case($n/@id)";
  }

  /**
   * A raw sort on a key such as `min(%(xq_var)s/year)` sorts on that text with the FLWOR
   * variable written in: the key is formatted, not bound.
   */
  lemma RawSortLine(st: QueryState, parse: string -> Expr, p: string, q: string, ascending: bool)
    requires forall i :: 0 <= i < |p| ==> p[i] != '%'
    requires forall i :: 0 <= i < |q| ==> q[i] != '%'
    ensures OrderLine(SortRaw(st, p + "%(xq_var)s" + q, ascending), parse)
            == Success("order by " + (p + XqVar + q) + " " + (if ascending then "ascending" else "descending"))
  {
    var key := p + "%(xq_var)s" + q;
    var s := SortRaw(st, key, ascending);
    assert key[|p|] == '%';
    NoSpecialPercent(key, |p|);
    RawFormatOneVariable(p, q);
    assert s.orderBy == Some(key) && s.orderByRaw && OrderGiven(s);
    assert OrderField(s, parse) == Success(p + XqVar + q);
    var mode := if ascending then "ascending" else "descending";
    assert ShowOpt(s.orderMode) == mode;
  }

  /** No special field has a percent sign, so a raw key with one is never taken for a special field. */
  lemma NoSpecialPercent(key: string, k: int)
    requires 0 <= k < |key| && key[k] == '%'
    ensures key !in SpecialFields
  {
    forall f | f in SpecialFields
      ensures forall i :: 0 <= i < |f| ==> f[i] != '%'
    {
    }
  }

  // ---------------------------------------------------------------------------------------
  // The constructed return.
  // The whole query.

  function NonEmpty(parts: seq<string>): (r: seq<string>)
    ensures forall p :: p in r ==> p != "" && p in parts
    ensures forall p :: p in parts && p != "" ==> p in r
  {
    if |parts| == 0 then [] else (if parts[0] == "" then [] else [parts[0]]) + NonEmpty(parts[1..])
  }

  function Declaration(ns: (string, string)): string
  {
    "declare namespace " + ns.0 + "='" + ns.1 + "';"
  }

  function Declarations(ns: Dict): (r: string)
    ensures r == "" <==> |ns| == 0
  {
    if |ns| == 0 then ""
    else if |ns| == 1 then Declaration(ns[0])
    else Declaration(ns[0]) + "\n" + Declarations(ns[1..])
  }

  /** The FLWOR form: its non-empty parts, one per line. */
  function Flwor(parts: seq<string>): string
  {
    Join("\n", NonEmpty(parts))
  }

  lemma JoinStartsWithFirst(sep: string, parts: seq<string>)
    requires |parts| >= 1
    ensures StartsWith(Join(sep, parts), parts[0])
  {
    if |parts| > 1 {
      JoinCons(sep, parts[0], parts[1..]);
      assert parts == [parts[0]] + parts[1..];
      assert (parts[0] + sep + Join(sep, parts[1..]))[..|parts[0]|] == parts[0];
    }
  }

  lemma {:induction false} JoinEndsWithLast(sep: string, parts: seq<string>)
    requires |parts| >= 1
    ensures EndsWith(Join(sep, parts), parts[|parts| - 1])
    decreases |parts|
  {
    if |parts| > 1 {
      var t := parts[1..];
      JoinEndsWithLast(sep, t);
      JoinCons(sep, parts[0], t);
      assert parts == [parts[0]] + t;
      var j := Join(sep, t);
      var l := parts[|parts| - 1];
      assert l == t[|t| - 1];
      assert (parts[0] + sep + j)[|parts[0] + sep + j| - |l|..] == j[|j| - |l|..];
    }
  }

  /** The first line of the FLWOR form is the options `let` if there is one, else the `for` clause. */
  lemma NonEmptyLeading(parts: seq<string>)
    requires |parts| >= 2 && parts[1] != ""
    ensures |NonEmpty(parts)| >= 1
    ensures NonEmpty(parts)[0] == if parts[0] != "" then parts[0] else parts[1]
  {
    var t := parts[1..];
    assert t[0] == parts[1];
    assert NonEmpty(t) == [parts[1]] + NonEmpty(t[1..]);
  }

  /**
   * With the `for` clause second and the return clause last, the FLWOR form starts with the
   * options `let` if there is one, else the `for` clause, and ends with the return clause.
   */
  lemma FlworShape(parts: seq<string>)
    requires |parts| == 6 && parts[1] != ""
    ensures parts[0] != "" ==> StartsWith(Flwor(parts), parts[0])
    ensures parts[0] == "" ==> StartsWith(Flwor(parts), parts[1])
    ensures parts[5] != "" ==> EndsWith(Flwor(parts), parts[5])
  {
    NonEmptyLeading(parts);
    var ne := NonEmpty(parts);
    JoinStartsWithFirst("\n", ne);
    if parts[5] != "" {
      assert parts == parts[..5] + [parts[5]];
      NonEmptyAppend(parts[..5], parts[5]);
      JoinEndsWithLast("\n", ne);
    }
  }

  /** The query and the state the compilation leaves behind. */
  datatype Compiled = Compiled(query: Result<string>, state: QueryState)

  /** The FLWOR expression or plain path, before the outer wrappers. */
  function Body(st: QueryState, parse: string -> Expr): Compiled
  {
    match HighlightedPath(st, parse)
    case Failure(e) => Compiled(Failure(e), st)
    case Success(x) =>
      if NeedsFlwor(st) then
        match OrderLine(st, parse)
        case Failure(e) => Compiled(Failure(e), st)
        case Success(order) =>
          var ret := ConstructReturn(st, parse);
          match ret.text
          case Failure(e) => Compiled(Failure(e), ret.state)
          case Success(r) =>
            var lets := Join("\n", LetLines(LetNames(st)));
            Compiled(Success(Flwor([FlworPre(st), "for " + XqVar + " in " + x, lets, WhereLine(st), order, r])),
                     ret.state)
      else Compiled(Success(Expand(st, x)), st)
  }

  function Limited(st: QueryState): bool
  {
    st.start != 0 || st.end.Some?
  }

  /** `distinct-values(...)`, then the namespace declarations, then `subsequence(...)`. */
  function Wrap(st: QueryState, q: string): string
  {
    var q1 := if st.distinct then "distinct-values(" + q + ")" else q;
    var decls := Declarations(st.namespaces);
    var q2 := if decls != "" then decls + "\n" + q1 else q1;
    if Limited(st) then
      "subsequence(" + q2 + ", " + IntToString(st.start + 1) + ", "
      + (match st.end case None => "" case Some(e) => IntToString(e - st.start)) + ")"
    else q2
  }

  /** `getQuery`. */
  function GetQuery(st: QueryState, parse: string -> Expr): Compiled
  {
    var b := Body(st, parse);
    match b.query
    case Failure(_) => b
    case Success(q) => Compiled(Success(Wrap(st, q)), b.state)
  }

  /** The FLWOR form begins with its `for` clause or the full-text options `let`. */
  lemma FlworStarts(st: QueryState, parse: string -> Expr)
    requires NeedsFlwor(st) && Body(st, parse).query.Success?
    ensures var q := Body(st, parse).query.value;
            StartsWith(q, "for " + XqVar + " in ") || StartsWith(q, "let " + FtOptionVar + " := ")
  {
    var x := HighlightedPath(st, parse).value;
    var order := OrderLine(st, parse).value;
    var r := ConstructReturn(st, parse).text.value;
    var forLine := "for " + XqVar + " in " + x;
    var parts := [FlworPre(st), forLine, Join("\n", LetLines(LetNames(st))), WhereLine(st), order, r];
    var q := Body(st, parse).query.value;
    assert q == Flwor(parts);
    FlworShape(parts);
    if FlworPre(st) != "" {
      FlworPreStarts(st);
      StartsWithTrans(q, FlworPre(st), "let " + FtOptionVar + " := ");
    } else {
      StartsWithTrans(q, forLine, "for " + XqVar + " in ");
    }
  }

  lemma FlworPreStarts(st: QueryState)
    requires FlworPre(st) != ""
    ensures StartsWith(FlworPre(st), "let " + FtOptionVar + " := ")
  {
    var p := "let " + FtOptionVar + " := ";
    var rest := "<options>" + OptionElements(st.ftOptions) + "</options>";
    assert FlworPre(st) == p + rest;
    assert (p + rest)[..|p|] == p;
  }

  lemma StartsWithTrans(s: string, p: string, pp: string)
    requires StartsWith(s, p) && StartsWith(p, pp)
    ensures StartsWith(s, pp)
  {
    assert s[..|pp|] == p[..|pp|];
  }

  /** Without a FLWOR the query is the path, expanded when highlighting; it starts like the selection. */
  lemma PlainPath(st: QueryState, parse: string -> Expr)
    requires !NeedsFlwor(st) && Body(st, parse).query.Success?
    requires |Selection(st, parse)| > 0
    ensures Body(st, parse).query.value == Expand(st, HighlightedPath(st, parse).value)
    ensures var q := Body(st, parse).query.value;
            |q| > 0 && (q[0] == '(' || q[0] == 'u' || q[0] == Selection(st, parse)[0])
  {
    var x := HighlightedPath(st, parse).value;
    var fp := FilteredPath(st, parse);
    assert fp[0] == Selection(st, parse)[0];
    assert x == fp || x[0] == '(';
  }

  /**
   * A plain path comes out exactly when no FLWOR is needed: the FLWOR form always begins
   * with its `for` clause or the full-text options `let`, which a selection path that does
   * not itself start with `f` or `l` cannot.
   */
  lemma PlainPathIff(st: QueryState, parse: string -> Expr)
    requires Body(st, parse).query.Success?
    requires |Selection(st, parse)| > 0 && Selection(st, parse)[0] != 'f' && Selection(st, parse)[0] != 'l'
    ensures var q := Body(st, parse).query.value;
            NeedsFlwor(st) <==> StartsWith(q, "for " + XqVar + " in ") || StartsWith(q, "let " + FtOptionVar + " := ")
    ensures !NeedsFlwor(st) ==> Body(st, parse).query.value == Expand(st, HighlightedPath(st, parse).value)
  {
    if NeedsFlwor(st) {
      FlworStarts(st, parse);
    } else {
      PlainPath(st, parse);
      assert ("for " + XqVar + " in ")[0] == 'f' && ("let " + FtOptionVar + " := ")[0] == 'l';
    }
  }

  /** The FLWOR form ends with its return clause. */
  lemma FlworEndsWithReturn(st: QueryState, parse: string -> Expr)
    requires NeedsFlwor(st) && Body(st, parse).query.Success?
    ensures EndsWith(Body(st, parse).query.value, ConstructReturn(st, parse).text.value)
    ensures StartsWith(ConstructReturn(st, parse).text.value, "return ")
  {
    var x := HighlightedPath(st, parse).value;
    var order := OrderLine(st, parse).value;
    var r := ConstructReturn(st, parse).text.value;
    assert r[..7] == "return ";
    FlworShape([FlworPre(st), "for " + XqVar + " in " + x, Join("\n", LetLines(LetNames(st))), WhereLine(st), order, r]);
  }

  lemma {:induction false} NonEmptyAppend(a: seq<string>, x: string)
    requires x != ""
    ensures NonEmpty(a + [x]) == NonEmpty(a) + [x]
    decreases |a|
  {
    if |a| == 0 {
      assert a + [x] == [x];
    } else {
      var h := if a[0] == "" then [] else [a[0]];
      var b := a + [x];
      assert b[0] == a[0] && b[1..] == a[1..] + [x];
      assert NonEmpty(b) == h + NonEmpty(a[1..] + [x]);
      NonEmptyAppend(a[1..], x);
      assert NonEmpty(a) == h + NonEmpty(a[1..]);
      assert h + (NonEmpty(a[1..]) + [x]) == (h + NonEmpty(a[1..])) + [x];
    }
  }

  /** `fn:subsequence` with integer arguments: the items at 1-based positions p, start <= p < start + length. */
  function FnSubsequence<T>(xs: seq<T>, startLoc: int, length: Option<int>): seq<T>
    decreases |xs|
  {
    if |xs| == 0 then []
    else (if startLoc <= 1 && (length.None? || 1 < startLoc + length.value) then [xs[0]] else [])
         + FnSubsequence(xs[1..], startLoc - 1, length)
  }

  /**
   * The `subsequence(q, start+1, end-start)` wrapper selects the Python slice
   * `[start:end]` of the results, counting from 0 (and `[start:]` when there is no end).
   */
  lemma SubsequenceIsSlice<T>(xs: seq<T>, start: int, end: Option<int>)
    requires 0 <= start && (end.Some? ==> start <= end.value)
    ensures var lo := Min(start, |xs|);
            FnSubsequence(xs, start + 1, match end case None => None case Some(e) => Some(e - start))
            == match end case None => xs[lo..] case Some(e) => xs[lo..Min(e, |xs|)]
  {
    match end
    case None => SubsequenceFrom(xs, start);
    case Some(e) => SubsequenceBetween(xs, start, e);
  }

  /** Without a length, `fn:subsequence` from position `start + 1` is the slice `[start:]`. */
  lemma {:induction false} SubsequenceFrom<T>(xs: seq<T>, start: nat)
    ensures FnSubsequence(xs, start + 1, None) == xs[Min(start, |xs|)..]
    decreases |xs|
  {
    if start == 0 {
      SubsequenceAll(xs, 1);
    } else if |xs| > 0 {
      SubsequenceSkip(xs, start + 1, None);
      SubsequenceFrom(xs[1..], start - 1);
      var lo := Min(start, |xs|);
      assert Min(start - 1, |xs| - 1) == lo - 1;
      TailSlice(xs, lo, |xs|);
    }
  }

  /** With the length `end - start`, `fn:subsequence` from position `start + 1` is the slice `[start:end]`. */
  lemma {:induction false} SubsequenceBetween<T>(xs: seq<T>, start: nat, end: int)
    requires start <= end
    ensures FnSubsequence(xs, start + 1, Some(end - start)) == xs[Min(start, |xs|)..Min(end, |xs|)]
    decreases |xs|
  {
    if start == 0 {
      SubsequenceFirst(xs, 1, end);
      assert Clamp(end, |xs|) == Min(end, |xs|);
    } else if |xs| > 0 {
      SubsequenceBetween(xs[1..], start - 1, end - 1);
      assert (start - 1) + 1 == start && (end - 1) - (start - 1) == end - start;
      BetweenStep(xs, start, end);
    }
  }

  /** The step of `SubsequenceBetween`: the first item lies before the start, so the tail decides. */
  lemma BetweenStep<T>(xs: seq<T>, start: int, end: int)
    requires |xs| > 0 && 0 < start <= end
    requires FnSubsequence(xs[1..], start, Some(end - start)) == xs[1..][Min(start - 1, |xs| - 1)..Min(end - 1, |xs| - 1)]
    ensures FnSubsequence(xs, start + 1, Some(end - start)) == xs[Min(start, |xs|)..Min(end, |xs|)]
  {
    var lo, hi := Min(start, |xs|), Min(end, |xs|);
    SubsequenceSkip(xs, start + 1, Some(end - start));
    assert Min(start - 1, |xs| - 1) == lo - 1 && Min(end - 1, |xs| - 1) == hi - 1;
    TailSlice(xs, lo, hi);
  }

  /** `n` held within `0..m`. */
  function Clamp(n: int, m: nat): (r: nat)
    ensures r <= m && (0 <= n <= m ==> r == n)
  {
    if n <= 0 then 0 else Min(n, m)
  }

  /** Without a length, `fn:subsequence` from a position at or before the first item keeps everything. */
  lemma {:induction false} SubsequenceAll<T>(xs: seq<T>, startLoc: int)
    requires startLoc <= 1
    ensures FnSubsequence(xs, startLoc, None) == xs
    decreases |xs|
  {
    if |xs| > 0 {
      SubsequenceAll(xs[1..], startLoc - 1);
      assert FnSubsequence(xs, startLoc, None) == [xs[0]] + FnSubsequence(xs[1..], startLoc - 1, None);
      assert xs == [xs[0]] + xs[1..];
    }
  }

  /** From a position at or before the first item, `fn:subsequence` keeps the items before position `startLoc + length`. */
  lemma {:induction false} SubsequenceFirst<T>(xs: seq<T>, startLoc: int, length: int)
    requires startLoc <= 1
    ensures FnSubsequence(xs, startLoc, Some(length)) == xs[..Clamp(startLoc + length - 1, |xs|)]
    decreases |xs|
  {
    if |xs| > 0 {
      var n := startLoc + length - 1;
      var rest := FnSubsequence(xs[1..], startLoc - 1, Some(length));
      SubsequenceFirst(xs[1..], startLoc - 1, length);
      assert startLoc - 1 + length - 1 == n - 1;
      if n > 0 {
        assert FnSubsequence(xs, startLoc, Some(length)) == [xs[0]] + rest;
        assert Clamp(n, |xs|) == 1 + Clamp(n - 1, |xs| - 1);
        assert xs[..Clamp(n, |xs|)] == [xs[0]] + xs[1..][..Clamp(n - 1, |xs| - 1)];
      } else {
        assert FnSubsequence(xs, startLoc, Some(length)) == [] + rest;
      }
    }
  }

  /** Before the start position the first item is skipped. */
  lemma SubsequenceSkip<T>(xs: seq<T>, startLoc: int, length: Option<int>)
    requires |xs| > 0 && startLoc > 1
    ensures FnSubsequence(xs, startLoc, length) == FnSubsequence(xs[1..], startLoc - 1, length)
  {
    var rest := FnSubsequence(xs[1..], startLoc - 1, length);
    assert [] + rest == rest;
  }

  /** A slice of a non-empty sequence, read from its tail one position earlier. */
  lemma TailSlice<T>(xs: seq<T>, lo: int, hi: int)
    requires 1 <= lo <= hi <= |xs|
    ensures xs[lo..hi] == xs[1..][lo - 1..hi - 1]
    ensures hi == |xs| ==> xs[lo..] == xs[1..][lo - 1..]
  {
    var a, b := xs[lo..hi], xs[1..][lo - 1..hi - 1];
    forall i | 0 <= i < hi - lo
      ensures a[i] == b[i]
    {
      assert a[i] == xs[lo + i] && b[i] == xs[1..][lo - 1 + i];
    }
    assert a == b;
    if hi == |xs| {
      assert xs[lo..] == a && xs[1..][lo - 1..] == b;
    }
  }

  /** Without limits there is no `subsequence` wrapper; `clear_limits` removes it. */
  lemma ClearLimitsUnwraps(st: QueryState, q: string)
    ensures Wrap(ClearLimits(st), q) == (var q1 := if st.distinct then "distinct-values(" + q + ")" else q;
                                         if st.namespaces == [] then q1 else Declarations(st.namespaces) + "\n" + q1)
  {
  }

  lemma PathIgnoresLimits(st: QueryState, parse: string -> Expr, start: int, end: Option<int>)
    ensures HighlightedPath(st.(start := start, end := end), parse) == HighlightedPath(st, parse)
  {
    var c := st.(start := start, end := end);
    assert Selection(c, parse) == Selection(st, parse);
    assert FilteredPath(c, parse) == FilteredPath(st, parse);
  }

  lemma ReturnIgnoresLimits(st: QueryState, parse: string -> Expr, start: int, end: Option<int>)
    ensures ConstructReturn(st.(start := start, end := end), parse).text == ConstructReturn(st, parse).text
  {
    var c := st.(start := start, end := end);
    assert Merged(c) == Merged(st);
  }

  lemma LetsIgnoreLimits(st: QueryState, start: int, end: Option<int>)
    ensures LetNames(st.(start := start, end := end)) == LetNames(st)
  {
    var c := st.(start := start, end := end);
    SelectSame(SpecialFields, f => Referenced(c, f), f => Referenced(st, f));
  }

  lemma ClausesIgnoreLimits(st: QueryState, parse: string -> Expr, start: int, end: Option<int>)
    ensures var c := st.(start := start, end := end);
            && OrderLine(c, parse) == OrderLine(st, parse)
            && FlworPre(c) == FlworPre(st) && WhereLine(c) == WhereLine(st)
  {
  }

  /** The body does not depend on the limits. */
  lemma BodyIgnoresLimits(st: QueryState, parse: string -> Expr, start: int, end: Option<int>)
    ensures Body(st.(start := start, end := end), parse).query == Body(st, parse).query
  {
    var c := st.(start := start, end := end);
    PathIgnoresLimits(st, parse, start, end);
    ReturnIgnoresLimits(st, parse, start, end);
    LetsIgnoreLimits(st, start, end);
    ClausesIgnoreLimits(st, parse, start, end);
    BodySame(c, st, parse);
  }

  /** Two states that agree on every piece of the body compile to the same body. */
  lemma BodySame(a: QueryState, b: QueryState, parse: string -> Expr)
    requires HighlightedPath(a, parse) == HighlightedPath(b, parse)
    requires NeedsFlwor(a) == NeedsFlwor(b) && a.highlight == b.highlight
    requires OrderLine(a, parse) == OrderLine(b, parse)
    requires ConstructReturn(a, parse).text == ConstructReturn(b, parse).text
    requires LetNames(a) == LetNames(b) && FlworPre(a) == FlworPre(b) && WhereLine(a) == WhereLine(b)
    ensures Body(a, parse).query == Body(b, parse).query
  {
  }

  /** A copy compiles to the same body as the original and is not limited. */
  lemma CopyCompilesAlike(st: QueryState, parse: string -> Expr)
    requires Valid(st)
    ensures Body(Copy(st), parse).query == Body(st, parse).query
    ensures !Limited(Copy(st))
  {
    CopyDropsLimits(st);
    BodyIgnoresLimits(st, parse, 0, None);
  }

  lemma PathIgnoresLocators(st: QueryState, parse: string -> Expr, l: seq<Option<string>>, c: int)
    ensures HighlightedPath(st.(returnXPaths := l, fieldCount := c), parse) == HighlightedPath(st, parse)
  {
    var s := st.(returnXPaths := l, fieldCount := c);
    assert Selection(s, parse) == Selection(st, parse);
    assert FilteredPath(s, parse) == FilteredPath(st, parse);
  }

  lemma ReturnIgnoresLocators(st: QueryState, parse: string -> Expr, l: seq<Option<string>>, c: int)
    ensures var s := st.(returnXPaths := l, fieldCount := c);
            && ConstructReturn(s, parse).text == ConstructReturn(st, parse).text
            && (|st.returnFields| > 0 || |st.alsoFields| > 0 ==> ConstructReturn(s, parse).state == ConstructReturn(st, parse).state)
  {
    var s := st.(returnXPaths := l, fieldCount := c);
    assert Merged(s) == Merged(st);
  }

  lemma LetsIgnoreLocators(st: QueryState, l: seq<Option<string>>, c: int)
    ensures LetNames(st.(returnXPaths := l, fieldCount := c)) == LetNames(st)
  {
    var s := st.(returnXPaths := l, fieldCount := c);
    SelectSame(SpecialFields, f => Referenced(s, f), f => Referenced(st, f));
  }

  lemma ClausesIgnoreLocators(st: QueryState, parse: string -> Expr, l: seq<Option<string>>, c: int)
    ensures var s := st.(returnXPaths := l, fieldCount := c);
            && OrderLine(s, parse) == OrderLine(st, parse) && NeedsFlwor(s) == NeedsFlwor(st)
            && FlworPre(s) == FlworPre(st) && WhereLine(s) == WhereLine(st)
  {
  }

  /** The query text does not depend on the recorded locators or the field counter. */
  lemma BodyIgnoresLocators(st: QueryState, parse: string -> Expr, l: seq<Option<string>>, c: int)
    ensures Body(st.(returnXPaths := l, fieldCount := c), parse).query == Body(st, parse).query
  {
    PathIgnoresLocators(st, parse, l, c);
    ReturnIgnoresLocators(st, parse, l, c);
    LetsIgnoreLocators(st, l, c);
    ClausesIgnoreLocators(st, parse, l, c);
    BodySame(st.(returnXPaths := l, fieldCount := c), st, parse);
  }
}
