// How `QuerySet.filter` reads its keyword arguments (query.py:178-274): each argument name
// resolves to an XPath and a lookup type, and each lookup changes the builder state and the
// set's highlighting flag.
module Filters {
  import opened Wrappers
  import opened Text
  import opened Literals
  import opened FieldDefs
  import opened QueryModel

  /** Keyword arguments, in the order `kwargs.iteritems()` yields them. */
  type Kwargs = seq<(string, FilterValue)>

  /** The XPath a keyword argument filters on and its lookup type. */
  datatype Lookup = Lookup(xpath: string, lookup: string)

  /**
   * The name resolution at the top of the loop in `filter`: the model's fields named before
   * a known lookup type (`.` when none is named, `exact` when no type is given); failing
   * that a special field followed by a lookup type; failing that the whole name as an XPath
   * compared with `exact`.  Every resolved lookup type is one the builder accepts.
   */
  function ResolveArg(arg: string, model: Option<NodeClass>): (l: Lookup)
    ensures l.lookup in AvailableFilters
  {
    var (fields, rest) := FieldSplit(arg, model);
    if rest != "" && rest !in AvailableFilters then
      var (head, tail) := ExtractFieldPart(arg);
      if head in SpecialFields && tail in AvailableFilters then Lookup(head, tail)
      else Lookup(arg, "exact")
    else
      var x := JoinFieldXPath(fields);
      Lookup(if x != "" then x else ".", if rest != "" then rest else "exact")
  }

  /** A bare lookup type filters the context node itself. */
  lemma ResolveBare(ty: string)
    requires ty in AvailableFilters
    ensures ResolveArg(ty, None) == Lookup(".", ty)
  {
  }

  /** A model field named alone is compared with `exact` at its XPath. */
  lemma ResolveFieldExact(n: string, c: NodeClass)
    requires n in c.fields && n != "" && !Contains(n, Sep) && c.fields[n].xpath != ""
    ensures ResolveArg(n, Some(c)) == Lookup(c.fields[n].xpath, "exact")
  {
    FieldSplitLast(n, c);
  }

  /** `field__type` on a field that maps to no node class filters that field's XPath by the type. */
  lemma ResolveFieldLookup(n: string, ty: string, c: NodeClass)
    requires n in c.fields && NodeClassOf(c.fields[n]).None? && c.fields[n].xpath != ""
    requires !Contains(n, Sep) && (|n| > 0 ==> n[|n| - 1] != '_')
    requires ty in AvailableFilters
    ensures ResolveArg(n + Sep + ty, Some(c)) == Lookup(c.fields[n].xpath, ty)
  {
    FieldSplitLeaf(n, ty, c);
  }

  /** `special__type` without a model filters the special field by the type. */
  lemma ResolveSpecial(s: string, ty: string)
    requires s in SpecialFields && ty in AvailableFilters
    requires !Contains(s, Sep) && s[|s| - 1] != '_'
    ensures ResolveArg(s + Sep + ty, None) == Lookup(s, ty)
  {
    ExtractKnown(s, ty);
    NotAFilter(s, ty);
  }

  /** No special field followed by `__` and a lookup type is itself a lookup type. */
  lemma NotAFilter(s: string, ty: string)
    requires s in SpecialFields && |ty| >= 2
    ensures s + Sep + ty !in AvailableFilters
  {
    var arg := s + Sep + ty;
    if s == "hash" {
      assert arg[0] == 'h' && arg[1] == 'a';
    } else {
      assert |arg| >= 15;
    }
    assert arg != "contains" && arg != "startswith" && arg != "exact" && arg != "fulltext_terms";
    assert arg != "highlight" && arg != "in" && arg != "document_path" && arg != "exists";
    assert arg != "gt" && arg != "gte" && arg != "lt" && arg != "lte";
  }

  /** An unknown lookup after a name that is no special field makes the whole name an XPath. */
  lemma ResolveUnknownWhole(arg: string)
    requires arg != "" && arg !in AvailableFilters && ExtractFieldPart(arg).0 !in SpecialFields
    ensures ResolveArg(arg, None) == Lookup(arg, "exact")
  {
  }

  /** `'highlight' in kwargs and isinstance(kwargs['highlight'], bool)`, with the value. */
  function HighlightKwarg(kwargs: Kwargs): Option<bool>
  {
    if |kwargs| == 0 then None
    else if kwargs[0].0 == "highlight" then (if kwargs[0].1.Bool? then Some(kwargs[0].1.b) else None)
    else HighlightKwarg(kwargs[1..])
  }

  /** Without a `highlight` argument there is no boolean to take. */
  lemma {:induction false} HighlightKwargAbsent(kwargs: Kwargs)
    requires forall j :: 0 <= j < |kwargs| ==> kwargs[j].0 != "highlight"
    ensures HighlightKwarg(kwargs) == None
  {
    if |kwargs| > 0 {
      var tail := kwargs[1..];
      assert forall j :: 0 <= j < |tail| ==> tail[j] == kwargs[j + 1];
      HighlightKwargAbsent(tail);
    }
  }

  /** With unique names, a boolean `highlight` argument anywhere is found. */
  lemma {:induction false} HighlightKwargFinds(kwargs: Kwargs, i: int, b: bool)
    requires 0 <= i < |kwargs| && kwargs[i] == ("highlight", Bool(b))
    requires forall j :: 0 <= j < |kwargs| && j != i ==> kwargs[j].0 != "highlight"
    ensures HighlightKwarg(kwargs) == Some(b)
  {
    if i > 0 {
      var tail := kwargs[1..];
      assert tail[i - 1] == kwargs[i];
      forall j | 0 <= j < |tail| && j != i - 1 ensures tail[j].0 != "highlight" {
        assert tail[j] == kwargs[j + 1];
      }
      HighlightKwargFinds(tail, i - 1, b);
    }
  }

  /** The text `doc("%s")` renders a `document_path` value with; a list's rendering is not modelled. */
  function DocumentText(v: FilterValue): string
  {
    match v
    case Str(s) => s
    case XmlQuery(x) => x
    case Int(n) => IntToString(n)
    case Bool(b) => if b then "True" else "False"
    case List(_) => ""
  }

  /** What a resolved argument does to the builder: set the document, add a filter, or nothing. */
  function LookupOutcome(st: QueryState, l: Lookup, value: FilterValue, mode: Option<string>): Outcome
  {
    if l.lookup == "document_path" then Outcome(SetDocument(st, Some(DocumentText(value))), None)
    else if l.lookup != "highlight" || !value.Bool? then AddFilter(st, l.xpath, l.lookup, value, mode)
    else Outcome(st, None)
  }

  lemma LookupOutcomeKeeps(st: QueryState, l: Lookup, value: FilterValue, mode: Option<string>)
    ensures var o := LookupOutcome(st, l, value, mode);
            SameFrame(st, o.state) && st.whereFields <= o.state.whereFields && st.filters <= o.state.filters
  {
    if l.lookup != "document_path" && (l.lookup != "highlight" || !value.Bool?) {
      AddFilterKeeps(st, l.xpath, l.lookup, value, mode);
    }
  }

  /** The builder state, the `_highlight_matches` flag, and the error that stopped the loop. */
  datatype Filtering = Filtering(st: QueryState, highlight: bool, error: Option<Error>)

  /**
   * One pass of the loop: `document_path` sets the document, a boolean `highlight` builds no
   * filter, anything else goes to `add_filter`; then `fulltext_terms` turns highlighting on
   * (or to a boolean `highlight` argument) and `highlight` records its own value.
   */
  function FilterArg(f: Filtering, arg: string, value: FilterValue, kwargs: Kwargs,
                     model: Option<NodeClass>, mode: Option<string>): (g: Filtering)
    ensures f.error.Some? ==> g == f
  {
    if f.error.Some? then f
    else
      var l := ResolveArg(arg, model);
      var o := LookupOutcome(f.st, l, value, mode);
      if o.error.Some? then Filtering(o.state, f.highlight, o.error)
      else if l.lookup == "fulltext_terms" then
        var on := HighlightKwarg(kwargs).GetOr(true);
        Filtering(o.state.(highlight := Some(Bool(on))), on, None)
      else if l.lookup == "highlight" then
        Filtering(o.state.(highlight := Some(value)), if value.Bool? then value.b else true, None)
      else Filtering(o.state, f.highlight, None)
  }

  /** The loop over `args`, the first of `kwargs`' entries; it stops at the first error. */
  function FilterArgs(init: Filtering, args: Kwargs, kwargs: Kwargs, model: Option<NodeClass>,
                      mode: Option<string>): Filtering
    decreases |args|
  {
    if |args| == 0 then init
    else
      var last := args[|args| - 1];
      FilterArg(FilterArgs(init, args[..|args| - 1], kwargs, model, mode), last.0, last.1, kwargs, model, mode)
  }

  /** Once an argument has failed, the rest of the arguments change nothing. */
  lemma {:induction false} FilterArgsStopped(init: Filtering, args: Kwargs, i: int, kwargs: Kwargs,
                                             model: Option<NodeClass>, mode: Option<string>)
    requires 0 <= i <= |args| && FilterArgs(init, args[..i], kwargs, model, mode).error.Some?
    ensures FilterArgs(init, args, kwargs, model, mode) == FilterArgs(init, args[..i], kwargs, model, mode)
    decreases |args| - i
  {
    if i == |args| {
      assert args[..i] == args;
    } else {
      assert args[..i + 1][..i] == args[..i];
      FilterArgsStopped(init, args, i + 1, kwargs, model, mode);
    }
  }

  /** `filter(combine, **kwargs)` on a builder state and highlighting flag. */
  function Filter(st: QueryState, highlight: bool, kwargs: Kwargs, model: Option<NodeClass>,
                  mode: Option<string>): Filtering
  {
    FilterArgs(Filtering(st, highlight, None), kwargs, kwargs, model, mode)
  }

  /** The parts of the state `filter` does not touch: selection base, projections, sort and limits. */
  predicate SameFrame(a: QueryState, b: QueryState)
  {
    && a.xpath == b.xpath && a.collection == b.collection && a.namespaces == b.namespaces
    && a.orderBy == b.orderBy && a.orderByRaw == b.orderByRaw && a.orderMode == b.orderMode
    && a.returnFields == b.returnFields && a.alsoFields == b.alsoFields && a.rawFields == b.rawFields
    && a.start == b.start && a.end == b.end && a.distinct == b.distinct
    && a.returnXPaths == b.returnXPaths && a.fieldCount == b.fieldCount && a.ftOptions == b.ftOptions
  }

  lemma FilterArgFrame(f: Filtering, arg: string, value: FilterValue, kwargs: Kwargs,
                       model: Option<NodeClass>, mode: Option<string>)
    ensures var g := FilterArg(f, arg, value, kwargs, model, mode);
            && SameFrame(f.st, g.st)
            && f.st.whereFields <= g.st.whereFields
            && f.st.filters <= g.st.filters
  {
    if f.error.None? {
      var l := ResolveArg(arg, model);
      var o := LookupOutcome(f.st, l, value, mode);
      LookupOutcomeKeeps(f.st, l, value, mode);
      var g := FilterArg(f, arg, value, kwargs, model, mode);
      assert g.st == o.state || g.st == o.state.(highlight := g.st.highlight);
    }
  }

  /** `add_filter` only appends to the filter lists and `where_fields`. */
  lemma AddFilterKeeps(st: QueryState, xpath: string, ty: string, value: FilterValue, mode: Option<string>)
    ensures var o := AddFilter(st, xpath, ty, value, mode);
            SameFrame(st, o.state) && st.whereFields <= o.state.whereFields && st.filters <= o.state.filters
  {
    if ty in AvailableFilters {
      var special := xpath in SpecialFields;
      var st1 := if special then st.(whereFields := st.whereFields + [xpath]) else st;
      var x := if special then "$" + xpath else xpath;
      var t := FilterText(ty, x, value, |st.ftOptions| > 0);
      if t.Success? {
        RecordKeeps(st1, special, ty, value, mode, t.value);
      }
    }
  }

  lemma RecordKeeps(st: QueryState, special: bool, ty: string, value: FilterValue, mode: Option<string>, f: Option<string>)
    ensures var r := Record(st, special, ty, value, mode, f);
            SameFrame(st, r) && r.whereFields == st.whereFields && st.filters <= r.filters
  {
    var fl := Flags(st, ty, value);
    assert SameFrame(st, fl) && fl.whereFields == st.whereFields && fl.filters == st.filters;
    if f.Some? {
      RouteKeeps(fl, special, mode, f.value);
    }
  }

  lemma RouteKeeps(st: QueryState, special: bool, mode: Option<string>, f: string)
    ensures var r := Route(st, special, mode, f);
            SameFrame(st, r) && r.whereFields == st.whereFields && st.filters <= r.filters
  {
    if !special && mode != Some("OR") && mode != Some("NOT") {
      assert Route(st, special, mode, f).filters == st.filters + [f];
    }
  }

  /** A full-text filter on the context node builds its filter and marks the query as full-text. */
  lemma FulltextBuilds(st: QueryState, t: string, mode: Option<string>)
    ensures var o := AddFilter(st, ".", "fulltext_terms", Str(t), mode);
            o.error.None? && o.state.ftQuery
  {
    assert "." !in SpecialFields;
    var q := QuoteAsStringLiteral(Str(t));
    assert q.Success?;
    assert FilterText("fulltext_terms", ".", Str(t), |st.ftOptions| > 0).Success?;
    var r := Record(st, false, "fulltext_terms", Str(t), mode,
                    FilterText("fulltext_terms", ".", Str(t), |st.ftOptions| > 0).value);
    RecordKeeps(st, false, "fulltext_terms", Str(t), mode,
                FilterText("fulltext_terms", ".", Str(t), |st.ftOptions| > 0).value);
    RouteLands(Flags(st, "fulltext_terms", Str(t)), false, mode,
               FilterText("fulltext_terms", ".", Str(t), |st.ftOptions| > 0).value.value);
  }

  /**
   * However many arguments are applied, `filter` leaves the selection base, projections,
   * sort and limits alone, and only appends to the AND list and to `where_fields`.
   */
  lemma {:induction false} FilterArgsFrame(init: Filtering, args: Kwargs, kwargs: Kwargs,
                                           model: Option<NodeClass>, mode: Option<string>)
    ensures var g := FilterArgs(init, args, kwargs, model, mode);
            && SameFrame(init.st, g.st)
            && init.st.whereFields <= g.st.whereFields
            && init.st.filters <= g.st.filters
    decreases |args|
  {
    if |args| > 0 {
      var prefix := args[..|args| - 1];
      var last := args[|args| - 1];
      FilterArgsFrame(init, prefix, kwargs, model, mode);
      var mid := FilterArgs(init, prefix, kwargs, model, mode);
      FilterArgFrame(mid, last.0, last.1, kwargs, model, mode);
      var g := FilterArgs(init, args, kwargs, model, mode);
      assert g.st.whereFields[..|init.st.whereFields|] == mid.st.whereFields[..|init.st.whereFields|];
      assert g.st.filters[..|init.st.filters|] == mid.st.filters[..|init.st.filters|];
    }
  }

  /** A full-text search turns highlighting on by default. */
  lemma FulltextHighlights(st: QueryState, hl: bool, t: string, mode: Option<string>)
    ensures var g := Filter(st, hl, [("fulltext_terms", Str(t))], None, mode);
            && g.error.None? && g.highlight && g.st.highlight == Some(Bool(true)) && g.st.ftQuery
  {
    var kw: Kwargs := [("fulltext_terms", Str(t))];
    var init := Filtering(st, hl, None);
    assert kw[..0] == [];
    assert FilterArgs(init, kw[..0], kw, None, mode) == init;
    ResolveBare("fulltext_terms");
    FulltextBuilds(st, t, mode);
    assert HighlightKwarg(kw) == None;
    assert Filter(st, hl, kw, None, mode) == FilterArg(init, "fulltext_terms", Str(t), kw, None, mode);
  }

  /** A boolean `highlight` argument after `fulltext_terms` overrides the default. */
  lemma HighlightAfterFulltext(st: QueryState, hl: bool, t: string, b: bool, mode: Option<string>)
    ensures var g := Filter(st, hl, [("fulltext_terms", Str(t)), ("highlight", Bool(b))], None, mode);
            g.error.None? && g.highlight == b && g.st.highlight == Some(Bool(b))
  {
    var kw: Kwargs := [("fulltext_terms", Str(t)), ("highlight", Bool(b))];
    var init := Filtering(st, hl, None);
    ResolveBare("fulltext_terms");
    ResolveBare("highlight");
    HighlightKwargFinds(kw, 1, b);
    FulltextBuilds(st, t, mode);
    assert kw[..1] == [kw[0]] && [kw[0]][..0] == [];
    var g1 := FilterArg(init, "fulltext_terms", Str(t), kw, None, mode);
    assert FilterArgs(init, kw[..1], kw, None, mode) == g1;
    assert g1.error.None?;
    assert Filter(st, hl, kw, None, mode) == FilterArg(g1, "highlight", Bool(b), kw, None, mode);
  }

  /** A boolean `highlight` argument before `fulltext_terms` is kept by it. */
  lemma HighlightBeforeFulltext(st: QueryState, hl: bool, t: string, b: bool, mode: Option<string>)
    ensures var g := Filter(st, hl, [("highlight", Bool(b)), ("fulltext_terms", Str(t))], None, mode);
            g.error.None? && g.highlight == b && g.st.highlight == Some(Bool(b))
  {
    var kw: Kwargs := [("highlight", Bool(b)), ("fulltext_terms", Str(t))];
    var init := Filtering(st, hl, None);
    ResolveBare("fulltext_terms");
    ResolveBare("highlight");
    HighlightKwargFinds(kw, 0, b);
    assert kw[..1] == [kw[0]] && [kw[0]][..0] == [];
    var g1 := FilterArg(init, "highlight", Bool(b), kw, None, mode);
    assert FilterArgs(init, kw[..1], kw, None, mode) == g1;
    assert g1 == Filtering(st.(highlight := Some(Bool(b))), b, None);
    FulltextBuilds(g1.st, t, mode);
    assert Filter(st, hl, kw, None, mode) == FilterArg(g1, "fulltext_terms", Str(t), kw, None, mode);
  }
}
