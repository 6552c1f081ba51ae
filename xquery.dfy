// The `Xquery` builder object (query.py:800-1425): its attributes are updated in place by
// the builder methods, `getQuery` assembles the query from them and records where each
// projected field will sit, and copies share three of its lists by reference.
module XqueryBuilder {
  import opened Wrappers
  import opened Text
  import opened Literals
  import opened XPath
  import opened Binding
  import opened QueryModel
  import opened RawXPath
  import opened Returns
  import opened Compiler

  /** A Python list of names that several builders may hold (`where_fields`, `raw_fields`). */
  class NameList {
    var items: seq<string>

    constructor (items: seq<string>)
      ensures this.items == items
    {
      this.items := items;
    }
  }

  /** The `return_xpaths` list: one locator, or None, per ordinary projected field. */
  class LocatorList {
    var items: seq<Option<string>>

    constructor ()
      ensures items == []
    {
      items := [];
    }
  }

  class Xquery {
    /**
     * The builder's own attributes (base xpath, collection, document, namespaces, filter
     * lists, sort, projections, limits, counter, full-text settings, highlight): everything a
     * copy does not share.  Its shared-list entries and its counter are not used; the
     * fields below are.
     */
    var attrs: QueryState
    /** `_return_field_count`: the number the next return field gets. */
    var fieldCount: int
    var whereFields: NameList
    var rawFields: NameList
    var returnXPaths: LocatorList
    /** The XPath library's `parse`, which is not part of this model. */
    const parse: string -> Expr

    /** All attributes as one value, the shared lists read through their current objects. */
    function State(): QueryState
      reads this`attrs, this`whereFields, this`rawFields, this`returnXPaths, this`fieldCount
      reads whereFields`items, rawFields`items, returnXPaths`items
    {
      Over(attrs, whereFields.items, rawFields.items, returnXPaths.items, fieldCount)
    }

    /** The two name lists are different lists. */
    predicate Valid()
      reads this`whereFields, this`rawFields
    {
      whereFields != rawFields
    }

    /** `Xquery(xpath, collection, document, namespaces, fulltext_options)`. */
    constructor (xpath: Option<string>, collection: Option<string>, document: Option<string>,
                 namespaces: Dict, ftOptions: Dict, parse: string -> Expr)
      ensures Valid() && State() == Init(xpath, collection, document, namespaces, ftOptions)
      ensures this.parse == parse
      ensures fresh(whereFields) && fresh(rawFields) && fresh(returnXPaths)
    {
      var coll := if collection.Some? then Some(LStrip(collection.value, {'/'})) else None;
      attrs := QueryState(xpath.GetOr(DefaultXPath), coll, document, namespaces, [], [], [], [], [],
                          None, false, None, [], [], [], 0, None, false, [], 1, ftOptions, false, None);
      whereFields := new NameList([]);
      rawFields := new NameList([]);
      returnXPaths := new LocatorList();
      fieldCount := 1;
      this.parse := parse;
    }

    /** `set_collection`: the name without its leading slashes. */
    method SetCollection(collection: Option<string>)
      modifies this`attrs
      ensures State() == QueryModel.SetCollection(old(State()), collection)
    {
      if collection.Some? {
        attrs := attrs.(collection := Some(LStrip(collection.value, {'/'})));
      } else {
        attrs := attrs.(collection := None);
      }
    }

    method SetDocument(document: Option<string>)
      modifies this`attrs
      ensures State() == QueryModel.SetDocument(old(State()), document)
    {
      attrs := attrs.(document := document);
    }

    /**
     * `getCopy`: a new builder with its own filter lists and projections but the same
     * `where_fields`, `raw_fields` and `return_xpaths` lists as this one.
     */
    method GetCopy() returns (xq: Xquery)
      requires Valid()
      ensures fresh(xq) && xq.Valid() && xq.parse == parse
      ensures xq.State() == Copy(State())
      ensures xq.whereFields == whereFields && xq.rawFields == rawFields && xq.returnXPaths == returnXPaths
    {
      xq := new Xquery(Some(attrs.xpath), attrs.collection, attrs.document, attrs.namespaces, [], parse);
      var a := xq.attrs;
      xq.attrs := a.(filters := a.filters + attrs.filters,
                     whereFilters := a.whereFilters + attrs.whereFilters,
                     orFilters := a.orFilters + attrs.orFilters,
                     notFilters := a.notFilters + attrs.notFilters,
                     orderBy := attrs.orderBy, orderByRaw := attrs.orderByRaw, orderMode := attrs.orderMode,
                     distinct := attrs.distinct,
                     returnFields := attrs.returnFields, alsoFields := attrs.alsoFields,
                     ftOptions := attrs.ftOptions,
                     ftQuery := attrs.ftQuery, highlight := attrs.highlight);
      xq.whereFields := whereFields;
      xq.rawFields := rawFields;
      xq.returnXPaths := returnXPaths;
      xq.fieldCount := fieldCount;
    }

    /** `sort(field, ascending, case_insensitive)`. */
    method Sort(field: string, ascending: bool, caseInsensitive: bool)
      modifies this`attrs
      ensures State() == QueryModel.Sort(old(State()), field, ascending, caseInsensitive)
    {
      var f := field;
      if caseInsensitive {
        f := "fn:lower-case(" + field + ")";
      }
      attrs := attrs.(orderBy := Some(f), orderMode := Some(if ascending then "ascending" else "descending"));
    }

    /** `sort_raw(xpath, ascending)`. */
    method SortRaw(xpath: string, ascending: bool)
      modifies this`attrs
      ensures State() == QueryModel.SortRaw(old(State()), xpath, ascending)
    {
      attrs := attrs.(orderBy := Some(xpath), orderByRaw := true,
                      orderMode := Some(if ascending then "ascending" else "descending"));
    }

    method Distinct()
      modifies this`attrs
      ensures State() == old(State()).(distinct := true)
    {
      attrs := attrs.(distinct := true);
    }

    /** Assigning the `highlight` attribute, as `QuerySet.filter` does. */
    method SetHighlight(value: FilterValue)
      modifies this`attrs
      ensures State() == old(State()).(highlight := Some(value))
    {
      attrs := attrs.(highlight := Some(value));
    }

    /** `add_filter(xpath, type, value, mode)`; a special field is appended to the shared `where_fields`. */
    method AddFilter(xpath: string, ty: string, value: FilterValue, mode: Option<string>) returns (err: Option<Error>)
      requires Valid()
      modifies this`attrs, whereFields
      ensures var o := QueryModel.AddFilter(old(State()), xpath, ty, value, mode);
              State() == o.state && err == o.error
      ensures whereFields.items == old(whereFields.items) + (if ty in AvailableFilters && xpath in SpecialFields then [xpath] else [])
    {
      if ty !in AvailableFilters {
        return Some(TypeError(ty));
      }
      err := AddKnownFilter(xpath, ty, value, mode);
    }

    /** `add_filter` once the filter type is known. */
    method AddKnownFilter(xpath: string, ty: string, value: FilterValue, mode: Option<string>) returns (err: Option<Error>)
      requires Valid() && ty in AvailableFilters
      modifies this`attrs, whereFields
      ensures var o := QueryModel.AddFilter(old(State()), xpath, ty, value, mode);
              State() == o.state && err == o.error
      ensures whereFields.items == old(whereFields.items) + (if xpath in SpecialFields then [xpath] else [])
    {
      var special := xpath in SpecialFields;
      var x := xpath;
      if special {
        whereFields.items := whereFields.items + [xpath];
        x := "$" + xpath;
      }
      var f := FilterText(ty, x, value, |attrs.ftOptions| > 0);
      if f.Failure? {
        return Some(f.error);
      }
      ghost var a := attrs;
      RecordFilter(special, ty, value, mode, f.value);
      RecordOverride(a, whereFields.items, rawFields.items, returnXPaths.items, fieldCount, special, ty, value, mode, f.value);
      return None;
    }

    /** The end of `add_filter`: the full-text flags, then the filter text appended to its list. */
    method RecordFilter(special: bool, ty: string, value: FilterValue, mode: Option<string>, f: Option<string>)
      modifies this`attrs
      ensures attrs == Record(old(attrs), special, ty, value, mode, f)
    {
      if ty == "fulltext_terms" {
        attrs := attrs.(ftQuery := true);
      } else if ty == "highlight" {
        attrs := attrs.(highlight := Some(value), ftQuery := true);
      }
      if f.Some? {
        var t := f.value;
        if special {
          attrs := attrs.(whereFilters := attrs.whereFilters + [t]);
        } else if mode == Some("OR") {
          attrs := attrs.(orFilters := attrs.orFilters + [t]);
        } else if mode == Some("NOT") {
          attrs := attrs.(notFilters := attrs.notFilters + [t]);
        } else {
          attrs := attrs.(filters := attrs.filters + [t]);
        }
      }
    }

    /** `return_only(fields, raw)`: raw names are added to the shared `raw_fields` list. */
    method ReturnOnly(fields: Dict, raw: bool)
      requires Valid()
      modifies this`attrs, if raw then {rawFields} else {}
      ensures State() == QueryModel.ReturnOnly(old(State()), fields, raw)
      ensures rawFields.items == old(rawFields.items) + (if raw then Keys(fields) else [])
    {
      attrs := attrs.(returnFields := Update(attrs.returnFields, fields));
      if raw {
        rawFields.items := rawFields.items + Keys(fields);
      }
    }

    /** `return_also(fields, raw)`. */
    method ReturnAlso(fields: Dict, raw: bool)
      requires Valid()
      modifies this`attrs, if raw then {rawFields} else {}
      ensures State() == QueryModel.ReturnAlso(old(State()), fields, raw)
      ensures rawFields.items == old(rawFields.items) + (if raw then Keys(fields) else [])
    {
      attrs := attrs.(alsoFields := Update(attrs.alsoFields, fields));
      if raw {
        rawFields.items := rawFields.items + Keys(fields);
      }
    }

    method ClearFilters()
      modifies this`attrs
      ensures State() == QueryModel.ClearFilters(old(State()))
    {
      attrs := attrs.(filters := []);
    }

    /** `set_limits(low, high)`. */
    method SetLimits(low: Option<int>, high: Option<int>)
      modifies this`attrs
      ensures State() == QueryModel.SetLimits(old(State()), low, high)
    {
      if high.Some? {
        if attrs.end.Some? {
          attrs := attrs.(end := Some(Min(attrs.end.value, attrs.start + high.value)));
        } else {
          attrs := attrs.(end := Some(attrs.start + high.value));
        }
      }
      if low.Some? {
        if attrs.end.Some? {
          attrs := attrs.(start := Min(attrs.end.value, attrs.start + low.value));
        } else {
          attrs := attrs.(start := attrs.start + low.value);
        }
      }
    }

    method ClearLimits()
      modifies this`attrs
      ensures State() == QueryModel.ClearLimits(old(State()))
    {
      attrs := attrs.(start := 0, end := None);
    }

    /**
     * `prep_xpath(xpath, context, return_field)`.  For a return field the result is wrapped
     * in `<field>` and the field's locator, numbered by the field counter, is appended to
     * `return_xpaths`.
     */
    method PrepXPath(e: Expr, context: string, returnField: bool) returns (s: string)
      modifies returnXPaths, this`fieldCount
      ensures s == if returnField then "<field>{" + Bind(e, context) + "}</field>" else Bind(e, context)
      ensures returnXPaths.items == old(returnXPaths.items) + (if returnField then [ReturnFieldXPath(e, old(fieldCount))] else [])
      ensures fieldCount == old(fieldCount) + (if returnField then 1 else 0)
    {
      s := BindPath(e, context);
      if returnField {
        s := "<field>{" + s + "}</field>";
        returnXPaths.items := returnXPaths.items + [ReturnFieldXPath(e, fieldCount)];
        fieldCount := fieldCount + 1;
      }
    }

    /** The loop of `_constructReturn` over the merged fields, numbering ordinary fields from the counter. */
    method AddFieldBlocks(fields: Dict, raw: seq<string>) returns (blocks: seq<string>, err: Option<Error>)
      modifies returnXPaths, this`fieldCount
      ensures var b := BuildBlocks(fields, raw, parse, old(fieldCount));
              && blocks == b.blocks && err == b.error
              && returnXPaths.items == old(returnXPaths.items) + b.locators
              && fieldCount == old(fieldCount) + |b.locators|
    {
      blocks := [];
      ghost var locs: seq<Option<string>> := [];
      ghost var whole := BuildBlocks(fields, raw, parse, fieldCount);
      GlueEmpty(whole);
      var j := 0;
      while j < |fields|
        invariant 0 <= j <= |fields|
        invariant returnXPaths.items == old(returnXPaths.items) + locs
        invariant fieldCount == old(fieldCount) + |locs|
        invariant whole == Glue(blocks, locs, BuildBlocks(fields[j..], raw, parse, fieldCount))
      {
        var name := fields[j].0;
        if name in SpecialFields {
          GlueSpecial(fields, raw, parse, j, fieldCount, blocks, locs);
          blocks := blocks + [SpecialBlock(name)];
        } else if name in raw {
          var t := RawFormat(fields[j].1);
          if t.Failure? {
            GlueRawFailure(fields, raw, parse, j, fieldCount, blocks, locs);
            return blocks, Some(t.error);
          }
          GlueRaw(fields, raw, parse, j, fieldCount, blocks, locs);
          blocks := blocks + [RawBlock(name, t.value)];
        } else {
          var e := parse(fields[j].1);
          GlueOrdinary(fields, raw, parse, j, fieldCount, blocks, locs);
          locs := locs + [ReturnFieldXPath(e, fieldCount)];
          var s := PrepXPath(e, XqVar, true);
          assert s == FieldBlock(e);
          blocks := blocks + [s];
        }
        j := j + 1;
      }
      assert fields[j..] == [];
      GlueEnd(blocks, locs, BuildBlocks(fields[j..], raw, parse, fieldCount));
      err := None;
    }

    /**
     * `_constructReturn`: with projections, `return_xpaths` is replaced by a new list and the
     * counter restarts at 1 before the fields are visited.
     */
    method ConstructReturn() returns (r: Result<string>)
      modifies this`returnXPaths, this`fieldCount
      ensures var c := Returns.ConstructReturn(old(State()), parse);
              r == c.text && State() == c.state
      ensures returnXPaths == old(returnXPaths) || fresh(returnXPaths)
    {
      var st := State();
      if |attrs.returnFields| > 0 || |attrs.alsoFields| > 0 {
        var el := ReturnNameFromXPath(parse(attrs.xpath));
        fieldCount := 1;
        returnXPaths := new LocatorList();
        var blocks, err := AddFieldBlocks(Merged(st), st.rawFields);
        assert returnXPaths.items == BuildBlocks(Merged(st), st.rawFields, parse, 1).locators;
        assert fieldCount == 1 + |returnXPaths.items|;
        assert State() == Over(attrs, st.whereFields, st.rawFields, returnXPaths.items, fieldCount);
        ProjectedReturn(st, parse, blocks, err, returnXPaths.items);
        OverReturn(attrs, st.whereFields, st.rawFields, st.returnXPaths, st.fieldCount, returnXPaths.items);
        if err.Some? {
          return Failure(err.value);
        }
        var rblocks: seq<string> := if |attrs.returnFields| > 0 then [] else ["{" + XqVar + "}"];
        rblocks := rblocks + blocks;
        r := Success("return " + Expand(st, Element(el, rblocks)));
      } else {
        r := Success("return " + Expand(st, XqVar));
      }
    }

    /**
     * `getQuery`: the plain path or the FLWOR expression, then the outer wrappers.  Building a
     * constructed return replaces `return_xpaths`; the list held before is never changed.
     */
    method GetQuery() returns (q: Result<string>)
      modifies this`returnXPaths, this`fieldCount
      ensures var c := Compiler.GetQuery(old(State()), parse);
              q == c.query && State() == c.state
      ensures returnXPaths == old(returnXPaths) || fresh(returnXPaths)
    {
      var st := State();
      var path := HighlightedPathPart(st, parse);
      if path.Failure? {
        return Failure(path.error);
      }
      var query: string;
      if NeedsFlwor(st) {
        var pre := FlworPre(st);
        var order := OrderClause(st, parse);
        if order.Failure? {
          return Failure(order.error);
        }
        var lets := LetClause(st);
        var ret := ConstructReturn();
        if ret.Failure? {
          return Failure(ret.error);
        }
        query := Flwor([pre, "for " + XqVar + " in " + path.value, Join("\n", lets), WhereLine(st), order.value, ret.value]);
      } else {
        query := Expand(st, path.value);
      }
      return Success(Compiler.Wrap(st, query));
    }

    /** `get_return_xpaths`: each merged field's locator, reading `return_xpaths` in order. */
    method GetReturnXPaths() returns (r: Result<Dict>)
      ensures r == Returns.GetReturnXPaths(State())
    {
      var st := State();
      var fields := Merged(st);
      var prefix := ReturnPrefix(st);
      var locs := returnXPaths.items;
      var raw := rawFields.items;
      r := LocateLoop(fields, raw, locs, prefix);
    }
  }

  // ---------------------------------------------------------------------------------------
  // What a copy shares with its original.

  /** An ordinary filter added to a copy leaves the original as it was. */
  method CopyThenFilter(xq: Xquery, xpath: string, ty: string, value: FilterValue, mode: Option<string>)
    returns (copy: Xquery)
    requires xq.Valid() && xpath !in SpecialFields
    modifies xq.whereFields
    ensures xq.State() == old(xq.State())
  {
    copy := xq.GetCopy();
    var err := copy.AddFilter(xpath, ty, value, mode);
  }

  /** A filter on a special field added to a copy is recorded in the original's `where_fields` too. */
  method CopyThenSpecialFilter(xq: Xquery, xpath: string, ty: string, value: FilterValue, mode: Option<string>)
    returns (copy: Xquery)
    requires xq.Valid() && xpath in SpecialFields && ty in AvailableFilters
    modifies xq.whereFields
    ensures xq.State() == old(xq.State()).(whereFields := old(xq.State()).whereFields + [xpath])
  {
    copy := xq.GetCopy();
    var err := copy.AddFilter(xpath, ty, value, mode);
  }

  /** Raw projections added to a copy are recorded in the original's `raw_fields` too. */
  method CopyThenRawReturn(xq: Xquery, fields: Dict) returns (copy: Xquery)
    requires xq.Valid()
    modifies xq.rawFields
    ensures xq.State() == old(xq.State()).(rawFields := old(xq.State()).rawFields + Keys(fields))
  {
    copy := xq.GetCopy();
    copy.ReturnOnly(fields, true);
  }

  /**
   * Compiling a copy with projections gives the copy a new `return_xpaths` list: the list it
   * shared with the original keeps its locators.
   */
  method CopyThenQuery(xq: Xquery, fields: Dict) returns (copy: Xquery, q: Result<string>)
    requires xq.Valid()
    modifies xq.rawFields
    ensures xq.State() == old(xq.State())
  {
    copy := xq.GetCopy();
    copy.ReturnOnly(fields, false);
    q := copy.GetQuery();
  }

  // ---------------------------------------------------------------------------------------
  // The parts of `getQuery` and `prep_xpath` that only read the builder.

  /**
   * `prep_xpath` without a return field: the xpath made relative to `context`.  A union is
   * prepared side by side, a function call has its arguments prepared in place.
   */
  method BindPath(e: Expr, context: string) returns (s: string)
    ensures s == Bind(e, context)
    decreases e, 0
  {
    match e {
      case BinaryExpression(l, op, r) =>
        if op == "|" {
          var left := BindPath(l, context);
          var right := BindPath(r, context);
          s := left + "|" + right;
        } else {
          s := context + "/" + Serialize(e);
        }
      case AbsolutePath(_, _) =>
        s := context + Serialize(e);
      case FunctionCall(name, args) =>
        var bound := BindCallArgs(args, context);
        s := Serialize(FunctionCall(name, bound));
      case _ =>
        s := context + "/" + Serialize(e);
    }
  }

  /**
   * The loop of `prep_xpath` over a function call's arguments: steps, abbreviated steps and
   * nested calls are prepared against the FLWOR variable, the left side of a `//` and both
   * sides of a `|` against the call's context; the text is put back in the argument's place.
   */
  method BindCallArgs(args: seq<Expr>, context: string) returns (bound: seq<Expr>)
    ensures bound == BindArgs(args, context)
    decreases args, 1
  {
    bound := args;
    var i := 0;
    while i < |args|
      invariant 0 <= i <= |args| && |bound| == |args|
      invariant forall j :: 0 <= j < i ==> bound[j] == BindArg(args[j], context)
      invariant forall j :: i <= j < |args| ==> bound[j] == args[j]
    {
      var arg := args[i];
      if arg.AbbreviatedStep? || arg.Step? || arg.FunctionCall? {
        var t := BindPath(arg, XqVar);
        bound := bound[i := Other(t)];
      } else if arg.BinaryExpression? && arg.op == "//" {
        var left := BindPath(arg.left, context);
        bound := bound[i := Other(left + "//" + Serialize(arg.right))];
      } else if arg.BinaryExpression? && arg.op == "|" {
        var left := BindPath(arg.left, context);
        var right := BindPath(arg.right, context);
        bound := bound[i := Other(left + "|" + right)];
      }
      i := i + 1;
    }
    BindArgsEach(args, context);
    assert |bound| == |BindArgs(args, context)|;
  }

  /** The AND brackets, one per filter, built as the list comprehension of `getQuery` does. */
  method AndFilterBrackets(filters: seq<string>) returns (s: string)
    ensures s == AndBrackets(filters)
  {
    s := "";
    var i := 0;
    while i < |filters|
      invariant 0 <= i <= |filters|
      invariant s == AndBrackets(filters[..i])
    {
      AndBracketsAppend(filters[..i], filters[i]);
      assert filters[..i + 1] == filters[..i] + [filters[i]];
      s := s + "[" + filters[i] + "]";
      i := i + 1;
    }
    assert filters[..i] == filters;
  }

  /** The path part of `getQuery`: the base xpath in its context, the filters, the highlight. */
  method HighlightedPathPart(st: QueryState, parse: string -> Expr) returns (x: Result<string>)
    ensures x == HighlightedPath(st, parse)
  {
    var sel: string;
    if st.document.Some? {
      sel := BindPath(parse(st.xpath), "doc(\"" + st.document.value + "\")");
    } else if st.collection.Some? {
      sel := BindPath(parse(st.xpath), "collection(\"/db/" + st.collection.value + "\")");
    } else {
      sel := st.xpath;
    }
    var brackets := AndFilterBrackets(st.filters);
    var path := sel + brackets + OrBracket(st.orFilters) + NotBracket(st.notFilters);
    if st.highlight.Some? && !st.highlight.value.Bool? {
      var q := QuoteAsStringLiteral(st.highlight.value);
      if q.Failure? {
        return Failure(q.error);
      }
      path := "(" + path + "[ft:query(., " + q.value + ")]|" + path + ")";
    }
    return Success(path);
  }

  /** The `let` lines, one per referenced special field, in the order the fields are listed. */
  method LetClause(st: QueryState) returns (lets: seq<string>)
    ensures lets == LetLines(LetNames(st))
  {
    lets := [];
    var i := 0;
    while i < |SpecialFields|
      invariant 0 <= i <= |SpecialFields|
      invariant lets == LetLines(Select(SpecialFields[..i], f => Referenced(st, f)))
    {
      var field := SpecialFields[i];
      ghost var done := Select(SpecialFields[..i], f => Referenced(st, f));
      SelectAppend(SpecialFields[..i], field, f => Referenced(st, f));
      assert SpecialFields[..i + 1] == SpecialFields[..i] + [field];
      if st.orderBy == Some(field) || field in Keys(st.returnFields)
         || field in Keys(st.alsoFields) || field in st.whereFields {
        LetLinesAppend(done, field);
        lets := lets + ["let $" + field + " := " + LetValue(field)];
      } else {
        assert done + [] == done;
      }
      i := i + 1;
    }
    assert SpecialFields[..i] == SpecialFields;
  }

  /** The sort clause of the FLWOR form. */
  method OrderClause(st: QueryState, parse: string -> Expr) returns (order: Result<string>)
    ensures order == OrderLine(st, parse)
  {
    if st.orderBy.None? || st.orderBy.value == "" {
      return Success("");
    }
    var ob := st.orderBy.value;
    var field: string;
    if ob in SpecialFields {
      field := "$" + ob;
    } else if st.orderByRaw {
      var f := RawFormat(ob);
      if f.Failure? {
        return Failure(f.error);
      }
      field := f.value;
    } else {
      field := BindPath(parse(ob), XqVar);
    }
    return Success("order by " + field + " " + ShowOpt(st.orderMode));
  }

  // ---------------------------------------------------------------------------------------
  // Helpers for the loops above.

  /** The blocks gathered so far in front of what the remaining fields give. */
  function Glue(blocks: seq<string>, locs: seq<Option<string>>, rest: Blocks): Blocks
  {
    Blocks(blocks + rest.blocks, locs + rest.locators, rest.error)
  }

  lemma GlueEmpty(b: Blocks)
    ensures Glue([], [], b) == b
  {
    assert [] + b.blocks == b.blocks;
    assert [] + b.locators == b.locators;
  }

  lemma GlueFail(blocks: seq<string>, locs: seq<Option<string>>, e: Error)
    ensures Glue(blocks, locs, Blocks([], [], Some(e))) == Blocks(blocks, locs, Some(e))
  {
    assert blocks + [] == blocks;
    assert locs + [] == locs;
  }

  lemma GlueEnd(blocks: seq<string>, locs: seq<Option<string>>, rest: Blocks)
    requires rest == Blocks([], [], None)
    ensures Glue(blocks, locs, rest) == Blocks(blocks, locs, None)
  {
    assert blocks + [] == blocks;
    assert locs + [] == locs;
  }

  /** A special field adds its block and no locator. */
  lemma GlueSpecial(fields: Dict, raw: seq<string>, parse: string -> Expr, j: nat, k: int,
                    blocks: seq<string>, locs: seq<Option<string>>)
    requires j < |fields| && fields[j].0 in SpecialFields
    ensures Glue(blocks, locs, BuildBlocks(fields[j..], raw, parse, k))
         == Glue(blocks + [SpecialBlock(fields[j].0)], locs, BuildBlocks(fields[j + 1..], raw, parse, k))
  {
    assert fields[j..][0] == fields[j];
    assert fields[j..][1..] == fields[j + 1..];
    var rest := BuildBlocks(fields[j + 1..], raw, parse, k);
    assert blocks + ([SpecialBlock(fields[j].0)] + rest.blocks) == (blocks + [SpecialBlock(fields[j].0)]) + rest.blocks;
  }

  /** A raw field whose xpath formats adds its block and no locator. */
  lemma GlueRaw(fields: Dict, raw: seq<string>, parse: string -> Expr, j: nat, k: int,
                blocks: seq<string>, locs: seq<Option<string>>)
    requires j < |fields| && fields[j].0 !in SpecialFields && fields[j].0 in raw
    requires RawFormat(fields[j].1).Success?
    ensures Glue(blocks, locs, BuildBlocks(fields[j..], raw, parse, k))
         == Glue(blocks + [RawBlock(fields[j].0, RawFormat(fields[j].1).value)], locs, BuildBlocks(fields[j + 1..], raw, parse, k))
  {
    assert fields[j..][0] == fields[j];
    assert fields[j..][1..] == fields[j + 1..];
    var rest := BuildBlocks(fields[j + 1..], raw, parse, k);
    var x := RawBlock(fields[j].0, RawFormat(fields[j].1).value);
    assert blocks + ([x] + rest.blocks) == (blocks + [x]) + rest.blocks;
  }

  /** A raw field whose xpath does not format stops the loop with its error. */
  lemma GlueRawFailure(fields: Dict, raw: seq<string>, parse: string -> Expr, j: nat, k: int,
                       blocks: seq<string>, locs: seq<Option<string>>)
    requires j < |fields| && fields[j].0 !in SpecialFields && fields[j].0 in raw
    requires RawFormat(fields[j].1).Failure?
    ensures Glue(blocks, locs, BuildBlocks(fields[j..], raw, parse, k)) == Blocks(blocks, locs, Some(RawFormat(fields[j].1).error))
  {
    assert fields[j..][0] == fields[j];
    GlueFail(blocks, locs, RawFormat(fields[j].1).error);
  }

  /** An ordinary field adds its `<field>` block and the locator numbered `k`. */
  lemma GlueOrdinary(fields: Dict, raw: seq<string>, parse: string -> Expr, j: nat, k: int,
                     blocks: seq<string>, locs: seq<Option<string>>)
    requires j < |fields| && fields[j].0 !in SpecialFields && fields[j].0 !in raw
    ensures var e := parse(fields[j].1);
            Glue(blocks, locs, BuildBlocks(fields[j..], raw, parse, k)) ==
            Glue(blocks + [FieldBlock(e)], locs + [ReturnFieldXPath(e, k)], BuildBlocks(fields[j + 1..], raw, parse, k + 1))
  {
    assert fields[j..][0] == fields[j];
    assert fields[j..][1..] == fields[j + 1..];
    var e := parse(fields[j].1);
    var rest := BuildBlocks(fields[j + 1..], raw, parse, k + 1);
    assert blocks + ([FieldBlock(e)] + rest.blocks) == (blocks + [FieldBlock(e)]) + rest.blocks;
    assert locs + ([ReturnFieldXPath(e, k)] + rest.locators) == (locs + [ReturnFieldXPath(e, k)]) + rest.locators;
  }

  /** The loop of `get_return_xpaths` over the merged fields; `i` counts the ordinary fields met. */
  method LocateLoop(fields: Dict, raw: seq<string>, locs: seq<Option<string>>, prefix: string) returns (r: Result<Dict>)
    ensures r == LocateFields(fields, raw, locs, prefix, 0)
  {
    var xpaths: Dict := [];
    var i := 0;
    var j := 0;
    EmptyPrefixed(LocateFields(fields, raw, locs, prefix, 0));
    while j < |fields|
      invariant 0 <= j <= |fields|
      invariant LocateFields(fields, raw, locs, prefix, 0) == Prefixed(xpaths, LocateFields(fields[j..], raw, locs, prefix, i))
    {
      var name := fields[j].0;
      assert fields[j..][1..] == fields[j + 1..];
      if name in SpecialFields {
        PrefixedStep(xpaths, (name, prefix + name), LocateFields(fields[j + 1..], raw, locs, prefix, i));
        xpaths := xpaths + [(name, prefix + name)];
      } else if name in raw {
        PrefixedStep(xpaths, (name, prefix + RawLocator(name)), LocateFields(fields[j + 1..], raw, locs, prefix, i));
        xpaths := xpaths + [(name, prefix + RawLocator(name))];
      } else {
        if i < 0 || i >= |locs| {
          return Failure(IndexError("list index out of range"));
        }
        if locs[i].None? {
          return Failure(TypeError("cannot concatenate 'str' and 'NoneType' objects"));
        }
        PrefixedStep(xpaths, (name, prefix + locs[i].value), LocateFields(fields[j + 1..], raw, locs, prefix, i + 1));
        xpaths := xpaths + [(name, prefix + locs[i].value)];
        i := i + 1;
      }
      j := j + 1;
    }
    assert fields[j..] == [];
    assert xpaths + [] == xpaths;
    return Success(xpaths);
  }

  /** The builder's own attributes with the shared lists and the counter put in. */
  function Over(a: QueryState, w: seq<string>, r: seq<string>, x: seq<Option<string>>, c: int): QueryState
  {
    a.(whereFields := w, rawFields := r, returnXPaths := x, fieldCount := c)
  }

  /** What `_constructReturn` gives once the blocks and locators of the projections are known. */
  lemma ProjectedReturn(st: QueryState, parse: string -> Expr, blocks: seq<string>, err: Option<Error>, locs: seq<Option<string>>)
    requires |st.returnFields| > 0 || |st.alsoFields| > 0
    requires BuildBlocks(Merged(st), st.rawFields, parse, 1) == Blocks(blocks, locs, err)
    ensures Returns.ConstructReturn(st, parse).state == st.(fieldCount := 1 + |locs|, returnXPaths := locs)
    ensures Returns.ConstructReturn(st, parse).text ==
            if err.Some? then Failure(err.value)
            else Success("return " + Expand(st, Element(ReturnNameFromXPath(parse(st.xpath)),
                                                        (if |st.returnFields| > 0 then [] else ["{" + XqVar + "}"]) + blocks)))
  {
  }

  /** A constructed return sets the locators and the counter and nothing else. */
  lemma OverReturn(a: QueryState, w: seq<string>, r: seq<string>, x: seq<Option<string>>, c: int, locs: seq<Option<string>>)
    ensures Over(a, w, r, x, c).(fieldCount := 1 + |locs|, returnXPaths := locs) == Over(a, w, r, locs, 1 + |locs|)
  {
  }

  /** Recording a filter leaves the shared lists and the counter as they are. */
  lemma RecordOverride(a: QueryState, w: seq<string>, r: seq<string>, x: seq<Option<string>>, c: int, special: bool,
                       ty: string, value: FilterValue, mode: Option<string>, f: Option<string>)
    ensures Record(Over(a, w, r, x, c), special, ty, value, mode, f) == Over(Record(a, special, ty, value, mode, f), w, r, x, c)
  {
    FlagsOverride(a, w, r, x, c, ty, value);
    if f.Some? {
      RouteOverride(Flags(a, ty, value), w, r, x, c, special, mode, f.value);
    }
  }

  lemma FlagsOverride(a: QueryState, w: seq<string>, r: seq<string>, x: seq<Option<string>>, c: int, ty: string, value: FilterValue)
    ensures Flags(Over(a, w, r, x, c), ty, value) == Over(Flags(a, ty, value), w, r, x, c)
  {
    var a' := Over(a, w, r, x, c);
    if ty == "fulltext_terms" {
      assert Flags(a', ty, value) == a'.(ftQuery := true);
    } else if ty == "highlight" {
      assert Flags(a', ty, value) == a'.(highlight := Some(value), ftQuery := true);
    }
  }

  lemma RouteOverride(a: QueryState, w: seq<string>, r: seq<string>, x: seq<Option<string>>, c: int,
                      special: bool, mode: Option<string>, t: string)
    ensures Route(Over(a, w, r, x, c), special, mode, t) == Over(Route(a, special, mode, t), w, r, x, c)
  {
    var a' := Over(a, w, r, x, c);
    if special {
      assert Route(a', special, mode, t) == a'.(whereFilters := a.whereFilters + [t]);
    } else if mode == Some("OR") {
      assert Route(a', special, mode, t) == a'.(orFilters := a.orFilters + [t]);
    } else if mode == Some("NOT") {
      assert Route(a', special, mode, t) == a'.(notFilters := a.notFilters + [t]);
    } else {
      assert Route(a', special, mode, t) == a'.(filters := a.filters + [t]);
    }
  }

  /** The fields located so far in front of what the remaining fields give. */
  function Prefixed(done: Dict, rest: Result<Dict>): Result<Dict>
  {
    match rest
    case Failure(e) => Failure(e)
    case Success(d) => Success(done + d)
  }

  lemma EmptyPrefixed(r: Result<Dict>)
    ensures Prefixed([], r) == r
  {
    if r.Success? {
      assert [] + r.value == r.value;
    }
  }

  lemma PrefixedStep(done: Dict, p: (string, string), rest: Result<Dict>)
    ensures Prefixed(done, match rest case Failure(e) => Failure(e) case Success(d) => Success([p] + d))
         == Prefixed(done + [p], rest)
  {
    if rest.Success? {
      assert done + ([p] + rest.value) == (done + [p]) + rest.value;
    }
  }

  lemma {:induction false} BindArgsEach(args: seq<Expr>, context: string)
    ensures forall j :: 0 <= j < |args| ==> BindArgs(args, context)[j] == BindArg(args[j], context)
    decreases |args|
  {
    if |args| > 0 {
      BindArgsEach(args[1..], context);
      assert forall j :: 1 <= j < |args| ==> args[1..][j - 1] == args[j];
    }
  }

  lemma {:induction false} SelectAppend(xs: seq<string>, x: string, keep: string -> bool)
    ensures Select(xs + [x], keep) == Select(xs, keep) + (if keep(x) then [x] else [])
    decreases |xs|
  {
    if |xs| == 0 {
      assert xs + [x] == [x];
      assert [x][1..] == [];
    } else {
      assert (xs + [x])[1..] == xs[1..] + [x];
      SelectAppend(xs[1..], x, keep);
    }
  }

  lemma {:induction false} LetLinesAppend(names: seq<string>, x: string)
    ensures LetLines(names + [x]) == LetLines(names) + ["let $" + x + " := " + LetValue(x)]
  {
    var l := LetLines(names + [x]);
    var r := LetLines(names) + ["let $" + x + " := " + LetValue(x)];
    assert |l| == |r|;
    forall i | 0 <= i < |l| ensures l[i] == r[i] {
      if i < |names| {
        assert (names + [x])[i] == names[i];
      }
    }
  }
}
