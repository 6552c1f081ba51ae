// The state the XQuery builder accumulates (`Xquery`, query.py:800-1425) as a value, with
// the effect of each builder operation on it.  The imperative class in xquery.dfy is proved
// to change its fields exactly as these functions say.
module QueryModel {
  import opened Wrappers
  import opened Text
  import opened Literals

  // ---------------------------------------------------------------------------------------
  // Python dictionaries with string keys, kept in insertion order.

  type Dict = seq<(string, string)>

  function Keys(d: Dict): (ks: seq<string>)
    ensures |ks| == |d|
    ensures forall i :: 0 <= i < |d| ==> ks[i] == d[i].0
  {
    if |d| == 0 then [] else [d[0].0] + Keys(d[1..])
  }

  predicate NoDup<T(==)>(s: seq<T>)
  {
    forall i, j :: 0 <= i < j < |s| ==> s[i] != s[j]
  }

  /** `d.get(k)`. */
  function Get(d: Dict, k: string): (r: Option<string>)
    ensures r.Some? <==> k in Keys(d)
  {
    if |d| == 0 then None else if d[0].0 == k then Some(d[0].1) else Get(d[1..], k)
  }

  lemma GetCons(p: (string, string), d: Dict, k: string)
    ensures Get([p] + d, k) == if p.0 == k then Some(p.1) else Get(d, k)
  {
    assert ([p] + d)[1..] == d;
  }

  /** `d[k] = v`: an existing key keeps its place, a new key goes last. */
  function Put(d: Dict, k: string, v: string): (r: Dict)
    ensures Keys(r) == if k in Keys(d) then Keys(d) else Keys(d) + [k]
    ensures forall j :: Get(r, j) == if j == k then Some(v) else Get(d, j)
  {
    if |d| == 0 then [(k, v)]
    else if d[0].0 == k then [(k, v)] + d[1..]
    else
      var rest := Put(d[1..], k, v);
      assert Keys([d[0]] + rest) == [d[0].0] + Keys(rest);
      [d[0]] + rest
  }

  /** `d.update(e)`, and `dict(d, **e)`. */
  function Update(d: Dict, e: Dict): Dict
    decreases |e|
  {
    if |e| == 0 then d else Update(Put(d, e[0].0, e[0].1), e[1..])
  }

  lemma {:induction false} PutNoDup(d: Dict, k: string, v: string)
    requires NoDup(Keys(d))
    ensures NoDup(Keys(Put(d, k, v)))
  {
  }

  /**
   * After an update a key maps to its value in `e` if `e` has it and to its old value
   * otherwise; no key is listed twice.
   */
  lemma {:induction false} UpdateGet(d: Dict, e: Dict)
    requires NoDup(Keys(d)) && NoDup(Keys(e))
    ensures NoDup(Keys(Update(d, e)))
    ensures forall j :: Get(Update(d, e), j) == if j in Keys(e) then Get(e, j) else Get(d, j)
    ensures forall j :: j in Keys(Update(d, e)) <==> j in Keys(d) || j in Keys(e)
    decreases |e|
  {
    if |e| > 0 {
      var d1 := Put(d, e[0].0, e[0].1);
      PutNoDup(d, e[0].0, e[0].1);
      var t := e[1..];
      assert Keys(e) == [e[0].0] + Keys(t);
      assert NoDup(Keys(t)) by {
        forall i, j | 0 <= i < j < |Keys(t)| ensures Keys(t)[i] != Keys(t)[j] {
          assert Keys(t)[i] == Keys(e)[i + 1] && Keys(t)[j] == Keys(e)[j + 1];
        }
      }
      UpdateGet(d1, t);
      forall j ensures Get(Update(d, e), j) == if j in Keys(e) then Get(e, j) else Get(d, j) {
        if j == e[0].0 {
          assert j !in Keys(t) by {
            forall i | 0 <= i < |Keys(t)| ensures Keys(t)[i] != j {
              assert Keys(t)[i] == Keys(e)[i + 1];
            }
          }
        }
      }
    }
  }

  // ---------------------------------------------------------------------------------------
  // The builder's constants (query.py:813-822).

  const DefaultXPath: string := "/node()"
  const FtOptionVar: string := "$ft_options"
  const RawPrefix: string := "r_"

  const AvailableFilters: seq<string> :=
    ["contains", "startswith", "exact", "fulltext_terms", "highlight", "in", "document_path",
     "exists", "gt", "gte", "lt", "lte"]

  const SpecialFields: seq<string> :=
    ["fulltext_score", "last_modified", "hash", "document_name", "collection_name", "match_count"]

  // ---------------------------------------------------------------------------------------
  // The accumulated state.

  /**
   * One `Xquery` object's attributes.  `namespaces` None and `{}` behave the same and are
   * both the empty Dict; `fieldCount` is `_return_field_count`.
   */
  datatype QueryState = QueryState(
    xpath: string,
    collection: Option<string>,
    document: Option<string>,
    namespaces: Dict,
    filters: seq<string>,
    orFilters: seq<string>,
    notFilters: seq<string>,
    whereFilters: seq<string>,
    whereFields: seq<string>,
    orderBy: Option<string>,
    orderByRaw: bool,
    orderMode: Option<string>,
    returnFields: Dict,
    alsoFields: Dict,
    rawFields: seq<string>,
    start: int,
    end: Option<int>,
    distinct: bool,
    returnXPaths: seq<Option<string>>,
    fieldCount: int,
    ftOptions: Dict,
    ftQuery: bool,
    highlight: Option<FilterValue>)

  /** `collection.lstrip('/')`. */
  function CollectionName(c: Option<string>): (r: Option<string>)
    ensures r.Some? <==> c.Some?
  {
    match c
    case None => None
    case Some(name) => Some(LStrip(name, {'/'}))
  }

  /** What every state reachable through the builder satisfies. */
  ghost predicate Valid(st: QueryState)
  {
    && NoDup(Keys(st.returnFields))
    && NoDup(Keys(st.alsoFields))
    && CollectionName(st.collection) == st.collection
  }

  /** `Xquery(xpath, collection, document, namespaces, fulltext_options)`. */
  function Init(xpath: Option<string>, collection: Option<string>, document: Option<string>,
                namespaces: Dict, ftOptions: Dict): (st: QueryState)
    ensures st.xpath == xpath.GetOr(DefaultXPath)
    ensures st.filters == st.orFilters == st.notFilters == st.whereFilters == []
    ensures st.returnFields == st.alsoFields == [] && st.start == 0 && st.end == None
    ensures Valid(st)
  {
    QueryState(xpath.GetOr(DefaultXPath), CollectionName(collection), document, namespaces,
               [], [], [], [], [], None, false, None, [], [], [], 0, None, false, [], 1,
               ftOptions, false, None)
  }

  function SetCollection(st: QueryState, collection: Option<string>): (r: QueryState)
    ensures r == st.(collection := r.collection)
    ensures r.collection.Some? <==> collection.Some?
    ensures collection.Some? ==> !StartsWith(r.collection.value, "/")
    ensures Valid(st) ==> Valid(r)
  {
    st.(collection := CollectionName(collection))
  }

  function SetDocument(st: QueryState, document: Option<string>): QueryState
  {
    st.(document := document)
  }

  /**
   * `getCopy`: the copy is built from the constructor and then given this state's lists,
   * sort, projections, field count and full-text settings; the limits are not copied.
   */
  function Copy(st: QueryState): QueryState
  {
    var base := Init(Some(st.xpath), st.collection, st.document, st.namespaces, []);
    base.(filters := base.filters + st.filters,
          whereFilters := base.whereFilters + st.whereFilters,
          orFilters := base.orFilters + st.orFilters,
          notFilters := base.notFilters + st.notFilters,
          whereFields := st.whereFields,
          orderBy := st.orderBy, orderByRaw := st.orderByRaw, orderMode := st.orderMode,
          distinct := st.distinct,
          returnFields := st.returnFields, alsoFields := st.alsoFields,
          rawFields := st.rawFields, returnXPaths := st.returnXPaths,
          fieldCount := st.fieldCount, ftOptions := st.ftOptions,
          ftQuery := st.ftQuery, highlight := st.highlight)
  }

  /** A copy equals the original with its limits cleared. */
  lemma CopyDropsLimits(st: QueryState)
    requires Valid(st)
    ensures Copy(st) == st.(start := 0, end := None)
  {
    var base := Init(Some(st.xpath), st.collection, st.document, st.namespaces, []);
    assert base.collection == st.collection;
    EmptyAppend(st.filters);
    EmptyAppend(st.orFilters);
    EmptyAppend(st.notFilters);
    EmptyAppend(st.whereFilters);
  }

  lemma EmptyAppend(s: seq<string>)
    ensures [] + s == s
  {
  }

  function SortOrder(ascending: bool): string
  {
    if ascending then "ascending" else "descending"
  }

  /** `sort(field, ascending, case_insensitive)`: replaces any earlier sort. */
  function Sort(st: QueryState, field: string, ascending: bool, caseInsensitive: bool): (r: QueryState)
    ensures r == st.(orderBy := r.orderBy, orderMode := r.orderMode)
    ensures r.orderBy == Some(if caseInsensitive then "fn:lower-case(" + field + ")" else field)
    ensures r.orderMode == Some(if ascending then "ascending" else "descending")
  {
    st.(orderBy := Some(if caseInsensitive then "fn:lower-case(" + field + ")" else field),
        orderMode := Some(SortOrder(ascending)))
  }

  /** `sort_raw(xpath, ascending)`. */
  function SortRaw(st: QueryState, xpath: string, ascending: bool): (r: QueryState)
    ensures r == st.(orderBy := Some(xpath), orderByRaw := true, orderMode := r.orderMode)
    ensures r.orderMode == Some(if ascending then "ascending" else "descending")
  {
    st.(orderBy := Some(xpath), orderByRaw := true, orderMode := Some(SortOrder(ascending)))
  }

  /** `return_only(fields, raw)` / `return_also(fields, raw)`. */
  function ReturnOnly(st: QueryState, fields: Dict, raw: bool): (r: QueryState)
    ensures r == st.(returnFields := r.returnFields, rawFields := r.rawFields)
    ensures r.rawFields == st.rawFields + (if raw then Keys(fields) else [])
  {
    st.(returnFields := Update(st.returnFields, fields),
        rawFields := st.rawFields + (if raw then Keys(fields) else []))
  }

  function ReturnAlso(st: QueryState, fields: Dict, raw: bool): (r: QueryState)
    ensures r == st.(alsoFields := r.alsoFields, rawFields := r.rawFields)
    ensures r.rawFields == st.rawFields + (if raw then Keys(fields) else [])
  {
    st.(alsoFields := Update(st.alsoFields, fields),
        rawFields := st.rawFields + (if raw then Keys(fields) else []))
  }

  /** Projections keep every earlier field, let the new value of a repeated name win, and keep Valid. */
  lemma ReturnOnlyFields(st: QueryState, fields: Dict, raw: bool)
    requires Valid(st) && NoDup(Keys(fields))
    ensures Valid(ReturnOnly(st, fields, raw))
    ensures forall k :: Get(ReturnOnly(st, fields, raw).returnFields, k) ==
                        if k in Keys(fields) then Get(fields, k) else Get(st.returnFields, k)
  {
    UpdateGet(st.returnFields, fields);
  }

  lemma ReturnAlsoFields(st: QueryState, fields: Dict, raw: bool)
    requires Valid(st) && NoDup(Keys(fields))
    ensures Valid(ReturnAlso(st, fields, raw))
    ensures forall k :: Get(ReturnAlso(st, fields, raw).alsoFields, k) ==
                        if k in Keys(fields) then Get(fields, k) else Get(st.alsoFields, k)
  {
    UpdateGet(st.alsoFields, fields);
  }

  /** `clear_filters`: only the AND filters go; OR, NOT and where filters stay. */
  function ClearFilters(st: QueryState): (r: QueryState)
    ensures r.filters == [] && r.orFilters == st.orFilters && r.notFilters == st.notFilters
    ensures r.whereFilters == st.whereFilters && r == st.(filters := [])
  {
    st.(filters := [])
  }

  /** `set_limits(low, high)`: the high bound first, then the low bound, both relative to start. */
  function SetLimits(st: QueryState, low: Option<int>, high: Option<int>): QueryState
  {
    var end1 := match high
      case None => st.end
      case Some(h) => (match st.end case Some(e) => Some(Min(e, st.start + h)) case None => Some(st.start + h));
    var start1 := match low
      case None => st.start
      case Some(l) => (match end1 case Some(e) => Min(e, st.start + l) case None => st.start + l);
    st.(start := start1, end := end1)
  }

  function Min(a: int, b: int): int
  {
    if a <= b then a else b
  }

  function ClearLimits(st: QueryState): (r: QueryState)
    ensures r.start == 0 && r.end == None && r == st.(start := 0, end := None)
  {
    st.(start := 0, end := None)
  }

  /**
   * Limits only shrink the window: with non-negative bounds the start never passes the
   * end, the start never moves back and the end never moves forward.
   */
  lemma SetLimitsWindow(st: QueryState, low: Option<int>, high: Option<int>)
    requires st.start >= 0 && (st.end.Some? ==> st.start <= st.end.value)
    requires (low.Some? ==> low.value >= 0) && (high.Some? ==> high.value >= 0)
    ensures var r := SetLimits(st, low, high);
            && st.start <= r.start
            && (r.end.Some? ==> r.start <= r.end.value)
            && (st.end.Some? ==> r.end.Some? && r.end.value <= st.end.value)
            && (high.Some? ==> r.end.Some? && r.end.value <= st.start + high.value)
            && (low.Some? && r.end.Some? ==> r.start == Min(r.end.value, st.start + low.value))
  {
  }

  /**
   * Slicing twice composes like Django's: `[2:10]` then `[1:5]` of that is `[3:7]` of the
   * whole, which is `subsequence(q, 4, 4)` once compiled.
   */
  lemma SetLimitsCompose(st: QueryState)
    requires st.start == 0 && st.end == None
    ensures var r := SetLimits(SetLimits(st, Some(2), Some(10)), Some(1), Some(5));
            r.start == 3 && r.end == Some(7)
  {
  }

  // ---------------------------------------------------------------------------------------
  // add_filter (query.py:1067-1170)

  /** `'%s' % value` for the numeric comparisons: numbers as themselves, bools as True/False. */
  function ComparisonOperand(value: FilterValue): Result<string>
  {
    match value
    case Int(n) => Success(IntToString(n))
    case Bool(b) => Success(if b then "True" else "False")
    case _ => QuoteAsStringLiteral(value)
  }

  function ComparisonOp(ty: string): string
  {
    if ty == "gt" then ">" else if ty == "gte" then ">=" else if ty == "lt" then "<" else "<="
  }

  /** The members `for v in value` visits: a list's items, or a string's characters. */
  function Members(value: FilterValue): Result<seq<FilterValue>>
  {
    match value
    case List(items) => Success(items)
    case Str(s) => Success(seq(|s|, i requires 0 <= i < |s| => Str([s[i]])))
    case _ => Failure(TypeError("object is not iterable"))
  }

  /** `x="v1" or x="v2" …` over the members. */
  function InTerms(x: string, vs: seq<FilterValue>): Result<seq<string>>
  {
    if |vs| == 0 then Success([])
    else
      var q :- QuoteAsStringLiteral(vs[0]);
      var rest :- InTerms(x, vs[1..]);
      Success([x + "=" + q] + rest)
  }

  /**
   * The filter text for one filter type, None for `highlight`.  `document_path` is offered
   * but builds nothing, so reading the unset local `filter` fails.
   */
  function FilterText(ty: string, x: string, value: FilterValue, ftOptions: bool): Result<Option<string>>
  {
    if ty == "contains" then
      var q :- QuoteAsStringLiteral(value); Success(Some("contains(" + x + ", " + q + ")"))
    else if ty == "startswith" then
      var q :- QuoteAsStringLiteral(value); Success(Some("starts-with(" + x + ", " + q + ")"))
    else if ty == "exact" then
      var q :- QuoteAsStringLiteral(value); Success(Some(x + " = " + q))
    else if ty == "exists" then
      Success(Some(if value == Bool(true) then x else "not(" + x + ")"))
    else if ty == "fulltext_terms" then
      var q :- QuoteAsStringLiteral(value);
      Success(Some(if ftOptions then "ft:query(" + x + ", " + q + ", " + FtOptionVar + ")"
                   else "ft:query(" + x + ", " + q + ")"))
    else if ty == "highlight" then Success(None)
    else if ty == "in" then
      var vs :- Members(value);
      var terms :- InTerms(x, vs);
      Success(Some(Join(" or ", terms)))
    else if ty in ["gt", "gte", "lt", "lte"] then
      var v :- ComparisonOperand(value);
      Success(Some(x + " " + ComparisonOp(ty) + " " + v))
    else Failure(UnboundLocalError("filter"))
  }

  /** The result of a builder call that may raise after changing part of the state. */
  datatype Outcome = Outcome(state: QueryState, error: Option<Error>)

  /** Where a built filter goes: special fields to the where clause, else by mode. */
  function Route(st: QueryState, special: bool, mode: Option<string>, f: string): QueryState
  {
    if special then st.(whereFilters := st.whereFilters + [f])
    else if mode == Some("OR") then st.(orFilters := st.orFilters + [f])
    else if mode == Some("NOT") then st.(notFilters := st.notFilters + [f])
    else st.(filters := st.filters + [f])
  }

  /** `add_filter(xpath, type, value, mode)`. */
  function AddFilter(st: QueryState, xpath: string, ty: string, value: FilterValue,
                     mode: Option<string>): Outcome
  {
    if ty !in AvailableFilters then Outcome(st, Some(TypeError(ty)))
    else
      var special := xpath in SpecialFields;
      var st1 := if special then st.(whereFields := st.whereFields + [xpath]) else st;
      var x := if special then "$" + xpath else xpath;
      match FilterText(ty, x, value, |st.ftOptions| > 0)
      case Failure(e) => Outcome(st1, Some(e))
      case Success(f) => Outcome(Record(st1, special, ty, value, mode, f), None)
  }

  /** A full-text filter marks the query as full-text; a highlight filter also keeps its terms. */
  function Flags(st: QueryState, ty: string, value: FilterValue): QueryState
  {
    if ty == "fulltext_terms" then st.(ftQuery := true)
    else if ty == "highlight" then st.(highlight := Some(value), ftQuery := true)
    else st
  }

  /** What a built filter changes: the full-text flags, then the list its text is routed to. */
  function Record(st: QueryState, special: bool, ty: string, value: FilterValue, mode: Option<string>,
                  f: Option<string>): QueryState
  {
    match f
    case None => Flags(st, ty, value)
    case Some(text) => Route(Flags(st, ty, value), special, mode, text)
  }

  /** An unknown filter type raises TypeError and changes nothing. */
  lemma AddFilterRejects(st: QueryState, xpath: string, ty: string, value: FilterValue, mode: Option<string>)
    ensures ty !in AvailableFilters ==> AddFilter(st, xpath, ty, value, mode) == Outcome(st, Some(TypeError(ty)))
  {
  }

  /** `document_path` always fails, after recording a special field. */
  lemma DocumentPathFails(st: QueryState, xpath: string, value: FilterValue, mode: Option<string>)
    ensures var o := AddFilter(st, xpath, "document_path", value, mode);
            && o.error == Some(UnboundLocalError("filter"))
            && o.state == (if xpath in SpecialFields then st.(whereFields := st.whereFields + [xpath]) else st)
  {
  }

  /**
   * A successful filter on an ordinary path lands in exactly one list, chosen by its mode,
   * and at its end; the where clause and every other list are untouched.
   */
  lemma AddFilterRoutes(st: QueryState, xpath: string, ty: string, value: FilterValue, mode: Option<string>)
    requires xpath !in SpecialFields && ty != "highlight"
    requires FilterText(ty, xpath, value, |st.ftOptions| > 0).Success?
    requires ty in AvailableFilters
    ensures var o := AddFilter(st, xpath, ty, value, mode);
            var f := FilterText(ty, xpath, value, |st.ftOptions| > 0).value.value;
            && o.error == None
            && o.state.whereFilters == st.whereFilters && o.state.whereFields == st.whereFields
            && o.state.filters == (if mode != Some("OR") && mode != Some("NOT") then st.filters + [f] else st.filters)
            && o.state.orFilters == (if mode == Some("OR") then st.orFilters + [f] else st.orFilters)
            && o.state.notFilters == (if mode == Some("NOT") then st.notFilters + [f] else st.notFilters)
            && o.state.ftQuery == (st.ftQuery || ty == "fulltext_terms")
  {
    var t := FilterText(ty, xpath, value, |st.ftOptions| > 0);
    FilterTextNone(ty, xpath, value, |st.ftOptions| > 0);
    var f := t.value.value;
    var st2 := Flags(st, ty, value);
    assert AddFilter(st, xpath, ty, value, mode) == Outcome(Route(st2, false, mode, f), None);
    RouteLands(st2, false, mode, f);
  }

  /** A filter on a special field is written against `$name` and moves to the where clause. */
  lemma AddFilterSpecial(st: QueryState, xpath: string, ty: string, value: FilterValue, mode: Option<string>)
    requires xpath in SpecialFields && ty in AvailableFilters && ty != "highlight"
    requires FilterText(ty, "$" + xpath, value, |st.ftOptions| > 0).Success?
    ensures var o := AddFilter(st, xpath, ty, value, mode);
            var f := FilterText(ty, "$" + xpath, value, |st.ftOptions| > 0).value.value;
            && o.error == None
            && o.state.whereFields == st.whereFields + [xpath]
            && o.state.whereFilters == st.whereFilters + [f]
            && o.state.filters == st.filters && o.state.orFilters == st.orFilters
            && o.state.notFilters == st.notFilters
  {
    var x := "$" + xpath;
    var f := FilterText(ty, x, value, |st.ftOptions| > 0).value.value;
    var st1 := st.(whereFields := st.whereFields + [xpath]);
    var st2 := if ty == "fulltext_terms" then st1.(ftQuery := true) else st1;
    AddFilterBuilds(st, xpath, ty, value, mode);
    RouteLands(st2, true, mode, f);
  }

  /** A filter that builds its text is routed from the state with the special field and full text recorded. */
  lemma AddFilterBuilds(st: QueryState, xpath: string, ty: string, value: FilterValue, mode: Option<string>)
    requires ty in AvailableFilters && ty != "highlight"
    requires FilterText(ty, if xpath in SpecialFields then "$" + xpath else xpath, value, |st.ftOptions| > 0).Success?
    ensures var special := xpath in SpecialFields;
            var st1 := if special then st.(whereFields := st.whereFields + [xpath]) else st;
            var st2 := if ty == "fulltext_terms" then st1.(ftQuery := true) else st1;
            var t := FilterText(ty, if special then "$" + xpath else xpath, value, |st.ftOptions| > 0).value;
            t.Some? && AddFilter(st, xpath, ty, value, mode) == Outcome(Route(st2, special, mode, t.value), None)
  {
    var x := if xpath in SpecialFields then "$" + xpath else xpath;
    FilterTextNone(ty, x, value, |st.ftOptions| > 0);
  }

  /** The list a built filter lands in grows by that filter; the others stay as they were. */
  lemma RouteLands(st: QueryState, special: bool, mode: Option<string>, f: string)
    ensures var r := Route(st, special, mode, f);
            && r.whereFields == st.whereFields && r.ftQuery == st.ftQuery
            && r.whereFilters == (if special then st.whereFilters + [f] else st.whereFilters)
            && r.filters == (if !special && mode != Some("OR") && mode != Some("NOT") then st.filters + [f] else st.filters)
            && r.orFilters == (if !special && mode == Some("OR") then st.orFilters + [f] else st.orFilters)
            && r.notFilters == (if !special && mode == Some("NOT") then st.notFilters + [f] else st.notFilters)
  {
  }

  /** Only `highlight` builds no filter, and it records its value and turns on full text. */
  lemma FilterTextNone(ty: string, x: string, value: FilterValue, ft: bool)
    ensures FilterText(ty, x, value, ft) == Success(None) <==> ty == "highlight"
  {
  }

  /** `in` over a list writes one equality per member, joined with `or`. */
  lemma InFilterTerms(x: string, vs: seq<FilterValue>)
    requires forall i :: 0 <= i < |vs| ==> vs[i].Str?
    ensures InTerms(x, vs).Success?
    ensures |InTerms(x, vs).value| == |vs|
    ensures forall i :: 0 <= i < |vs| ==>
              InTerms(x, vs).value[i] == x + "=\"" + EscapeString(vs[i].s) + "\""
    decreases |vs|
  {
    if |vs| > 0 {
      InFilterTerms(x, vs[1..]);
    }
  }

  /** A filter whose value cannot be quoted fails with the quoting error. */
  lemma ContainsNeedsString(x: string, value: FilterValue, ft: bool)
    ensures FilterText("contains", x, value, ft).Success? <==> value.Str? || value.XmlQuery?
  {
  }
}
