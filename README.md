# eulexistdb query core in Dafny

A model of the parts of eulexistdb that turn Django-style queries into XQuery for an eXist
XML database and read results back, with proofs about them:

- **the query builder** `Xquery` (module `XqueryBuilder`, with the state and its operations
  in `QueryModel`, the compiler in `Compiler`, XPath rebinding in `Binding`, the constructed
  return and its locators in `Returns`, raw XPath formatting in `RawXPath`, string literals
  in `Literals`);
- **the lazy result set** `QuerySet` (module `QuerySets`) over an abstract eXist server
  (`QuerySets.Database`): copies, filtering, projections, sorting, counting, indexing,
  slicing, `get` and `reset`;
- **the `__`-separated field definitions** (`FieldDefs`), the keyword argument and `order_by`
  resolution (`Filters`, `Projections`) and the return class `_create_return_class` builds,
  kept as a schema descriptor (`ReturnClasses`);
- **the `exist_matches` template filter**, which renders highlighted matches (`Highlight`);
- **the REST and configuration path helpers** of `ExistDB` (`DbPaths`), the error message
  classification of `ExistDBException` (`Errors`) and the patch request registry (`Patches`).

What the code changes in place is modelled in place. `Xquery`, `QuerySet`, the server and the
patch registry are classes. The lists that copies of a builder share by reference
(`where_fields`, `raw_fields`, `return_xpaths`) are objects of their own. Each method is
proved against a function of the old state (`QueryModel`, `Compiler`, `Returns`, `Filters`).
The properties are stated as lemmas about those functions: filter routing, the plain path or
FLWOR choice, limits and `subsequence`, locators kept in lock-step with the constructed
return, and round trips of string literals.

XPath parsing belongs to the external eulxml library. It is a parameter `parse` of the
builder, and the XPath syntax tree is a datatype with its own serialiser. The server is
modelled by a function from query text to its full result list, plus the sessions it holds
open.

Where the code and its comments disagree, the model follows the code:

- A slice start is absolute, not relative to the current window. `_getCopy` builds a new
  `QuerySet`, so the copy starts at 0, and a slice without a start gets 0, although the
  comment says the current start is retained (query.py:547-550).
- The slice stop is `min(stop, count())`, with Python 2's `min(None, n) == None`
  (query.py:553).
- `clear_filters` clears only the AND filters. `reset` keeps the result cache (see Findings).
- `get` calls `count()` up to three times, as the code does.

## Model

| member | source | states |
|---|---|---|
| Literals.EscapeStringPerChar | eulexistdb/query.py:787-789 | the two chained replacements act on each character on its own: `"` becomes `""`, `&` becomes `&amp;`, anything else is kept |
| Literals.EscapeIdentity | eulexistdb/query.py:787-789 | a string with no `"` and no `&` is returned unchanged |
| Literals.QuoteRoundTrip | eulexistdb/query.py:792-797 | reading the quoted form back as an XQuery string literal gives exactly the original string, and the literal ends where the quoting ends, whatever text follows |
| Literals.QuoteInjective | eulexistdb/query.py:792-797 | distinct strings are quoted to distinct literals |
| XPath.ReturnNameFromXPath | eulexistdb/query.py:1245-1262 | the wrapper element name is never `node()` or `*`; unless it is the fallback `node`, it is the node test of a step on the right-hand spine of the path |
| Binding.BindUnion | eulexistdb/query.py:1314-1323 | a union is bound operand by operand and rejoined with `\|`; every operand that is not a function call starts with the context |
| Binding.LocatorInField | eulexistdb/query.py:1376-1395 | a locator found for a path with no nested union points into the `k`-th `field` element |
| Binding.LocatorOfUnion | eulexistdb/query.py:1381-1386 | the locator of a union is its operands' locators joined with `\|`, all using the same field number |
| Binding.UnionFieldExample | test/test_existdb/test_query.py:924-927 | a union of an absolute path and an attribute, `/name\|@year`, as a return field is `<field>{$n/name\|$n/@year}</field>` |
| Binding.UnionLocatorExample | eulexistdb/query.py:1381-1386 | as the second return field, that union's locator is `field[2]/name\|field[2]/@year` |
| Binding.NestedCallExample | test/test_existdb/test_query.py:937-939 | the inner call of that test, `normalize-space(name\|title)`, becomes `normalize-space($n/name\|$n/title)` |
| Binding.UnionArgExample | eulexistdb/query.py:1350-1357 | a `\|` argument of a call is bound on both sides |
| Binding.CallArgumentExample | test/test_existdb/test_query.py:915 | in `substring(title,1,1)` only the step argument is bound |
| RawXPath.RawFormatPlain | eulexistdb/query.py:1004 | a raw XPath with no `%` is used as it is |
| RawXPath.RawFormatEscaped | eulexistdb/query.py:1175-1177 | doubling every `%` is undone by the formatting, so `%%` is a plain `%` |
| RawXPath.RawFormatPlainPrefix | eulexistdb/query.py:1004 | text without `%` before a formattable rest is kept as it is, in front of the formatted rest |
| RawXPath.RawFormatOneVariable | eulexistdb/query.py:1004 | plain text around one `%(xq_var)s` becomes that text around `$n` |
| RawXPath.RawFormatVariable | eulexistdb/query.py:1226-1229 | a leading `%(xq_var)s` becomes the FLWOR variable `$n`, and the rest is formatted as before, failing the same way |
| QueryModel.UpdateGet | eulexistdb/query.py:1185 | after `dict.update` each key maps to the new value if the update has it, else to the old one; no key is listed twice, and the keys are the union |
| QueryModel.CollectionName | eulexistdb/query.py:100 | the builder has a collection exactly when the set was given one |
| QueryModel.Init | eulexistdb/query.py:824-860 | a new builder has the given or default xpath, no filters, no projections and no limits |
| QueryModel.SetCollection | eulexistdb/query.py:865-870 | only the collection changes; a given name loses its leading `/` |
| QueryModel.CopyDropsLimits | eulexistdb/query.py:875-896 | a copy is the original with its limits cleared |
| QueryModel.Sort | eulexistdb/query.py:1041-1057 | the sort replaces any earlier one and nothing else changes; a case-insensitive sort wraps the field in `fn:lower-case(...)` |
| QueryModel.SortRaw | eulexistdb/query.py:1059-1062 | the raw sort sets the field, the raw flag and the order, and nothing else |
| QueryModel.ReturnOnly | eulexistdb/query.py:1172-1187 | only the returned fields and `raw_fields` change; raw names are appended |
| QueryModel.ReturnAlso | eulexistdb/query.py:1189-1200 | only the additional fields and `raw_fields` change; raw names are appended |
| QueryModel.ReturnOnlyFields | eulexistdb/query.py:1185-1187 | earlier returned fields are kept, a repeated name takes its new XPath, and the state stays valid |
| QueryModel.ReturnAlsoFields | eulexistdb/query.py:1198-1200 | the same for additional fields |
| QueryModel.ClearFilters | eulexistdb/query.py:1264-1265 | only the AND filters are cleared; OR, NOT and where filters stay |
| QueryModel.ClearLimits | eulexistdb/query.py:1287-1290 | the start becomes 0, the end None, and nothing else changes |
| QueryModel.SetLimitsWindow | eulexistdb/query.py:1267-1285 | with non-negative bounds the start never passes the end, the start never moves back, the end never moves forward, the end is at most start+high, and the start is `min(end, start+low)` |
| QueryModel.SetLimitsCompose | test/test_existdb/test_query.py:877-881 | `[2:10]` then `[1:5]` gives start 3 and end 7, which is `subsequence(q, 4, 4)` |
| QueryModel.AddFilterRejects | eulexistdb/query.py:1089-1090 | an unknown filter type raises TypeError and changes nothing |
| QueryModel.DocumentPathFails | eulexistdb/query.py:1092-1159 | `document_path` builds no filter and fails on the unbound local, after a special field has been recorded |
| QueryModel.AddFilterRoutes | eulexistdb/query.py:1159-1170 | a built filter on an ordinary path is appended to exactly the list its mode selects (AND by default); every other list and the where clause are unchanged |
| QueryModel.AddFilterSpecial | eulexistdb/query.py:1092-1164 | a filter on a special field is written against `$name`, goes to the where filters and records the name in `where_fields`; the other lists are unchanged |
| QueryModel.AddFilterBuilds | eulexistdb/query.py:1067-1170 | building a filter records the special field and the full-text flag first, then routes the text |
| QueryModel.RouteLands | eulexistdb/query.py:1159-1170 | the selected list grows by the filter, the others stay as they were |
| QueryModel.FilterTextNone | eulexistdb/query.py:1124-1130 | exactly `highlight` builds no filter text |
| QueryModel.InFilterTerms | eulexistdb/query.py:1137-1139 | `in` writes one quoted equality per member |
| QueryModel.ContainsNeedsString | eulexistdb/query.py:1107-1110 | `contains` builds its filter exactly when the value is a string or an XML query |
| Compiler.AndBracketsAppend | eulexistdb/query.py:923 | filters are additive: a new AND filter adds one bracket after the earlier ones |
| Compiler.AndBracketsJoin | eulexistdb/query.py:923 | the AND brackets list the filters one by one, in insertion order |
| Compiler.LetLines | eulexistdb/query.py:964-989 | one `let $name := value` line per name, in order |
| Compiler.SpecialFieldsDistinct | eulexistdb/query.py:819-820 | the special field names are distinct |
| Compiler.LetNamesSpec | eulexistdb/query.py:964-989 | a special field gets a `let` exactly when the sort, a projection or a where filter refers to it, at most once, and in `special_fields` order |
| Compiler.NonEmpty | eulexistdb/query.py:1011-1012 | the FLWOR parts kept are exactly the non-empty ones |
| Compiler.Declarations | eulexistdb/query.py:903-906 | the namespace declarations are empty exactly when there are no namespaces |
| Compiler.FlworShape | eulexistdb/query.py:1011-1012 | the FLWOR form starts with the options `let` if there is one, else the `for` clause, and ends with the return clause |
| Compiler.RawSortLine | eulexistdb/query.py:998-1008 | a raw sort on plain text around `%(xq_var)s`, such as `min(%(xq_var)s/year)`, gives `order by` that text with `$n` written in, then the direction |
| Compiler.NoSpecialPercent | eulexistdb/query.py:998-1002 | a key with a `%` is never a special field, so a raw key is formatted |
| Compiler.CaseInsensitiveSortLine | test/test_existdb/test_query.py:710-711 | a case-insensitive descending sort on `@id` gives `order by fn:lower-case($n/@id) descending` |
| Compiler.FlworStarts | eulexistdb/query.py:945-1012 | a FLWOR query starts with `for $n in ` or with `let $ft_options := ` |
| Compiler.PlainPath | eulexistdb/query.py:1013-1021 | without a FLWOR the query is the filtered path, wrapped in `util:expand` when highlighting |
| Compiler.PlainPathIff | eulexistdb/query.py:945-1021 | for a selection that does not start with `f` or `l`, the query begins like a FLWOR exactly when one is needed (a sort, a projection, a where filter, or a full-text query with options); otherwise it is the plain path |
| Compiler.FlworEndsWithReturn | eulexistdb/query.py:1010-1012 | the FLWOR form ends with its return clause, which starts with `return ` |
| Compiler.SubsequenceIsSlice | eulexistdb/query.py:1030-1037 | `subsequence(q, start+1, end-start)` selects the Python slice `[start:end]` of the results, and `[start:]` when there is no end |
| Compiler.ClearLimitsUnwraps | eulexistdb/query.py:1287-1290 | without limits there is no `subsequence` wrapper; only `distinct-values` and the declarations remain |
| Compiler.BodyIgnoresLimits | eulexistdb/query.py:945-1021 | the query inside the wrappers does not depend on the limits |
| Compiler.CopyCompilesAlike | eulexistdb/query.py:875-896 | a copy compiles to the same query body as the original and has no limits |
| Compiler.BodyIgnoresLocators | eulexistdb/query.py:898-1021 | the query text does not depend on the recorded locators or the field counter |
| Returns.BuildBlocksLocators | eulexistdb/query.py:1220-1231 | the j-th locator recorded belongs to the j-th ordinary field and is numbered `k + j`; with no failure every ordinary field has one |
| Returns.BuildBlocksShape | eulexistdb/query.py:1220-1231 | each field gives one block, and exactly the ordinary fields give `<field>` blocks |
| Returns.SpecialNotField | eulexistdb/query.py:1223-1224 | a special field's block is not a `<field>` block |
| Returns.LocateFieldsSucceeds | eulexistdb/query.py:1414-1425 | reading one locator per ordinary field fails exactly when one of them is missing |
| Returns.LocateFieldsKeys | eulexistdb/query.py:1406-1425 | a successful read keeps the fields and their order |
| Returns.LocateFieldValue | eulexistdb/query.py:1422-1424 | the j-th ordinary field gets the j-th locator, behind the prefix |
| Returns.LocateFieldsNamed | eulexistdb/query.py:1415-1421 | special fields are located by their name, raw fields by `r_name/node()[not(normalize-space(.)="")]`, behind the prefix |
| Returns.ConstructReturnLocators | eulexistdb/query.py:1202-1243 | with projections, `_constructReturn` succeeds exactly when its field loop does, leaves the state `ReturnState` (the loop's locators, the counter one past them), and `get_return_xpaths` on that state reads exactly those locators |
| Returns.ReturnXPathsLockStep | eulexistdb/query.py:1397-1425 | once the return loop of `_constructReturn` has run without failing, `get_return_xpaths` on the state it leaves succeeds exactly when every ordinary field has a locator; then it keeps the fields, the j-th ordinary field maps to `field[j+1]`'s locator (behind `../` with also-fields), special fields map to their name and raw fields to their wrapper |
| Returns.LockStepCore | eulexistdb/query.py:1397-1425 | for any locator list numbering the ordinary fields from 1, `get_return_xpaths`'s loop gives that same lock-step result |
| FieldDefs.ExtractFieldPartSpec | eulexistdb/query.py:1485-1492 | the first part holds no `__`, and with a `__` the two parts rebuild the text; without one the text comes back whole with an empty rest |
| FieldDefs.ExtractKnown | eulexistdb/query.py:1485-1492 | a name free of `__` that does not end in `_` is split off exactly |
| FieldDefs.SplitFieldDef | eulexistdb/query.py:1463-1482 | the loop resolves the fields down the chain of node classes, as `FieldSplit` describes |
| FieldDefs.FieldSplitSuffix | eulexistdb/query.py:1463-1482 | what is left over is a tail of the definition |
| FieldDefs.FieldSplitStep | eulexistdb/query.py:1468-1477 | a known name followed by `__` resolves to its field, and the rest goes on from its node class |
| FieldDefs.FieldSplitLast | eulexistdb/query.py:1468-1482 | a known last name resolves to its field with nothing left over |
| FieldDefs.FieldSplitLeaf | eulexistdb/query.py:1476-1482 | after a field with no node class everything else is left over |
| FieldDefs.FieldSplitUnknown | eulexistdb/query.py:1470-1473 | an unknown name resolves nothing and leaves the whole definition |
| FieldDefs.SimpleTwoLevels | eulexistdb/query.py:1456-1460 | `a__b` through a node field `a` is `a`'s XPath, `/`, then `b`'s |
| FieldDefs.SimpleStopsAtLeaf | eulexistdb/query.py:1456-1460 | a definition that goes on past a field with no node class has no simple XPath |
| Filters.ResolveArg | eulexistdb/query.py:226-244 | the lookup type resolved is always one of the available filters |
| Filters.ResolveBare | eulexistdb/query.py:241-244 | a bare lookup type filters `.` |
| Filters.ResolveFieldExact | eulexistdb/query.py:241-244 | a model field named alone is compared with `exact` at its XPath |
| Filters.ResolveFieldLookup | eulexistdb/query.py:241-244 | `field__type` on a field with no node class filters that field's XPath by that type |
| Filters.ResolveSpecial | eulexistdb/query.py:228-234 | `special__type` filters the special field by that type |
| Filters.NotAFilter | eulexistdb/query.py:228-232 | a special field followed by `__` and a type is never itself a lookup type |
| Filters.ResolveUnknownWhole | eulexistdb/query.py:235-239 | an unknown lookup after a name that is not a special field makes the whole argument an XPath compared with `exact` |
| Filters.HighlightKwargAbsent | eulexistdb/query.py:257 | without a `highlight` argument there is no boolean to take |
| Filters.HighlightKwargFinds | eulexistdb/query.py:257 | a boolean `highlight` argument is found wherever it is |
| Filters.FilterArg | eulexistdb/query.py:226-271 | once an argument has raised, later arguments change nothing |
| Filters.FilterArgsStopped | eulexistdb/query.py:226-272 | the first failing argument decides the outcome of the whole loop |
| Filters.AddFilterKeeps | eulexistdb/query.py:1089-1170 | `add_filter` leaves the selection, projections, sort and limits alone, and only appends to the filter lists and `where_fields` |
| Filters.FulltextBuilds | eulexistdb/query.py:1121-1123 | a full-text filter on `.` builds and marks the query as full-text |
| Filters.FilterArgsFrame | eulexistdb/query.py:224-274 | however many arguments are applied, the selection, projections, sort and limits stay, and the AND list and `where_fields` only grow |
| Filters.FulltextHighlights | eulexistdb/query.py:255-262 | `fulltext_terms` turns highlighting on by default |
| Filters.HighlightAfterFulltext | eulexistdb/query.py:255-268 | a boolean `highlight` after `fulltext_terms` overrides the default |
| Filters.HighlightBeforeFulltext | eulexistdb/query.py:255-262 | a boolean `highlight` before `fulltext_terms` is kept by it |
| Projections.FieldXPathSimple | eulexistdb/query.py:364-371 | a name's XPath is its simple field XPath when it resolves fully, else the name; it is recorded as fields exactly then |
| Projections.OnlyObjs | eulexistdb/query.py:364-374 | after `partial_fields.update`, each requested name reads its resolution and every other name its old value |
| Projections.UpdateXPaths | eulexistdb/query.py:364-371 | after the loop, each requested name maps to its XPath and every other name as before |
| Projections.OnlyXPaths | eulexistdb/query.py:373-375 | after `return_only`, each requested name returns its XPath and every other name keeps its old one |
| Projections.ResolveFields | eulexistdb/query.py:361-371 | the loop of `only`/`also` fills `field_objs` and `field_xpath` as the specification functions describe |
| Projections.ResolveRawFields | eulexistdb/query.py:441-449 | the loop of `_raw_field` keeps each raw XPath and resolves the field objects as `only` does |
| Projections.FlagsEnd | eulexistdb/query.py:304-307 | `^(?P<flags>[~-]*)` matches the longest run of `-` and `~` at the front |
| Projections.ParseSortFlags | eulexistdb/query.py:304-314 | any run of flags before the field gives descending iff it holds `-`, and case-insensitive iff it holds `~` |
| Projections.FlagsAnyOrder | eulexistdb/query.py:311-314 | `-~name` and `~-name` are the same case-insensitive descending sort |
| Projections.NoFlags | eulexistdb/query.py:302-314 | a name without flags sorts ascending and case-sensitively |
| Projections.OrderXPath | eulexistdb/query.py:317 | a name that does not resolve sorts on itself; one that resolves sorts on its joined field XPath, or on the name when that XPath is empty |
| ReturnClasses.StripSiblingAbsent | eulexistdb/query.py:760-761 | an XPath with no following or preceding axis is kept |
| ReturnClasses.StripSiblingStep | eulexistdb/query.py:760-761 | a single `following`, `preceding` or sibling step, with or without a position, is reduced to its node test |
| ReturnClasses.LeafFieldTypes | eulexistdb/query.py:735-769 | `last_modified` is a date-time field, `match_count` an integer field, a name-only entry a string field, and otherwise the type of the last resolved field; node fields keep their node class; the XPath is the prefixed name or its override |
| ReturnClasses.CollectOverrides | eulexistdb/query.py:722-769 | the first loop over the override fields, as `Collect` describes |
| ReturnClasses.NestedField | eulexistdb/query.py:772-781 | the sub-object class for one base name, built recursively, in a node field at `.` |
| ReturnClasses.BuildSubclasses | eulexistdb/query.py:771-781 | the second loop: one node field per base name |
| ReturnClasses.CreateReturnClass | eulexistdb/query.py:696-784 | the schema `_create_return_class` builds, as `ReturnClass` describes |
| ReturnClasses.CollectLeaf | eulexistdb/query.py:724-769 | a name without `__`, not repeated later, keeps the field built for it |
| ReturnClasses.SubOrderFrom | eulexistdb/query.py:727-732 | every recorded base name comes from a `__` name |
| ReturnClasses.FinishKeeps | eulexistdb/query.py:771-781 | the second loop sets only the base names it visits |
| ReturnClasses.ReturnClassLeaf | eulexistdb/query.py:716-784 | the generated class is named `Partial<base>`, and a plain field in it is the field built from its own entry |
| XqueryBuilder.Xquery.constructor | eulexistdb/query.py:824-860 | a new builder in the state `Init` gives, with fresh shared lists |
| XqueryBuilder.Xquery.SetCollection | eulexistdb/query.py:865-870 | the state becomes `SetCollection` of the old one |
| XqueryBuilder.Xquery.SetDocument | eulexistdb/query.py:872-873 | only the document changes |
| XqueryBuilder.Xquery.GetCopy | eulexistdb/query.py:875-896 | the copy has the state `Copy` gives, with its own filter lists and projections, and the same `where_fields`, `raw_fields` and `return_xpaths` objects |
| XqueryBuilder.Xquery.Sort | eulexistdb/query.py:1041-1057 | the state becomes `Sort` of the old one |
| XqueryBuilder.Xquery.SortRaw | eulexistdb/query.py:1059-1062 | the state becomes `SortRaw` of the old one |
| XqueryBuilder.Xquery.Distinct | eulexistdb/query.py:1064-1065 | only the distinct flag is set |
| XqueryBuilder.Xquery.SetHighlight | eulexistdb/query.py:264-265 | only the `highlight` attribute is set |
| XqueryBuilder.Xquery.AddFilter | eulexistdb/query.py:1067-1170 | the state and error are what `AddFilter` gives; a special field is appended to the shared `where_fields` |
| XqueryBuilder.Xquery.AddKnownFilter | eulexistdb/query.py:1092-1170 | the same, once the filter type is known to be available |
| XqueryBuilder.Xquery.ReturnOnly | eulexistdb/query.py:1172-1187 | the state becomes `ReturnOnly` of the old one; raw names are appended to the shared `raw_fields` |
| XqueryBuilder.Xquery.ReturnAlso | eulexistdb/query.py:1189-1200 | the state becomes `ReturnAlso` of the old one |
| XqueryBuilder.Xquery.ClearFilters | eulexistdb/query.py:1264-1265 | the state becomes `ClearFilters` of the old one |
| XqueryBuilder.Xquery.SetLimits | eulexistdb/query.py:1267-1285 | the state becomes `SetLimits` of the old one |
| XqueryBuilder.Xquery.ClearLimits | eulexistdb/query.py:1287-1290 | the state becomes `ClearLimits` of the old one |
| XqueryBuilder.Xquery.PrepXPath | eulexistdb/query.py:1292-1374 | the bound path, wrapped in `<field>` for a return field; a return field appends exactly one locator, numbered by the counter, and the counter goes up by one |
| XqueryBuilder.Xquery.AddFieldBlocks | eulexistdb/query.py:1220-1231 | the return loop gives the blocks, locators and error of `BuildBlocks`, with locators numbered from the counter |
| XqueryBuilder.Xquery.ConstructReturn | eulexistdb/query.py:1202-1243 | the text and state `Returns.ConstructReturn` gives; a projection replaces `return_xpaths` with a new list |
| XqueryBuilder.Xquery.GetQuery | eulexistdb/query.py:898-1039 | the query and new state `Compiler.GetQuery` gives; the earlier `return_xpaths` list is never changed |
| XqueryBuilder.Xquery.GetReturnXPaths | eulexistdb/query.py:1397-1425 | the locator dictionary `Returns.GetReturnXPaths` gives |
| XqueryBuilder.CopyThenFilter | eulexistdb/query.py:878-881 | an ordinary filter added to a copy leaves the original as it was |
| XqueryBuilder.CopyThenSpecialFilter | eulexistdb/query.py:882 | a special-field filter added to a copy is also recorded in the original's `where_fields` |
| XqueryBuilder.CopyThenRawReturn | eulexistdb/query.py:890 | raw projections added to a copy are also recorded in the original's `raw_fields` |
| XqueryBuilder.CopyThenQuery | eulexistdb/query.py:1213-1214 | compiling a copy with projections gives the copy a new `return_xpaths` list, and the original is unchanged |
| XqueryBuilder.BindPath | eulexistdb/query.py:1292-1366 | `prep_xpath` without a return field gives the bound path `Bind` describes |
| XqueryBuilder.BindCallArgs | eulexistdb/query.py:1332-1357 | the argument loop rebinds the arguments as `BindArgs` describes |
| XqueryBuilder.AndFilterBrackets | eulexistdb/query.py:923 | the list comprehension gives one bracket per AND filter |
| XqueryBuilder.HighlightedPathPart | eulexistdb/query.py:908-942 | the path part: the base in its document or collection context, the filters, the highlight |
| XqueryBuilder.LetClause | eulexistdb/query.py:964-989 | the `let` lines of the referenced special fields, in order |
| XqueryBuilder.OrderClause | eulexistdb/query.py:998-1009 | the sort clause: a special variable, a formatted raw XPath or the bound XPath |
| XqueryBuilder.LocateLoop | eulexistdb/query.py:1414-1425 | the loop of `get_return_xpaths` gives what `LocateFields` describes |
| XqueryBuilder.ProjectedReturn | eulexistdb/query.py:1204-1243 | with projections, `_constructReturn` resets the counter and locators, then wraps the blocks in the return element, inside `util:expand` when highlighting |
| Highlight.WrapJoin | eulexistdb/templatetags/existdb.py:112-126 | joining what `_wrap` yields gives begin, text, parts, end and tail, in that order |
| Highlight.MatchBecomesSpan | eulexistdb/templatetags/existdb.py:105-108 | an `exist:match` element renders as `<span class="exist-match">`, its text and children, `</span>`, then its tail |
| Highlight.OtherElementUnwrapped | eulexistdb/templatetags/existdb.py:109-110 | any other element renders as its text, its children and its tail, with no markup of its own |
| Highlight.ChildrenInOrder | eulexistdb/templatetags/existdb.py:96-97 | children render one after another in document order, each with its tail |
| Highlight.TopTailOmitted | eulexistdb/templatetags/existdb.py:70 | the value's own tail never reaches the output |
| Highlight.RenderedSingleMatch | eulexistdb/templatetags/existdb.py:81-126 | for any escaping, an element with text `a` around one match of text `m` and tail `b` renders as escaped `a`, the span around escaped `m`, then escaped `b` |
| Highlight.SingleMatch | eulexistdb/templatetags/existdb.py:62-70 | an element with text `a` and one `exist:match` around `m` with tail `b` renders as `a`, the span around `m`, then `b`, each escaped when autoescape is on, and the element's own tail is dropped |
| Highlight.SingleMatchAbstract | test/test_existdb/test_templatetags.py:29-42 | the single-match abstract renders exactly as `Pitts v. <span class="exist-match">Freeman</span>` followed by its tail text |
| Highlight.OtherValues | eulexistdb/templatetags/existdb.py:67-72 | None renders as the empty string, and a plain value as its escaped text |
| Highlight.PlainTreeIsText | eulexistdb/templatetags/existdb.py:82-126 | with no match and no escaping, the rendering is exactly the text content |
| Highlight.NoAutoescape | eulexistdb/templatetags/existdb.py:62-70 | without autoescape and matches, the filter gives the value's text content |
| DbPaths.RestApiPath | eulexistdb/db.py:305-313 | the result is the URL without its trailing `/`, then `/rest/db`, then a path starting with `/` |
| DbPaths.RestApiPathForms | eulexistdb/db.py:308-312 | for a name not starting with `db`, `/db/x`, `/x` and `x` give the same REST path |
| DbPaths.RestApiPathDbPrefixClash | eulexistdb/db.py:308-309 | as written, `/dbx` and `/x` give the same REST path |
| DbPaths.RestApiPathFixedAgrees | eulexistdb/db.py:305-313 | the corrected builder agrees with the original wherever a `/db` prefix is a whole segment |
| DbPaths.RestApiPathFixedInjective | eulexistdb/db.py:305-313 | with the correction, distinct absolute paths outside `/db` give distinct REST paths |
| DbPaths.RestApiPathFixedDbRoot | eulexistdb/db.py:308-309 | with the correction, `/db/x` still means `/x` |
| DbPaths.ConfigCollectionName | eulexistdb/db.py:756-761 | the result is `/db/system/config/db/` followed by a name with no `/` at either end |
| DbPaths.CollectionIndexPath | eulexistdb/db.py:757-768 | the path is the `collection.xconf` file under `/db/system/config/db/`, inside a collection part with no slash at either end |
| DbPaths.CollectionIndexExample | test/test_existdb/test_db.py:449-450 | the index file of `foo` is `/db/system/config/db/foo/collection.xconf` |
| DbPaths.CollectionIndexSlashForms | eulexistdb/db.py:761-768 | `x`, `/x`, `x/` and `/x/` name the same index configuration file |
| DbPaths.ConfigNameLeadingSlash | eulexistdb/db.py:761 | a leading slash makes no difference |
| DbPaths.ConfigNameTrailingSlash | eulexistdb/db.py:761 | a trailing slash makes no difference |
| DbPaths.ConfigNameExamplePlain | eulexistdb/db.py:761 | `foo` gives `/db/system/config/db/foo` |
| DbPaths.ConfigNameSlashed | eulexistdb/db.py:761 | a name wrapped in slashes gives the same collection as the bare name |
| DbPaths.ConfigNamePlain | eulexistdb/db.py:761 | a name with no slash at either end is used as it is |
| DbPaths.ReindexNameRooted | eulexistdb/db.py:396-398 | the name passed to `xmldb:reindex` starts with `/db`, and normalising it again changes nothing |
| Errors.TimeoutFirst | eulexistdb/exceptions.py:29-34 | a socket timeout is `Request Timed Out`, checked before the general socket error, which is `I/O Error: ` and its text |
| Errors.ProtocolMessage | eulexistdb/exceptions.py:35-40 | a protocol error's message starts `XMLRPC Error at ` and holds the URL, the code and the unquoted message |
| Errors.PlainMessage | eulexistdb/exceptions.py:49-51 | any other text without the prefix is passed through |
| Errors.RpcMessage | eulexistdb/exceptions.py:42-48 | with one `RpcConnection: ` in the stripped text, the message is the text after it with the three noise strings removed |
| Errors.RpcMessageTwice | eulexistdb/exceptions.py:44 | a second prefix makes the unpacking fail |
| Errors.DenoiseXPath | eulexistdb/exceptions.py:46-48 | the XPath exception noise in front of a message is dropped and the message kept |
| Patches.SingleAsList | eulexistdb/patch.py:124-138 | a single class and a one-element list make the same request: the class is added when it is a subclass (or already requested), and otherwise ValueError names it and nothing changes |
| Patches.RequestedGrows | eulexistdb/patch.py:128-138 | the requested set only grows, and only by entries of the request |
| Patches.RequestedSucceeds | eulexistdb/patch.py:130-138 | a request succeeds exactly when every entry is a subclass or already requested, and then every entry is requested |
| Patches.RequestedFailure | eulexistdb/patch.py:135-136 | a failing request keeps what the entries before the bad one added, and the bad entry is not requested |
| Patches.RequestedTwice | eulexistdb/patch.py:130-133 | requesting a patch twice registers it once |
| Patches.PatchRegistry.RequestPatching | eulexistdb/patch.py:116-138 | the new set and error are what `Requested` gives for the request's items |
| Patches.RequestScenario | eulexistdb/patch.py:25-30 | `requested()` is false before a request and true after one |
| Patches.ApplyScenario | eulexistdb/patch.py:76-85 | on a fresh registry `apply` returns the pair untouched even when warranted; after the patch is requested it patches the pair when warranted and not otherwise |
| Patches.ApplyAfterFailedRequest | eulexistdb/patch.py:76-85 | a request that stops at an invalid class before the patch raises ValueError for that class, and a warranted `apply` afterwards still leaves the pair untouched |
| QuerySets.CachedWindow | eulexistdb/query.py:684-686 | the fetched window is cached under absolute 0-based positions from `start - 1`, each holding the result found there |
| QuerySets.QuerySet.constructor | eulexistdb/query.py:92-118 | a new set over a new builder, with the collection's leading `/` removed, the model's namespaces, no session, no count, an empty cache and the whole range |
| QuerySets.QuerySet.WithQuery | eulexistdb/query.py:101-102 | a new set over the given builder, with no session, no count and an empty cache |
| QuerySets.QuerySet.GetCopy | eulexistdb/query.py:163-176 | a new set over a copy of the builder, with the same projections and highlighting, and no cache, session or count |
| QuerySets.QuerySet.RunQuery | eulexistdb/query.py:657-687 | a compile error is returned first, then the error of the first access to the return type; otherwise the compiled query is sent with the open session or opens one, the session and hit count are kept, and the cache is replaced by the window; an error changes no session, count or cache; the return type is set from then on when there is a model and the set is not distinct |
| QuerySets.QuerySet.Send | eulexistdb/query.py:672-687 | with the compiled text, the return-type error is raised first; otherwise the server call and what it keeps are as `Fetched` says |
| QuerySets.QuerySet.RunFirst | eulexistdb/query.py:138-150 | the first run of `count()` succeeds exactly when the query compiles, the return type raises nothing and the start is a position; it then opens a session for the text, keeps its hit count, and caches the result at the start when there is one |
| QuerySets.QuerySet.ResolveReturnType | eulexistdb/query.py:587-631 | a set with a model that is not distinct sets its return type on the first access; only that access, and only with partial or additional fields, can fail, with the error of `get_return_xpaths` or of `_create_return_class` over the partial fields updated by the additional ones |
| QuerySets.ResultTypeOnce | eulexistdb/query.py:595-596 | once the return type is set, asking for it again raises nothing |
| QuerySets.ResultTypePlain | eulexistdb/query.py:595-631 | a set without a model, a distinct set, and one without partial or additional fields build no return class and raise nothing |
| QuerySets.AsMap | eulexistdb/query.py:606 | the map holds exactly the dictionary's keys, each with its value |
| QuerySets.QuerySet.Fetch | eulexistdb/query.py:672-686 | the server call and what is kept of its response |
| QuerySets.QuerySet.Count | eulexistdb/query.py:138-150 | with a stop, `stop - start` and no server call; with a session, the cached hits less the start; otherwise the query is run: a compile error or a return-type error is raised, and on success the result is the hit count less the start, with the first result cached when there is one |
| QuerySets.QuerySet.GetIndex | eulexistdb/query.py:561-585 | the result at absolute position `k + start`, after checking `0 <= k < count()` (IndexError otherwise); a negative `k` raises IndexError before any count or server call and changes nothing; a cached position is read without a server call |
| QuerySets.QuerySet.Lookup | eulexistdb/query.py:568-585 | the result at absolute position `i`, from the cache or fetched; a cached position changes nothing |
| QuerySets.QuerySet.FillWindow | eulexistdb/query.py:575-576 | an empty cache is filled from the window start; a non-empty one changes nothing |
| QuerySets.QuerySet.FetchAt | eulexistdb/query.py:580-583 | an uncached position is fetched; a cached one changes nothing |
| QuerySets.QuerySet.ApplyFilterArg | eulexistdb/query.py:226-271 | one pass of the loop in `filter`, as `FilterArg` describes |
| QuerySets.QuerySet.ApplyLookup | eulexistdb/query.py:246-252 | a resolved argument sets the document, adds a filter or does nothing |
| QuerySets.QuerySet.Filter | eulexistdb/query.py:178-274 | a fresh unrun copy whose builder and highlighting are what `Filters.Filter` gives; the first failing argument raises; the original changes only through the `where_fields` it shares with the copy |
| QuerySets.QuerySet.ApplyFilterArgs | eulexistdb/query.py:226-272 | the whole argument loop, as `Filters.Filter` describes |
| QuerySets.QuerySet.OrderBy | eulexistdb/query.py:284-320 | a fresh copy sorted on the flags and field `ParseSort` reads, at the field's XPath or its name |
| QuerySets.QuerySet.OrderByRaw | eulexistdb/query.py:322-337 | a fresh copy with the raw sort |
| QuerySets.QuerySet.Only | eulexistdb/query.py:339-376 | a fresh copy whose `partial_fields` gain the resolved names and whose builder returns only their XPaths |
| QuerySets.QuerySet.Also | eulexistdb/query.py:378-406 | a fresh copy whose `additional_fields` gain the resolved names and whose builder also returns their XPaths |
| QuerySets.QuerySet.ProjectOnly | eulexistdb/query.py:374-375 | `partial_fields.update` and `return_only` on this set |
| QuerySets.QuerySet.ProjectAlso | eulexistdb/query.py:404-405 | `additional_fields.update` and `return_also` on this set |
| QuerySets.QuerySet.RawField | eulexistdb/query.py:439-458 | a fresh copy with raw XPaths as returned or additional fields; the names are appended to the shared `raw_fields` |
| QuerySets.QuerySet.AlsoRaw | eulexistdb/query.py:408-428 | `_raw_field(also=True)` |
| QuerySets.QuerySet.OnlyRaw | eulexistdb/query.py:430-437 | `_raw_field(only=True)` |
| QuerySets.QuerySet.Distinct | eulexistdb/query.py:460-470 | a fresh copy returning distinct values |
| QuerySets.QuerySet.All | eulexistdb/query.py:472-478 | a fresh identical copy |
| QuerySets.QuerySet.Using | eulexistdb/query.py:487-495 | a fresh copy querying another collection |
| QuerySets.QuerySet.Exclude | eulexistdb/query.py:480-485 | `filter` in `NOT` mode |
| QuerySets.QuerySet.OrFilter | eulexistdb/query.py:276-282 | `filter` in `OR` mode |
| QuerySets.QuerySet.GetSlice | eulexistdb/query.py:546-559 | a fresh copy with an absolute start (0 when none is given), a stop of `min(stop, count())` or None, and this set's cache shared; a set with a stop or a session always slices, and a failure leaves no session |
| QuerySets.QuerySet.CountedCopy | eulexistdb/query.py:547-553 | the copy of a slice, then the count of this set |
| QuerySets.QuerySet.CountSession | eulexistdb/query.py:553 | `count()` as indexing and slicing use it: with a stop or a session there is no server call |
| QuerySets.QuerySet.ShareWindow | eulexistdb/query.py:549-557 | the slice bounds are set and the cache is shared |
| QuerySets.QuerySet.GetItem | eulexistdb/query.py:541-585 | a key that is neither an integer nor a slice raises TypeError and changes nothing; a negative integer raises IndexError and changes nothing; an integer gives one result, a slice a sub-set |
| QuerySets.QuerySet.Get | eulexistdb/query.py:509-539 | the filtered set's single result when the server finds exactly one, DoesNotExist when it finds none and ReturnedMultiple with the number when it finds several; a filter error, then a compile error, then a return-type error, is raised first; the original changes only through the shared `where_fields` |
| QuerySets.QuerySet.SingleResult | eulexistdb/query.py:523-539 | a compile error, then a return-type error, is raised first; otherwise the count decides between the item, DoesNotExist and ReturnedMultiple |
| QuerySets.QuerySet.ReleaseQueryResult | eulexistdb/query.py:125-128 | the server forgets the session and the set holds none |
| QuerySets.QuerySet.Reset | eulexistdb/query.py:497-507 | the AND filters are cleared; an open session is released with its count; the cache is kept |
| QuerySets.QuerySet.ResetClearingCache | eulexistdb/query.py:497-501 | as `reset`, and the cache is emptied too |
| QuerySets.StaleAfterReset | eulexistdb/query.py:497-507 | after `reset`, a cached index of a sliced set still gives the result fetched for the filtered query |
| QuerySets.FreshAfterReset | eulexistdb/query.py:497-501 | after a reset that empties the cache, every result read comes from a session opened after the reset |

## Left out

- Comments and processing instructions among highlighted children are not modelled; neither
  are lxml's element trees beyond text, children and tail.
- `XMLRpcLibPatch.warranted` and its cached `_warranted` flag are not modelled. The outcome
  of the probe parse is a parameter of `Apply`, and `patch_parser` is a parameter too.
- Python 2 dictionaries iterate in an unspecified order. Every dictionary is an ordered list
  of pairs, and the same order is used where the code iterates one twice (query.py:1221,
  query.py:1406).
- XPath parsing, `urllib.unquote_plus` and Django's `conditional_escape` are external
  functions, taken as parameters. A function argument rebound by `prep_xpath`, which the code
  parses again, is kept as its text.
- The full-text options element is serialised by lxml's `ElementMaker` (query.py:951-955).
  The model writes the options as elements with escaped text content.
- Xquery attributes live in one value record plus the shared lists and the field counter. The
  builder's `xq_var` and `_raw_prefix` are constants, as every caller leaves them.
- XqueryBuilder.Xquery.GetQuery: idempotence of repeated `getQuery` calls is not proved. Its
  contract states the new state, and `Compiler.BodyIgnoresLocators` shows the text does not
  depend on the locators it rewrites.
- QuerySets.QuerySet.RunQuery: changes to the builder through compilation are stated only by
  its frame (`return_xpaths` and the counter).
- The eXist server is modelled by its visible behaviour: queries with a start before the
  first result fail, an unknown session fails, and a session keeps its query text. Network
  failures, timeouts and the REST API are not part of this model.
- `result_id`, `_init_item`, `__iter__`, `__len__` and `getDocument` (query.py:130-136,
  635-655, 689-693) load `XmlObject` instances or iterate. Results are not wrapped in a class.
  `return_type` and `query_result_type` (query.py:587-631) are modelled only by the errors
  they raise (`ResolveReturnType`) and the `_return_type` flag; the class they build is not
  kept.
- Literals.FilterValue: there is no float variant, because floating point is not modelled. A
  float filter value is compared as a number by `gt`, `gte`, `lt` and `lte` (query.py:1149)
  and written with `%s` by the other filters; the model's numbers are integers.
- Filters.DocumentText: a list given as `document_path` is written with Python's list repr
  inside `doc("...")` (query.py:247, 910). The model writes the empty text, because Python
  reprs are not modelled.
- `document_path=None` clears the document, so the collection applies again
  (query.py:247, 872-873, 909-921). `FilterValue` has no `None`, so this call cannot be
  expressed.
- `__del__` (query.py:120-123) and the `__del__` patch in `get` (query.py:526-528) depend on
  garbage collection. Release is explicit through `ReleaseQueryResult` and `Reset`.
- ExistDB's network operations, `RequestsTransport`, the Django manager and models, the
  debug panel, management commands and test utilities are not part of this model.
- RawXPath.RawFormat: only `%%` and `%(xq_var)s` are interpreted. A bare `%s` (which Python fills with the mapping's repr), `%(xq_var)r` and flags or widths such as `%(xq_var)10s` are reported as FormatError, because the rest of Python's `%` formatting is not modelled (query.py:1004, 1228).
- QuerySets.QuerySet.GetIndex: for a set not yet run it states the session and the position
  the result comes from, not the query text sent.
- QuerySets.QuerySet.GetSlice: it does not state that a set with a stop or a session makes
  no server call while slicing (that is stated by `CountSession`).
- Python `long` keys behave as `int` keys. `int(k.start)` on a non-integer start is not
  modelled: slice bounds are integers.
- Logging in `add_filter` (query.py:1133-1135) is not modelled.

## Findings

| source | as written | input that shows it | evidently intended | confidence | as-written member | corrected member |
|---|---|---|---|---|---|---|
| eulexistdb/db.py:308-309 | `restapi_path` drops a leading `/db` even when it only begins a longer name | `restapi_path('/dbx')` and `restapi_path('/x')` both give `<url>/rest/db/x` | only a whole `/db` segment is dropped | not executed | DbPaths.RestApiPathDbPrefixClash | DbPaths.RestApiPathFixedInjective |
| eulexistdb/query.py:497-507 | `reset` clears filters and the session but keeps `_result_cache`, although its documentation says cached results are reset | a sliced set with a cached window, then `reset()`, then `qs[0]`, gives the result fetched for the filtered query | the cache is emptied with the session | not executed | QuerySets.StaleAfterReset | QuerySets.FreshAfterReset |
