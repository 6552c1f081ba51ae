// What `only`, `also`, `_raw_field` and `order_by` take from the names they are given
// (query.py:284-458): the fields a name resolves to, the XPath it stands for, and the sort
// flags in front of an ordering field.
module Projections {
  import opened Wrappers
  import opened FieldDefs
  import opened ReturnClasses
  import opened QueryModel

  // ---------------------------------------------------------------------------------------
  // Field names in `only`, `also` and `_raw_field`.

  /** Whether `_split_fielddef` turns all of `f` into fields of `cls`. */
  predicate Resolves(f: string, cls: Option<NodeClass>)
  {
    |FieldSplit(f, cls).0| > 0 && FieldSplit(f, cls).1 == ""
  }

  /** `field_objs[f]`: the fields `f` resolves to, or the name itself. */
  function FieldObj(f: string, cls: Option<NodeClass>): FieldSpec
  {
    if Resolves(f, cls) then Fields(FieldSplit(f, cls).0) else Name(f)
  }

  /** `field_xpath[f]` in `only` and `also`: the fields' joined XPath, or the name itself. */
  function FieldXPath(f: string, cls: Option<NodeClass>): string
  {
    if Resolves(f, cls) then JoinFieldXPath(FieldSplit(f, cls).0) else f
  }

  /** The XPath `only` records is the simple XPath of the name when there is one, else the name. */
  lemma FieldXPathSimple(f: string, cls: Option<NodeClass>)
    ensures FieldXPath(f, cls) == match SimpleFieldDefToXPath(f, cls) case Some(x) => x case None => f
    ensures FieldObj(f, cls).Fields? <==> SimpleFieldDefToXPath(f, cls).Some?
  {
  }

  /** The pairs the loop of `only`/`also` assigns into `field_objs`, in order. */
  function ObjPairs(fields: seq<string>, cls: Option<NodeClass>): (ps: Overrides)
    ensures |ps| == |fields| && forall i :: 0 <= i < |fields| ==> ps[i] == (fields[i], FieldObj(fields[i], cls))
  {
    if |fields| == 0 then [] else [(fields[0], FieldObj(fields[0], cls))] + ObjPairs(fields[1..], cls)
  }

  /** The pairs the loop of `only`/`also` assigns into `field_xpath`, in order. */
  function XPathPairs(fields: seq<string>, cls: Option<NodeClass>): (ps: Dict)
    ensures |ps| == |fields| && forall i :: 0 <= i < |fields| ==> ps[i] == (fields[i], FieldXPath(fields[i], cls))
  {
    if |fields| == 0 then [] else [(fields[0], FieldXPath(fields[0], cls))] + XPathPairs(fields[1..], cls)
  }

  /** `d.get(k)` on a field dictionary. */
  function SpecGet(d: Overrides, k: string): Option<FieldSpec>
  {
    if |d| == 0 then None else if d[0].0 == k then Some(d[0].1) else SpecGet(d[1..], k)
  }

  /** `d.update(e)` on field dictionaries. */
  function UpdateSpecs(d: Overrides, e: Overrides): Overrides
    decreases |e|
  {
    if |e| == 0 then d else UpdateSpecs(PutSpec(d, e[0].0, e[0].1), e[1..])
  }

  /** After `d[k] = v` the key reads `v` and every other key reads as before. */
  lemma {:induction false} PutSpecGet(d: Overrides, k: string, v: FieldSpec)
    ensures forall j :: SpecGet(PutSpec(d, k, v), j) == if j == k then Some(v) else SpecGet(d, j)
    decreases |d|
  {
    if |d| > 0 && d[0].0 != k {
      PutSpecGet(d[1..], k, v);
      var r := PutSpec(d, k, v);
      assert r[1..] == PutSpec(d[1..], k, v);
    }
  }

  /** Every entry of `e` holds the resolution of its own name. */
  predicate Consistent(e: Overrides, cls: Option<NodeClass>)
  {
    forall i :: 0 <= i < |e| ==> e[i].1 == FieldObj(e[i].0, cls)
  }

  /** The names `ObjPairs` lists are exactly the requested ones. */
  lemma {:induction false} ObjPairsNames(fields: seq<string>, cls: Option<NodeClass>)
    ensures forall j :: SpecGet(ObjPairs(fields, cls), j).Some? <==> j in fields
    decreases |fields|
  {
    if |fields| > 0 {
      var e := ObjPairs(fields, cls);
      assert e[1..] == ObjPairs(fields[1..], cls);
      ObjPairsNames(fields[1..], cls);
      assert forall j :: j in fields <==> j == fields[0] || j in fields[1..];
    }
  }

  /**
   * Updating with consistent entries gives each of their names its resolution and leaves
   * every other name as it was; consistent dictionaries stay consistent.
   */
  lemma {:induction false} UpdateConsistent(d: Overrides, e: Overrides, cls: Option<NodeClass>)
    requires Consistent(e, cls)
    ensures forall j :: SpecGet(UpdateSpecs(d, e), j)
                        == if SpecGet(e, j).Some? then Some(FieldObj(j, cls)) else SpecGet(d, j)
    ensures Consistent(d, cls) ==> Consistent(UpdateSpecs(d, e), cls)
    decreases |e|
  {
    if |e| > 0 {
      var d1 := PutSpec(d, e[0].0, e[0].1);
      PutSpecGet(d, e[0].0, e[0].1);
      UpdateConsistent(d1, e[1..], cls);
      assert forall j :: SpecGet(e, j) == if e[0].0 == j then Some(e[0].1) else SpecGet(e[1..], j);
    }
  }

  /**
   * `partial_fields.update(field_objs)` after the loop of `only` (and of `also` on
   * `additional_fields`): each requested name reads its resolution, every other name keeps
   * its old value.
   */
  lemma OnlyObjs(d: Overrides, fields: seq<string>, cls: Option<NodeClass>)
    ensures forall j :: SpecGet(UpdateSpecs(d, UpdateSpecs([], ObjPairs(fields, cls))), j)
                        == if j in fields then Some(FieldObj(j, cls)) else SpecGet(d, j)
  {
    var objs := UpdateSpecs([], ObjPairs(fields, cls));
    UpdateConsistent([], ObjPairs(fields, cls), cls);
    ObjPairsNames(fields, cls);
    UpdateConsistent(d, objs, cls);
  }

  /** After the loop of `only` each requested name reads its XPath, every other name its old value. */
  lemma {:induction false} UpdateXPaths(d: Dict, fields: seq<string>, cls: Option<NodeClass>)
    ensures forall j :: Get(Update(d, XPathPairs(fields, cls)), j)
                        == if j in fields then Some(FieldXPath(j, cls)) else Get(d, j)
    decreases |fields|
  {
    if |fields| > 0 {
      var e := XPathPairs(fields, cls);
      assert e[1..] == XPathPairs(fields[1..], cls);
      UpdateXPaths(Put(d, fields[0], FieldXPath(fields[0], cls)), fields[1..], cls);
      assert forall j :: j in fields <==> j == fields[0] || j in fields[1..];
    }
  }

  lemma {:induction false} UpdateNoDup(d: Dict, e: Dict)
    requires NoDup(Keys(d))
    ensures NoDup(Keys(Update(d, e)))
    decreases |e|
  {
    if |e| > 0 {
      PutNoDup(d, e[0].0, e[0].1);
      UpdateNoDup(Put(d, e[0].0, e[0].1), e[1..]);
    }
  }

  /**
   * `return_only(field_xpath)` after the loop of `only` (and `return_also` after `also`): each
   * requested name returns its XPath, every other name keeps its old one.
   */
  lemma OnlyXPaths(st: QueryState, fields: seq<string>, cls: Option<NodeClass>, raw: bool)
    requires NoDup(Keys(st.returnFields))
    ensures forall j :: Get(ReturnOnly(st, Update([], XPathPairs(fields, cls)), raw).returnFields, j)
                        == if j in fields then Some(FieldXPath(j, cls)) else Get(st.returnFields, j)
  {
    var e := Update([], XPathPairs(fields, cls));
    UpdateNoDup([], XPathPairs(fields, cls));
    UpdateXPaths([], fields, cls);
    UpdateGet(st.returnFields, e);
  }

  /**
   * The loop shared by `only` and `also`: for each name, its resolved fields go into
   * `field_objs` and its XPath into `field_xpath`.
   */
  method ResolveFields(fields: seq<string>, cls: Option<NodeClass>) returns (objs: Overrides, xpaths: Dict)
    ensures objs == UpdateSpecs([], ObjPairs(fields, cls))
    ensures xpaths == Update([], XPathPairs(fields, cls))
  {
    objs := [];
    xpaths := [];
    var i := 0;
    while i < |fields|
      invariant 0 <= i <= |fields|
      invariant UpdateSpecs(objs, ObjPairs(fields[i..], cls)) == UpdateSpecs([], ObjPairs(fields, cls))
      invariant Update(xpaths, XPathPairs(fields[i..], cls)) == Update([], XPathPairs(fields, cls))
    {
      var f := fields[i];
      ResolveStep(objs, xpaths, fields, i, cls);
      var parts, rest := SplitFieldDef(f, cls);
      if |parts| > 0 && rest == "" {
        objs := PutSpec(objs, f, Fields(parts));
        xpaths := Put(xpaths, f, JoinFieldXPath(parts));
      } else {
        objs := PutSpec(objs, f, Name(f));
        xpaths := Put(xpaths, f, f);
      }
      i := i + 1;
    }
    assert fields[i..] == [];
  }

  /** One turn of that loop assigns the pairs of the next name. */
  lemma ResolveStep(objs: Overrides, xpaths: Dict, fields: seq<string>, i: int, cls: Option<NodeClass>)
    requires 0 <= i < |fields|
    ensures UpdateSpecs(objs, ObjPairs(fields[i..], cls))
            == UpdateSpecs(PutSpec(objs, fields[i], FieldObj(fields[i], cls)), ObjPairs(fields[i + 1..], cls))
    ensures Update(xpaths, XPathPairs(fields[i..], cls))
            == Update(Put(xpaths, fields[i], FieldXPath(fields[i], cls)), XPathPairs(fields[i + 1..], cls))
  {
    assert fields[i..][1..] == fields[i + 1..];
  }

  /**
   * The loop of `_raw_field`: each named field keeps its raw XPath, and its resolved fields
   * go into `field_objs` as in `only`.
   */
  method ResolveRawFields(fields: Dict, cls: Option<NodeClass>) returns (objs: Overrides, xpaths: Dict)
    ensures objs == UpdateSpecs([], ObjPairs(Keys(fields), cls))
    ensures xpaths == Update([], fields)
  {
    objs := [];
    xpaths := [];
    var i := 0;
    while i < |fields|
      invariant 0 <= i <= |fields|
      invariant UpdateSpecs(objs, ObjPairs(Keys(fields[i..]), cls)) == UpdateSpecs([], ObjPairs(Keys(fields), cls))
      invariant Update(xpaths, fields[i..]) == Update([], fields)
    {
      assert fields[i..][1..] == fields[i + 1..];
      assert Keys(fields[i..])[1..] == Keys(fields[i + 1..]);
      var (field, xpath) := fields[i];
      xpaths := Put(xpaths, field, xpath);
      var parts, rest := SplitFieldDef(field, cls);
      if |parts| > 0 && rest == "" {
        objs := PutSpec(objs, field, Fields(parts));
      } else {
        objs := PutSpec(objs, field, Name(field));
      }
      i := i + 1;
    }
    assert fields[i..] == [];
  }

  // ---------------------------------------------------------------------------------------
  // The sort flags of `order_by`.

  predicate IsFlag(c: char)
  {
    c == '~' || c == '-'
  }

  /** Where `^(?P<flags>[~-]*)` stops: the longest run of flags at the front. */
  function FlagsEnd(s: string): (n: nat)
    ensures n <= |s| && (forall i :: 0 <= i < n ==> IsFlag(s[i])) && (n < |s| ==> !IsFlag(s[n]))
  {
    if |s| == 0 || !IsFlag(s[0]) then 0 else 1 + FlagsEnd(s[1..])
  }

  /** The field to sort on and the options `order_by` passes to `sort`. */
  datatype SortRequest = SortRequest(field: string, ascending: bool, caseInsensitive: bool)

  /** `order_by`'s reading of its argument: `-` sorts descending, `~` ignores case. */
  function ParseSort(s: string): SortRequest
  {
    var flags := s[..FlagsEnd(s)];
    SortRequest(s[FlagsEnd(s)..], '-' !in flags, '~' in flags)
  }

  /**
   * Any run of flags before a field not starting with one is read as those flags and that
   * field, so the flags' order and repetition do not matter.
   */
  lemma {:induction false} ParseSortFlags(flags: string, field: string)
    requires forall i :: 0 <= i < |flags| ==> IsFlag(flags[i])
    requires |field| > 0 ==> !IsFlag(field[0])
    ensures ParseSort(flags + field) == SortRequest(field, '-' !in flags, '~' in flags)
  {
    FlagsAt(flags, field);
    assert (flags + field)[..|flags|] == flags;
    assert (flags + field)[|flags|..] == field;
  }

  lemma {:induction false} FlagsAt(flags: string, field: string)
    requires forall i :: 0 <= i < |flags| ==> IsFlag(flags[i])
    requires |field| > 0 ==> !IsFlag(field[0])
    ensures FlagsEnd(flags + field) == |flags|
    decreases |flags|
  {
    if |flags| > 0 {
      assert (flags + field)[1..] == flags[1..] + field;
      FlagsAt(flags[1..], field);
    } else {
      assert flags + field == field;
    }
  }

  /** `-~name` and `~-name` are the same case-insensitive descending sort on `name`. */
  lemma FlagsAnyOrder(field: string)
    requires |field| > 0 ==> !IsFlag(field[0])
    ensures ParseSort("-~" + field) == ParseSort("~-" + field) == SortRequest(field, false, true)
  {
    ParseSortFlags("-~", field);
    ParseSortFlags("~-", field);
  }

  /** A name without flags sorts ascending and case-sensitively on itself. */
  lemma NoFlags(field: string)
    requires |field| > 0 ==> !IsFlag(field[0])
    ensures ParseSort(field) == SortRequest(field, true, false)
  {
    ParseSortFlags("", field);
    assert "" + field == field;
  }

  /** `_simple_fielddef_to_xpath(field, model) or field`: an empty or missing XPath gives the name. */
  function OrderXPath(field: string, cls: Option<NodeClass>): (x: string)
    ensures x == field || (Resolves(field, cls) && x == JoinFieldXPath(FieldSplit(field, cls).0))
    ensures !Resolves(field, cls) ==> x == field
  {
    match SimpleFieldDefToXPath(field, cls)
    case Some(x) => if x != "" then x else field
    case None => field
  }
}
