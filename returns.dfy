// The constructed return element (`_constructReturn`, query.py:1202-1243) and the
// locators of the returned fields (`_return_field_xpath` and `get_return_xpaths`,
// query.py:1376-1425), which must describe the same fields in the same order.
module Returns {
  import opened Wrappers
  import opened Text
  import opened Literals
  import opened XPath
  import opened Binding
  import opened QueryModel
  import opened RawXPath

  /** `util:expand(...)` when highlighting is on. */
  function Expand(st: QueryState, x: string): string
  {
    if st.highlight.Some? && Truthy(st.highlight.value) then "util:expand(" + x + ")" else x
  }


  /** The blocks of a constructed return, the locators recorded on the way, and any failure. */
  datatype Blocks = Blocks(blocks: seq<string>, locators: seq<Option<string>>, error: Option<Error>)

  /** A field that is neither special nor raw: it becomes a `<field>` block with a locator. */
  predicate Ordinary(name: string, raw: seq<string>)
  {
    KindOf(name, raw) == OrdinaryField
  }

  /** How `_constructReturn` and `get_return_xpaths` treat a field: special names first, then raw ones. */
  datatype FieldKind = SpecialField | RawField | OrdinaryField

  function KindOf(name: string, raw: seq<string>): (k: FieldKind)
    ensures k == SpecialField <==> name in SpecialFields
    ensures k == RawField <==> name !in SpecialFields && name in raw
  {
    if name in SpecialFields then SpecialField else if name in raw then RawField else OrdinaryField
  }

  function OrdinaryFields(fields: Dict, raw: seq<string>): (r: Dict)
    ensures |r| <= |fields|
    ensures forall p :: p in r ==> p in fields
  {
    if |fields| == 0 then []
    else (if Ordinary(fields[0].0, raw) then [fields[0]] else []) + OrdinaryFields(fields[1..], raw)
  }

  function SpecialBlock(name: string): string
  {
    "<" + name + ">{$" + name + "}</" + name + ">"
  }

  function RawBlock(name: string, text: string): string
  {
    "<" + RawPrefix + name + ">{" + text + "}</" + RawPrefix + name + ">"
  }

  /** The loop of `_constructReturn` over the fields, numbering ordinary fields from `k`. */
  function BuildBlocks(fields: Dict, raw: seq<string>, parse: string -> Expr, k: int): Blocks
    decreases |fields|
  {
    if |fields| == 0 then Blocks([], [], None)
    else
      var name := fields[0].0;
      match KindOf(name, raw)
      case SpecialField =>
        var rest := BuildBlocks(fields[1..], raw, parse, k);
        rest.(blocks := [SpecialBlock(name)] + rest.blocks)
      case RawField =>
        (match RawFormat(fields[0].1)
         case Failure(e) => Blocks([], [], Some(e))
         case Success(t) =>
           var rest := BuildBlocks(fields[1..], raw, parse, k);
           rest.(blocks := [RawBlock(name, t)] + rest.blocks))
      case OrdinaryField =>
        var e := parse(fields[0].1);
        var rest := BuildBlocks(fields[1..], raw, parse, k + 1);
        rest.(blocks := [FieldBlock(e)] + rest.blocks, locators := [ReturnFieldXPath(e, k)] + rest.locators)
  }

  /** One special or raw field: its block carries no locator, or the loop stops there. */
  lemma BuildBlocksOther(fields: Dict, raw: seq<string>, parse: string -> Expr, k: int)
    requires |fields| > 0 && !Ordinary(fields[0].0, raw)
    ensures var b := BuildBlocks(fields, raw, parse, k);
            var rest := BuildBlocks(fields[1..], raw, parse, k);
            (b.locators == rest.locators && b.error == rest.error) || (b.locators == [] && b.error.Some?)
  {
  }

  /** One ordinary field: its locator, numbered `k`, comes before the rest numbered from `k + 1`. */
  lemma BuildBlocksOrdinary(fields: Dict, raw: seq<string>, parse: string -> Expr, k: int)
    requires |fields| > 0 && Ordinary(fields[0].0, raw)
    ensures var b := BuildBlocks(fields, raw, parse, k);
            var rest := BuildBlocks(fields[1..], raw, parse, k + 1);
            b.locators == [ReturnFieldXPath(parse(fields[0].1), k)] + rest.locators && b.error == rest.error
  {
  }

  /** The ordinary fields of a dictionary, from its first entry on. */
  lemma OrdinaryFieldsCons(fields: Dict, raw: seq<string>)
    requires |fields| > 0
    ensures Ordinary(fields[0].0, raw) ==> OrdinaryFields(fields, raw) == [fields[0]] + OrdinaryFields(fields[1..], raw)
    ensures !Ordinary(fields[0].0, raw) ==> OrdinaryFields(fields, raw) == OrdinaryFields(fields[1..], raw)
  {
    if !Ordinary(fields[0].0, raw) {
      assert [] + OrdinaryFields(fields[1..], raw) == OrdinaryFields(fields[1..], raw);
    }
  }

  /** Putting one numbered locator in front of a list numbered from `k + 1`. */
  lemma ShiftLocators(bl: seq<Option<string>>, restl: seq<Option<string>>, ord: Dict, ordRest: Dict,
                      f0: (string, string), parse: string -> Expr, k: int)
    requires bl == [ReturnFieldXPath(parse(f0.1), k)] + restl && ord == [f0] + ordRest
    requires |restl| <= |ordRest|
    requires forall j :: 0 <= j < |restl| ==> restl[j] == ReturnFieldXPath(parse(ordRest[j].1), k + 1 + j)
    ensures forall j :: 0 <= j < |bl| ==> bl[j] == ReturnFieldXPath(parse(ord[j].1), k + j)
  {
    forall j | 0 <= j < |bl| ensures bl[j] == ReturnFieldXPath(parse(ord[j].1), k + j) {
      if j > 0 {
        assert bl[j] == restl[j - 1] && ord[j] == ordRest[j - 1];
      }
    }
  }

  /**
   * Lock-step, first half: the j-th locator recorded is the locator of the j-th ordinary
   * field, numbered `k + j`, and when nothing fails every ordinary field has one.
   */
  lemma {:induction false} BuildBlocksLocators(fields: Dict, raw: seq<string>, parse: string -> Expr, k: int)
    ensures var b := BuildBlocks(fields, raw, parse, k);
            var ord := OrdinaryFields(fields, raw);
            && |b.locators| <= |ord|
            && (forall j :: 0 <= j < |b.locators| ==> b.locators[j] == ReturnFieldXPath(parse(ord[j].1), k + j))
            && (b.error == None ==> |b.locators| == |ord|)
    decreases |fields|
  {
    if |fields| > 0 {
      OrdinaryFieldsCons(fields, raw);
      if !Ordinary(fields[0].0, raw) {
        BuildBlocksOther(fields, raw, parse, k);
        BuildBlocksLocators(fields[1..], raw, parse, k);
      } else {
        BuildBlocksOrdinary(fields, raw, parse, k);
        BuildBlocksLocators(fields[1..], raw, parse, k + 1);
        ShiftLocators(BuildBlocks(fields, raw, parse, k).locators, BuildBlocks(fields[1..], raw, parse, k + 1).locators,
                      OrdinaryFields(fields, raw), OrdinaryFields(fields[1..], raw), fields[0], parse, k);
      }
    }
  }

  /**
   * Each field contributes one block, and exactly the ordinary fields' blocks are
   * `<field>` elements, so the k-th `<field>` child belongs to the k-th ordinary field.
   */
  lemma {:induction false} BuildBlocksShape(fields: Dict, raw: seq<string>, parse: string -> Expr, k: int)
    requires BuildBlocks(fields, raw, parse, k).error == None
    ensures var b := BuildBlocks(fields, raw, parse, k);
            && |b.blocks| == |fields|
            && forall i :: 0 <= i < |fields| ==> (StartsWith(b.blocks[i], "<field>") <==> Ordinary(fields[i].0, raw))
    decreases |fields|
  {
    if |fields| > 0 {
      var k' := if Ordinary(fields[0].0, raw) then k + 1 else k;
      BlockHead(fields, raw, parse, k);
      BuildBlocksShape(fields[1..], raw, parse, k');
      ShiftBlocks(BuildBlocks(fields, raw, parse, k).blocks, BuildBlocks(fields[1..], raw, parse, k').blocks, fields, raw);
    }
  }

  /** The first block of a loop that does not fail, and the loop over the rest behind it. */
  lemma BlockHead(fields: Dict, raw: seq<string>, parse: string -> Expr, k: int)
    requires |fields| > 0 && BuildBlocks(fields, raw, parse, k).error == None
    ensures var b := BuildBlocks(fields, raw, parse, k);
            var rest := BuildBlocks(fields[1..], raw, parse, if Ordinary(fields[0].0, raw) then k + 1 else k);
            && |b.blocks| > 0 && b.blocks[1..] == rest.blocks && rest.error == None
            && (StartsWith(b.blocks[0], "<field>") <==> Ordinary(fields[0].0, raw))
  {
    var name := fields[0].0;
    var b := BuildBlocks(fields, raw, parse, k);
    if KindOf(name, raw) == SpecialField {
      SpecialNotField(name);
    } else if KindOf(name, raw) == RawField {
      var t := RawFormat(fields[0].1).value;
      assert b.blocks[0] == RawBlock(name, t);
      assert b.blocks[0][1] == 'r';
    } else {
      assert b.blocks[0] == FieldBlock(parse(fields[0].1));
      assert b.blocks[0][..7] == "<field>";
    }
  }

  /** A first block that is a `<field>` exactly for an ordinary field, in front of blocks that are. */
  lemma ShiftBlocks(bs: seq<string>, rest: seq<string>, fields: Dict, raw: seq<string>)
    requires |fields| > 0 && |bs| > 0 && bs[1..] == rest && |rest| == |fields| - 1
    requires StartsWith(bs[0], "<field>") <==> Ordinary(fields[0].0, raw)
    requires forall i :: 0 <= i < |fields| - 1 ==> (StartsWith(rest[i], "<field>") <==> Ordinary(fields[1..][i].0, raw))
    ensures |bs| == |fields|
    ensures forall i :: 0 <= i < |fields| ==> (StartsWith(bs[i], "<field>") <==> Ordinary(fields[i].0, raw))
  {
    forall i | 1 <= i < |fields| ensures StartsWith(bs[i], "<field>") <==> Ordinary(fields[i].0, raw) {
      assert bs[i] == rest[i - 1];
      assert fields[i] == fields[1..][i - 1];
    }
  }

  /** No special field's block looks like a `<field>` block. */
  lemma SpecialNotField(name: string)
    requires name in SpecialFields
    ensures !StartsWith(SpecialBlock(name), "<field>")
  {
    var b := SpecialBlock(name);
    assert b[2] == name[1];
    assert "<field>"[2] == 'i';
    assert name[1] != 'i';
  }

  /** Everything the source puts around the constructed element. */
  datatype ReturnOutcome = ReturnOutcome(text: Result<string>, state: QueryState)

  /** The fields of both projections, as `dict(return_fields, **additional_return_fields)`. */
  function Merged(st: QueryState): Dict
  {
    Update(st.returnFields, st.alsoFields)
  }

  function Element(name: string, blocks: seq<string>): string
  {
    "<" + name + ">\n " + Join("\n ", blocks) + "\n</" + name + ">"
  }

  /**
   * `_constructReturn`: with projections, resets the locators and the field counter and
   * builds an element named after the base xpath; otherwise returns the node itself.  A
   * raw xpath that fails to format leaves the locators recorded so far.
   */
  function ConstructReturn(st: QueryState, parse: string -> Expr): ReturnOutcome
  {
    if |st.returnFields| > 0 || |st.alsoFields| > 0 then
      var el := ReturnNameFromXPath(parse(st.xpath));
      var b := BuildBlocks(Merged(st), st.rawFields, parse, 1);
      var st1 := st.(fieldCount := 1 + |b.locators|, returnXPaths := b.locators);
      if b.error.Some? then ReturnOutcome(Failure(b.error.value), st1)
      else
        var rblocks := (if |st.returnFields| > 0 then [] else ["{" + XqVar + "}"]) + b.blocks;
        ReturnOutcome(Success("return " + Expand(st, Element(el, rblocks))), st1)
    else ReturnOutcome(Success("return " + Expand(st, XqVar)), st)
  }

  function RawLocator(name: string): string
  {
    RawPrefix + name + "/node()[not(normalize-space(.)=\"\")]"
  }

  /** The loop of `get_return_xpaths`: `i` counts the ordinary fields met so far. */
  function LocateFields(fields: Dict, raw: seq<string>, locs: seq<Option<string>>, prefix: string, i: int): Result<Dict>
    decreases |fields|
  {
    if |fields| == 0 then Success([])
    else
      var name := fields[0].0;
      match KindOf(name, raw)
      case SpecialField =>
        var rest :- LocateFields(fields[1..], raw, locs, prefix, i);
        Success([(name, prefix + name)] + rest)
      case RawField =>
        var rest :- LocateFields(fields[1..], raw, locs, prefix, i);
        Success([(name, prefix + RawLocator(name))] + rest)
      case OrdinaryField =>
        if i < 0 || i >= |locs| then Failure(IndexError("list index out of range"))
        else if locs[i].None? then Failure(TypeError("cannot concatenate 'str' and 'NoneType' objects"))
        else
          var rest :- LocateFields(fields[1..], raw, locs, prefix, i + 1);
          Success([(name, prefix + locs[i].value)] + rest)
  }

  function ReturnPrefix(st: QueryState): string
  {
    if |st.alsoFields| > 0 then "../" else ""
  }

  /** `get_return_xpaths`. */
  function GetReturnXPaths(st: QueryState): Result<Dict>
  {
    LocateFields(Merged(st), st.rawFields, st.returnXPaths, ReturnPrefix(st), 0)
  }

  /** Every locator from position `lo` on is present. */
  predicate Located(locs: seq<Option<string>>, lo: int)
  {
    forall j :: 0 <= lo <= j < |locs| ==> locs[j].Some?
  }

  lemma {:induction false} TailNoDup(fields: Dict)
    requires |fields| > 0 && NoDup(Keys(fields))
    ensures NoDup(Keys(fields[1..])) && fields[0].0 !in Keys(fields[1..])
  {
    var t := fields[1..];
    forall p | 0 <= p < |Keys(t)| ensures Keys(t)[p] == Keys(fields)[p + 1] { }
  }

  /**
   * Lock-step, second half: reading a locator list that has one entry per remaining
   * ordinary field fails exactly when one of them is missing.
   */
  lemma {:induction false} LocateFieldsSucceeds(fields: Dict, raw: seq<string>, locs: seq<Option<string>>,
                                                prefix: string, i: nat)
    requires i + |OrdinaryFields(fields, raw)| == |locs|
    ensures LocateFields(fields, raw, locs, prefix, i).Success? <==> Located(locs, i)
    decreases |fields|
  {
    if |fields| > 0 {
      var name := fields[0].0;
      var t := fields[1..];
      var ordT := OrdinaryFields(t, raw);
      if !Ordinary(name, raw) {
        assert OrdinaryFields(fields, raw) == ordT;
        LocateFieldsSucceeds(t, raw, locs, prefix, i);
      } else {
        assert OrdinaryFields(fields, raw) == [fields[0]] + ordT;
        LocateFieldsSucceeds(t, raw, locs, prefix, i + 1);
        assert Located(locs, i) <==> locs[i].Some? && Located(locs, i + 1) by {
          if locs[i].Some? && Located(locs, i + 1) {
            forall j | i <= j < |locs| ensures locs[j].Some? {
              if j > i { assert i + 1 <= j; }
            }
          }
        }
      }
    } else {
      assert OrdinaryFields(fields, raw) == [];
    }
  }

  /** Reading the locators, when it succeeds, keeps the fields and their order. */
  lemma {:induction false} LocateFieldsKeys(fields: Dict, raw: seq<string>, locs: seq<Option<string>>,
                                            prefix: string, i: int)
    requires LocateFields(fields, raw, locs, prefix, i).Success?
    ensures Keys(LocateFields(fields, raw, locs, prefix, i).value) == Keys(fields)
    decreases |fields|
  {
    if |fields| > 0 {
      var i' := if Ordinary(fields[0].0, raw) then i + 1 else i;
      LocateFieldsKeys(fields[1..], raw, locs, prefix, i');
      var r := LocateFields(fields, raw, locs, prefix, i).value;
      var rt := LocateFields(fields[1..], raw, locs, prefix, i').value;
      assert r == [(fields[0].0, r[0].1)] + rt;
      assert Keys(fields) == [fields[0].0] + Keys(fields[1..]);
    }
  }

  /** One ordinary field: it takes locator `i`, and the rest are read from `i + 1`. */
  lemma LocateOrdinaryCons(fields: Dict, raw: seq<string>, locs: seq<Option<string>>, prefix: string, i: nat)
    requires |fields| > 0 && Ordinary(fields[0].0, raw)
    requires LocateFields(fields, raw, locs, prefix, i).Success?
    ensures i < |locs| && locs[i].Some?
    ensures LocateFields(fields[1..], raw, locs, prefix, i + 1).Success?
    ensures LocateFields(fields, raw, locs, prefix, i).value
            == [(fields[0].0, prefix + locs[i].value)] + LocateFields(fields[1..], raw, locs, prefix, i + 1).value
  {
  }

  /** One special or raw field: the rest are read from the same position. */
  lemma LocateOtherCons(fields: Dict, raw: seq<string>, locs: seq<Option<string>>, prefix: string, i: nat)
    requires |fields| > 0 && !Ordinary(fields[0].0, raw)
    requires LocateFields(fields, raw, locs, prefix, i).Success?
    ensures LocateFields(fields[1..], raw, locs, prefix, i).Success?
    ensures var r := LocateFields(fields, raw, locs, prefix, i).value;
            r == [r[0]] + LocateFields(fields[1..], raw, locs, prefix, i).value && r[0].0 == fields[0].0
  {
  }

  /** The j-th ordinary field is one of the fields. */
  lemma OrdinaryKey(fields: Dict, raw: seq<string>, j: nat)
    requires j < |OrdinaryFields(fields, raw)|
    ensures OrdinaryFields(fields, raw)[j].0 in Keys(fields)
  {
    var p := OrdinaryFields(fields, raw)[j];
    assert p in OrdinaryFields(fields, raw);
    var m :| 0 <= m < |fields| && fields[m] == p;
    assert Keys(fields)[m] == p.0;
  }

  /** When reading the locators succeeds, the j-th ordinary field gets the j-th locator. */
  lemma {:induction false} LocateFieldValue(fields: Dict, raw: seq<string>, locs: seq<Option<string>>,
                                            prefix: string, i: nat, j: nat)
    requires NoDup(Keys(fields))
    requires LocateFields(fields, raw, locs, prefix, i).Success?
    requires j < |OrdinaryFields(fields, raw)|
    ensures var r := LocateFields(fields, raw, locs, prefix, i).value;
            && i + j < |locs| && locs[i + j].Some?
            && Get(r, OrdinaryFields(fields, raw)[j].0) == Some(prefix + locs[i + j].value)
    decreases |fields|, 1
  {
    if Ordinary(fields[0].0, raw) && j == 0 {
      LocateValueFirst(fields, raw, locs, prefix, i);
    } else if Ordinary(fields[0].0, raw) {
      LocateValueOrdinary(fields, raw, locs, prefix, i, j);
    } else {
      LocateValueOther(fields, raw, locs, prefix, i, j);
    }
  }

  lemma LocateValueFirst(fields: Dict, raw: seq<string>, locs: seq<Option<string>>, prefix: string, i: nat)
    requires LocateFields(fields, raw, locs, prefix, i).Success?
    requires |fields| > 0 && Ordinary(fields[0].0, raw)
    ensures var r := LocateFields(fields, raw, locs, prefix, i).value;
            && i < |locs| && locs[i].Some?
            && Get(r, OrdinaryFields(fields, raw)[0].0) == Some(prefix + locs[i].value)
  {
    LocateOrdinaryCons(fields, raw, locs, prefix, i);
    var r := LocateFields(fields, raw, locs, prefix, i).value;
    var rt := LocateFields(fields[1..], raw, locs, prefix, i + 1).value;
    assert OrdinaryFields(fields, raw)[0] == fields[0];
    GetCons(r[0], rt, fields[0].0);
  }

  /** A key of the tail of a dictionary without duplicates is not its first key. */
  lemma TailKeyDiffers(fields: Dict, raw: seq<string>, j: nat)
    requires |fields| > 0 && NoDup(Keys(fields)) && j < |OrdinaryFields(fields[1..], raw)|
    ensures NoDup(Keys(fields[1..]))
    ensures fields[0].0 != OrdinaryFields(fields[1..], raw)[j].0
  {
    TailNoDup(fields);
    OrdinaryKey(fields[1..], raw, j);
  }

  /** Looking behind a first entry with another key. */
  lemma GetBehind(r: Dict, first: (string, string), rt: Dict, k: string, v: string)
    requires r == [first] + rt && first.0 != k && Get(rt, k) == Some(v)
    ensures Get(r, k) == Some(v)
  {
    GetCons(first, rt, k);
  }

  lemma {:induction false} LocateValueOrdinary(fields: Dict, raw: seq<string>, locs: seq<Option<string>>,
                                               prefix: string, i: nat, j: nat)
    requires NoDup(Keys(fields))
    requires LocateFields(fields, raw, locs, prefix, i).Success?
    requires 0 < j < |OrdinaryFields(fields, raw)|
    requires Ordinary(fields[0].0, raw)
    ensures var r := LocateFields(fields, raw, locs, prefix, i).value;
            && i + j < |locs| && locs[i + j].Some?
            && Get(r, OrdinaryFields(fields, raw)[j].0) == Some(prefix + locs[i + j].value)
    decreases |fields|, 0
  {
    var t := fields[1..];
    var ordT := OrdinaryFields(t, raw);
    assert OrdinaryFields(fields, raw) == [fields[0]] + ordT;
    var k := ordT[j - 1].0;
    TailKeyDiffers(fields, raw, j - 1);
    LocateOrdinaryCons(fields, raw, locs, prefix, i);
    var i', j' := i + 1, j - 1;
    LocateFieldValue(t, raw, locs, prefix, i', j');
    var r := LocateFields(fields, raw, locs, prefix, i).value;
    GetBehind(r, (fields[0].0, prefix + locs[i].value), LocateFields(t, raw, locs, prefix, i').value, k, prefix + locs[i' + j'].value);
    assert i' + j' == i + j;
  }

  lemma {:induction false} LocateValueOther(fields: Dict, raw: seq<string>, locs: seq<Option<string>>,
                                            prefix: string, i: nat, j: nat)
    requires NoDup(Keys(fields))
    requires LocateFields(fields, raw, locs, prefix, i).Success?
    requires j < |OrdinaryFields(fields, raw)|
    requires !Ordinary(fields[0].0, raw)
    ensures var r := LocateFields(fields, raw, locs, prefix, i).value;
            && i + j < |locs| && locs[i + j].Some?
            && Get(r, OrdinaryFields(fields, raw)[j].0) == Some(prefix + locs[i + j].value)
    decreases |fields|, 0
  {
    var t := fields[1..];
    LocateOtherCons(fields, raw, locs, prefix, i);
    var r := LocateFields(fields, raw, locs, prefix, i).value;
    var rt := LocateFields(t, raw, locs, prefix, i).value;
    assert OrdinaryFields(fields, raw) == OrdinaryFields(t, raw);
    TailNoDup(fields);
    LocateFieldValue(t, raw, locs, prefix, i, j);
    OrdinaryKey(t, raw, j);
    GetCons(r[0], rt, OrdinaryFields(t, raw)[j].0);
  }

  /** Special fields are located by their name, raw fields by their wrapper element. */
  lemma {:induction false} LocateFieldsNamed(fields: Dict, raw: seq<string>, locs: seq<Option<string>>,
                                             prefix: string, i: int)
    requires NoDup(Keys(fields))
    requires LocateFields(fields, raw, locs, prefix, i).Success?
    ensures var r := LocateFields(fields, raw, locs, prefix, i).value;
            && (forall n :: n in Keys(fields) && KindOf(n, raw) == SpecialField ==> Get(r, n) == Some(prefix + n))
            && (forall n :: n in Keys(fields) && KindOf(n, raw) == RawField ==> Get(r, n) == Some(prefix + RawLocator(n)))
    decreases |fields|
  {
    if |fields| > 0 {
      var name := fields[0].0;
      var t := fields[1..];
      TailNoDup(fields);
      var i' := if Ordinary(name, raw) then i + 1 else i;
      LocateFieldsNamed(t, raw, locs, prefix, i');
      var r := LocateFields(fields, raw, locs, prefix, i).value;
      var rt := LocateFields(t, raw, locs, prefix, i').value;
      LocateFieldsKeys(t, raw, locs, prefix, i');
      assert r == [r[0]] + rt && r[0].0 == name;
      assert Keys(fields) == [name] + Keys(t);
    }
  }

  /** The state `_constructReturn` leaves with projections: the recorded locators and the counter after them. */
  function ReturnState(st: QueryState, parse: string -> Expr): QueryState
  {
    var b := BuildBlocks(Merged(st), st.rawFields, parse, 1);
    st.(fieldCount := 1 + |b.locators|, returnXPaths := b.locators)
  }

  /**
   * What `_constructReturn` leaves behind for `get_return_xpaths`: with projections it
   * succeeds exactly when its loop does, and its state holds the locators that loop recorded.
   */
  lemma ConstructReturnLocators(st: QueryState, parse: string -> Expr)
    requires |st.returnFields| > 0 || |st.alsoFields| > 0
    ensures ConstructReturn(st, parse).text.Success? <==> BuildBlocks(Merged(st), st.rawFields, parse, 1).error == None
    ensures ConstructReturn(st, parse).state == ReturnState(st, parse)
    ensures GetReturnXPaths(ReturnState(st, parse))
            == LocateFields(Merged(st), st.rawFields, BuildBlocks(Merged(st), st.rawFields, parse, 1).locators, ReturnPrefix(st), 0)
  {
  }

  /**
   * What `get_return_xpaths` gives, in lock-step with the ordinary fields: it succeeds exactly
   * when every ordinary field has a locator; then it keeps the fields, gives the j-th ordinary
   * field the locator of `field[j+1]` behind the prefix, special fields their own name and raw
   * fields their wrapper element.
   */
  predicate LockStep(fields: Dict, raw: seq<string>, parse: string -> Expr, prefix: string, r: Result<Dict>)
  {
    var ord := OrdinaryFields(fields, raw);
    && (r.Success? <==> forall j :: 0 <= j < |ord| ==> ReturnFieldXPath(parse(ord[j].1), 1 + j).Some?)
    && (r.Success? ==> Keys(r.value) == Keys(fields))
    && (r.Success? ==> forall j :: 0 <= j < |ord| ==>
          Get(r.value, ord[j].0) == Some(prefix + ReturnFieldXPath(parse(ord[j].1), 1 + j).value))
    && (r.Success? ==> forall n :: n in Keys(fields) && KindOf(n, raw) == SpecialField ==>
          Get(r.value, n) == Some(prefix + n))
    && (r.Success? ==> forall n :: n in Keys(fields) && KindOf(n, raw) == RawField ==>
          Get(r.value, n) == Some(prefix + RawLocator(n)))
  }

  /**
   * Locators stay in lock-step with the constructed return: once the return loop of
   * `_constructReturn` has run without failing, `get_return_xpaths` on the state it leaves
   * (`ConstructReturnLocators`) is as `LockStep` describes, with the prefix `../` when
   * also-fields are present.
   */
  lemma ReturnXPathsLockStep(st: QueryState, parse: string -> Expr)
    requires Valid(st)
    requires |st.returnFields| > 0 || |st.alsoFields| > 0
    requires BuildBlocks(Merged(st), st.rawFields, parse, 1).error == None
    ensures LockStep(Merged(st), st.rawFields, parse, ReturnPrefix(st), GetReturnXPaths(ReturnState(st, parse)))
  {
    MergedNoDup(st);
    ReturnStateLocated(st, parse);
    LockStepBuilt(Merged(st), st.rawFields, parse, ReturnPrefix(st), GetReturnXPaths(ReturnState(st, parse)));
  }

  /** The lock-step for the locators a return loop over `fields` recorded without failing. */
  lemma LockStepBuilt(fields: Dict, raw: seq<string>, parse: string -> Expr, prefix: string, r: Result<Dict>)
    requires NoDup(Keys(fields)) && BuildBlocks(fields, raw, parse, 1).error == None
    requires r == LocateFields(fields, raw, BuildBlocks(fields, raw, parse, 1).locators, prefix, 0)
    ensures LockStep(fields, raw, parse, prefix, r)
  {
    BuildBlocksLocators(fields, raw, parse, 1);
    LockStepCore(fields, raw, parse, prefix, BuildBlocks(fields, raw, parse, 1).locators, r);
  }

  /** `get_return_xpaths` on that state reads the locators the return loop recorded. */
  lemma ReturnStateLocated(st: QueryState, parse: string -> Expr)
    ensures GetReturnXPaths(ReturnState(st, parse))
            == LocateFields(Merged(st), st.rawFields, BuildBlocks(Merged(st), st.rawFields, parse, 1).locators, ReturnPrefix(st), 0)
  {
    var s := ReturnState(st, parse);
    assert Merged(s) == Merged(st);
  }

  /** The merged projections name every field once. */
  lemma MergedNoDup(st: QueryState)
    requires Valid(st)
    ensures NoDup(Keys(Merged(st)))
  {
    UpdateGet(st.returnFields, st.alsoFields);
  }

  /** The second half of the lock-step, for any list holding one numbered locator per ordinary field. */
  lemma LockStepCore(fields: Dict, raw: seq<string>, parse: string -> Expr, prefix: string, locs: seq<Option<string>>,
                     r: Result<Dict>)
    requires NoDup(Keys(fields))
    requires |locs| == |OrdinaryFields(fields, raw)|
    requires forall j :: 0 <= j < |locs| ==> locs[j] == ReturnFieldXPath(parse(OrdinaryFields(fields, raw)[j].1), 1 + j)
    requires r == LocateFields(fields, raw, locs, prefix, 0)
    ensures LockStep(fields, raw, parse, prefix, r)
  {
    LocateFieldsSucceeds(fields, raw, locs, prefix, 0);
    LocatedNumbered(fields, raw, parse, locs);
    if r.Success? {
      LocateFieldsKeys(fields, raw, locs, prefix, 0);
      LockStepValues(fields, raw, parse, prefix, locs, r.value);
      LocateFieldsNamed(fields, raw, locs, prefix, 0);
    }
  }

  /** All numbered locators are present exactly when every ordinary field has one. */
  lemma LocatedNumbered(fields: Dict, raw: seq<string>, parse: string -> Expr, locs: seq<Option<string>>)
    requires |locs| == |OrdinaryFields(fields, raw)|
    requires forall j :: 0 <= j < |locs| ==> locs[j] == ReturnFieldXPath(parse(OrdinaryFields(fields, raw)[j].1), 1 + j)
    ensures Located(locs, 0)
            <==> forall j :: 0 <= j < |OrdinaryFields(fields, raw)| ==> ReturnFieldXPath(parse(OrdinaryFields(fields, raw)[j].1), 1 + j).Some?
  {
  }

  /** Each ordinary field reads its numbered locator behind the prefix. */
  lemma LockStepValues(fields: Dict, raw: seq<string>, parse: string -> Expr, prefix: string,
                       locs: seq<Option<string>>, r: Dict)
    requires NoDup(Keys(fields))
    requires |locs| == |OrdinaryFields(fields, raw)|
    requires forall j :: 0 <= j < |locs| ==> locs[j] == ReturnFieldXPath(parse(OrdinaryFields(fields, raw)[j].1), 1 + j)
    requires LocateFields(fields, raw, locs, prefix, 0) == Success(r) && Located(locs, 0)
    ensures forall j :: 0 <= j < |OrdinaryFields(fields, raw)| ==>
              Get(r, OrdinaryFields(fields, raw)[j].0) == Some(prefix + ReturnFieldXPath(parse(OrdinaryFields(fields, raw)[j].1), 1 + j).value)
  {
    var ord := OrdinaryFields(fields, raw);
    forall j | 0 <= j < |ord|
      ensures Get(r, ord[j].0) == Some(prefix + ReturnFieldXPath(parse(ord[j].1), 1 + j).value)
    {
      LocateFieldValue(fields, raw, locs, prefix, 0, j);
      assert 0 + j == j;
    }
  }
}
