// The return class built for `only`/`also` results (`_create_return_class`, query.py:696-784),
// modelled as the descriptor it defines: field name -> field type, XPath and node class.
module ReturnClasses {
  import opened Wrappers
  import opened Text
  import opened FieldDefs

  /** A value of the field dictionaries `only`/`also` collect: resolved fields, or the bare name. */
  datatype FieldSpec = Fields(fields: seq<Field>) | Name(text: string)

  type Overrides = seq<(string, FieldSpec)>

  /** A field of the generated class. */
  datatype Returned =
    | Plain(ftype: FieldType, xpath: string)
    | OfClass(ftype: FieldType, xpath: string, nodeClass: NodeClass)
    | Nested(ftype: FieldType, xpath: string, schema: Schema)

  /** The generated class: `Partial<base>`, derived from `base`, with these fields. */
  datatype Schema = Schema(name: string, base: string, fields: map<string, Returned>)

  // ---- the sibling-axis clean-up of an override XPath (query.py:759-761) ----

  const Following: string := "following"
  const Preceding: string := "preceding"

  /** The first `[` in `u`, or its length. */
  function FirstBracket(u: string): (k: nat)
    ensures k <= |u| && (k < |u| ==> u[k] == '[') && forall i :: 0 <= i < k ==> u[i] != '['
  {
    if |u| == 0 || u[0] == '[' then 0 else 1 + FirstBracket(u[1..])
  }

  /** `\[\d+\]` matching all of `t`. */
  predicate IndexBracket(t: string)
  {
    |t| >= 3 && t[0] == '[' && t[|t| - 1] == ']' && forall i :: 1 <= i < |t| - 1 ==> '0' <= t[i] <= '9'
  }

  /**
   * Whether `(following|preceding)(-sibling)?::([^\[]*)(\[\d+\])?$` matches at `p`, and then
   * its third group.
   */
  function SiblingAt(x: string, p: nat): Option<string>
    requires p <= |x|
  {
    var s := x[p..];
    if !(StartsWith(s, Following) || StartsWith(s, Preceding)) then None
    else
      var t := s[9..];
      var u := if StartsWith(t, "-sibling::") then Some(t[10..]) else if StartsWith(t, "::") then Some(t[2..]) else None;
      if u.None? then None
      else
        var k := FirstBracket(u.value);
        var tail := u.value[k..];
        if tail == "" || IndexBracket(tail) then Some(u.value[..k]) else None
  }

  /** `pattern.sub(r'\3', xpath)`: the leftmost match, which runs to the end, is replaced by its step. */
  function StripSibling(x: string): string
  {
    StripSiblingFrom(x, 0)
  }

  function StripSiblingFrom(x: string, p: nat): string
    requires p <= |x| + 1
    decreases |x| + 1 - p
  {
    if p > |x| then x
    else match SiblingAt(x, p)
      case Some(g) => x[..p] + g
      case None => StripSiblingFrom(x, p + 1)
  }

  /** An XPath without a following or preceding axis is kept as it is. */
  lemma {:induction false} StripSiblingAbsent(x: string, p: nat)
    requires p <= |x| + 1
    requires !Contains(x, Following) && !Contains(x, Preceding)
    ensures StripSiblingFrom(x, p) == x
    decreases |x| + 1 - p
  {
    if p <= |x| {
      var s := x[p..];
      assert !OccursAt(x, Following, p) && !OccursAt(x, Preceding, p);
      if |s| >= 9 {
        assert s[..9] == x[p..p + 9];
      }
      StripSiblingAbsent(x, p + 1);
    }
  }

  /** The node test runs up to the position bracket, which must then end the path. */
  lemma GroupOf(name: string, index: string)
    requires forall i :: 0 <= i < |name| ==> name[i] != '['
    requires index == "" || IndexBracket(index)
    ensures var u := name + index; FirstBracket(u) == |name| && u[..|name|] == name && u[|name|..] == index
  {
    var u := name + index;
    assert forall i :: 0 <= i < |name| ==> u[i] != '[';
    if |index| > 0 {
      assert u[|name|] == '[';
    }
  }

  /**
   * A path made of one `following`, `preceding`, `following-sibling` or `preceding-sibling`
   * step, with or without a position, is reduced to the step's node test.
   */
  lemma StripSiblingStep(axis: string, sibling: bool, name: string, index: string)
    requires axis == Following || axis == Preceding
    requires forall i :: 0 <= i < |name| ==> name[i] != '['
    requires index == "" || IndexBracket(index)
    ensures StripSibling(axis + ((if sibling then "-sibling::" else "::") + (name + index))) == name
  {
    var sep := if sibling then "-sibling::" else "::";
    var u := name + index;
    var x := axis + (sep + u);
    assert x[0..] == x;
    assert StartsWith(x, axis) by {
      assert x[..9] == axis;
    }
    var t := x[9..];
    assert t == sep + u;
    if sibling {
      assert t[..10] == sep;
      assert t[10..] == u;
    } else {
      assert t[0] == ':';
      assert t[..2] == sep;
      assert t[2..] == u;
    }
    GroupOf(name, index);
  }

  // ---- the descriptor builder ----

  /** `"__".join((prefix, name))` when there is a prefix. */
  function JoinPrefix(prefix: string, name: string): string
  {
    if prefix != "" then prefix + Sep + name else name
  }

  /** The XPath a plain field is given: its (prefixed) name, or the override path for it, cleaned up. */
  function XPathFor(fieldname: string, overrideXPaths: map<string, string>): string
  {
    if fieldname in overrideXPaths then StripSibling(overrideXPaths[fieldname]) else fieldname
  }

  /** The field built for a name without `__` (query.py:736-769). */
  function LeafField(name: string, spec: FieldSpec, prefix: string, overrideXPaths: map<string, string>): Result<Returned>
  {
    var xpath := XPathFor(JoinPrefix(prefix, name), overrideXPaths);
    match spec
    case Name(s) =>
      var ftype := if name == "last_modified" then DateTimeType else if name == "match_count" then IntegerType else StringType;
      if |s| == 0 then Failure(IndexError("string index out of range")) else Success(Plain(ftype, xpath))
    case Fields(l) =>
      if |l| == 0 then Failure(IndexError("list index out of range"))
      else
        var last := l[|l| - 1];
        var ftype := if name == "last_modified" then DateTimeType else if name == "match_count" then IntegerType else last.ftype;
        if !IsNodeField(last) then Success(Plain(ftype, xpath))
        else if last.nodeClass.None? then Failure(AttributeError("_get_node_class"))
        else Success(OfClass(ftype, xpath, last.nodeClass.value))
  }

  /** The special names get their own types; otherwise the type of the last resolved field, or a string. */
  lemma LeafFieldTypes(name: string, spec: FieldSpec, prefix: string, overrideXPaths: map<string, string>)
    requires LeafField(name, spec, prefix, overrideXPaths).Success?
    ensures var r := LeafField(name, spec, prefix, overrideXPaths).value;
            && r.xpath == XPathFor(JoinPrefix(prefix, name), overrideXPaths)
            && (name == "last_modified" ==> r.ftype == DateTimeType)
            && (name == "match_count" ==> r.ftype == IntegerType)
            && (name != "last_modified" && name != "match_count" ==>
                  r.ftype == if spec.Name? then StringType else spec.fields[|spec.fields| - 1].ftype)
            && (r.OfClass? <==> spec.Fields? && IsNodeField(spec.fields[|spec.fields| - 1]))
            && !r.Nested?
  {
  }

  /** What the first loop collects: the class fields so far and, per base name, the sub-object's head field and fields. */
  datatype Acc = Acc(classFields: map<string, Returned>, subOrder: seq<string>,
                     subHead: map<string, Option<Field>>, subFields: map<string, Overrides>)

  /** `d[k] = v` on an ordered dictionary: replaced in place, or appended. */
  function PutSpec(d: Overrides, k: string, v: FieldSpec): (r: Overrides)
    ensures |r| > 0 && forall i :: 0 <= i < |r| ==> r[i] == (k, v) || r[i] in d
  {
    if |d| == 0 then [(k, v)]
    else if d[0].0 == k then [(k, v)] + d[1..]
    else [d[0]] + PutSpec(d[1..], k, v)
  }

  /** The longest name in an override dictionary. */
  function MaxNameLen(es: Overrides): (m: nat)
    ensures forall i :: 0 <= i < |es| ==> |es[i].0| <= m
    ensures |es| > 0 ==> exists i :: 0 <= i < |es| && m == |es[i].0|
  {
    if |es| == 0 then 0
    else
      var m := MaxNameLen(es[..|es| - 1]);
      assert forall i :: 0 <= i < |es| - 1 ==> es[..|es| - 1][i] == es[i];
      if m >= |es[|es| - 1].0| && |es| > 1 then m else |es[|es| - 1].0|
  }

  /** Every collected sub-object has fields, all with names at least two shorter than `m`. */
  predicate Bounded(acc: Acc, m: nat)
  {
    && (forall b :: b in acc.subOrder ==> b in acc.subHead && b in acc.subFields)
    && forall b :: b in acc.subFields ==>
         |acc.subFields[b]| > 0 && forall k :: 0 <= k < |acc.subFields[b]| ==> |acc.subFields[b][k].0| + 2 <= m
  }

  /** One turn of the first loop (query.py:723-769). */
  function Step(acc: Acc, name: string, spec: FieldSpec, prefix: string, overrideXPaths: map<string, string>): Result<Acc>
  {
    if Contains(name, Sep) then
      var (basename, remainder) := ExtractFieldPart(name);
      var split := match spec
        case Fields(l) => if |l| == 0 then None else Some((Some(l[0]), Fields(l[1..])))
        case Name(s) => if |s| == 0 then None else Some((None, Name(s[1..])));
      if split.None? then Failure(IndexError("index out of range"))
      else
        var (head, tail) := split.value;
        var sub := if basename in acc.subFields then acc.subFields[basename] else [];
        Success(acc.(subOrder := if basename in acc.subHead then acc.subOrder else acc.subOrder + [basename],
                     subHead := acc.subHead[basename := head],
                     subFields := acc.subFields[basename := PutSpec(sub, remainder, tail)]))
    else
      match LeafField(name, spec, prefix, overrideXPaths)
      case Failure(e) => Failure(e)
      case Success(f) => Success(acc.(classFields := acc.classFields[name := f]))
  }

  const EmptyAcc: Acc := Acc(map[], [], map[], map[])

  /** The first loop over the override fields, in order. */
  function Collect(es: Overrides, prefix: string, overrideXPaths: map<string, string>): (r: Result<Acc>)
    ensures r.Success? ==> Bounded(r.value, MaxNameLen(es))
    decreases |es|
  {
    if |es| == 0 then Success(EmptyAcc)
    else
      var before := es[..|es| - 1];
      match Collect(before, prefix, overrideXPaths)
      case Failure(e) => Failure(e)
      case Success(acc) =>
        var (name, spec) := es[|es| - 1];
        var r := Step(acc, name, spec, prefix, overrideXPaths);
        assert r.Success? ==> Bounded(r.value, MaxNameLen(es)) by {
          if r.Success? && Contains(name, Sep) {
            ExtractFieldPartSpec(name);
            assert |ExtractFieldPart(name).1| + 2 <= |name| <= MaxNameLen(es);
          }
        }
        r
  }

  /** The sub-object field for base name `b` (query.py:772-781): a node field whose class is rebuilt. */
  function NestedFor(head: Option<Field>, es: Overrides, prefix: string, overrideXPaths: map<string, string>): Result<Returned>
    decreases MaxNameLen(es), 2, 0
  {
    if head.None? then Failure(AttributeError("'str' object has no attribute '_get_node_class'"))
    else if !IsNodeField(head.value) || head.value.nodeClass.None? then Failure(AttributeError("_get_node_class"))
    else
      match ReturnClass(head.value.nodeClass.value.name, es, prefix, overrideXPaths)
      case Failure(e) => Failure(e)
      case Success(s) => Success(Nested(head.value.ftype, ".", s))
  }

  /** The second loop, over the base names in the order they were first seen. */
  function Finish(acc: Acc, keys: seq<string>, prefix: string, overrideXPaths: map<string, string>, bound: nat): Result<map<string, Returned>>
    requires forall b :: b in keys ==> b in acc.subHead && b in acc.subFields && MaxNameLen(acc.subFields[b]) < bound
    decreases bound, 0, |keys|
  {
    if |keys| == 0 then Success(acc.classFields)
    else
      match Finish(acc, keys[..|keys| - 1], prefix, overrideXPaths, bound)
      case Failure(e) => Failure(e)
      case Success(fields) =>
        var b := keys[|keys| - 1];
        match NestedFor(acc.subHead[b], acc.subFields[b], JoinPrefix(prefix, b), overrideXPaths)
        case Failure(e) => Failure(e)
        case Success(f) => Success(fields[b := f])
  }

  /** Each collected sub-object has shorter names than the dictionary it came from. */
  lemma SubFieldsShorter(es: Overrides, prefix: string, overrideXPaths: map<string, string>, b: string)
    requires Collect(es, prefix, overrideXPaths).Success?
    requires b in Collect(es, prefix, overrideXPaths).value.subFields
    ensures MaxNameLen(Collect(es, prefix, overrideXPaths).value.subFields[b]) < MaxNameLen(es)
  {
    var sub := Collect(es, prefix, overrideXPaths).value.subFields[b];
    var i :| 0 <= i < |sub| && MaxNameLen(sub) == |sub[i].0|;
  }

  /** `_create_return_class(baseclass, override_fields, xpath_prefix, override_xpaths)`. */
  function ReturnClass(base: string, es: Overrides, prefix: string, overrideXPaths: map<string, string>): Result<Schema>
    decreases MaxNameLen(es), 1, 0
  {
    match Collect(es, prefix, overrideXPaths)
    case Failure(e) => Failure(e)
    case Success(acc) =>
      assert forall b :: b in acc.subOrder ==> b in acc.subHead && b in acc.subFields && MaxNameLen(acc.subFields[b]) < MaxNameLen(es) by {
        forall b | b in acc.subOrder
          ensures b in acc.subHead && b in acc.subFields && MaxNameLen(acc.subFields[b]) < MaxNameLen(es)
        {
          SubFieldsShorter(es, prefix, overrideXPaths, b);
        }
      }
      match Finish(acc, acc.subOrder, prefix, overrideXPaths, MaxNameLen(es))
      case Failure(e) => Failure(e)
      case Success(fields) => Success(Schema("Partial" + base, base, fields))
  }

  /** Once a prefix of the fields fails, the whole first loop fails the same way. */
  lemma {:induction false} CollectFailPrefix(es: Overrides, j: nat, prefix: string, overrideXPaths: map<string, string>)
    requires j <= |es| && Collect(es[..j], prefix, overrideXPaths).Failure?
    ensures Collect(es, prefix, overrideXPaths) == Collect(es[..j], prefix, overrideXPaths)
    decreases |es|
  {
    if j < |es| {
      var before := es[..|es| - 1];
      assert before[..j] == es[..j];
      CollectFailPrefix(before, j, prefix, overrideXPaths);
    } else {
      assert es[..j] == es;
    }
  }

  /** Once a prefix of the base names fails, the whole second loop fails the same way. */
  lemma {:induction false} FinishFailPrefix(acc: Acc, keys: seq<string>, j: nat, prefix: string, overrideXPaths: map<string, string>, bound: nat)
    requires forall b :: b in keys ==> b in acc.subHead && b in acc.subFields && MaxNameLen(acc.subFields[b]) < bound
    requires j <= |keys| && Finish(acc, keys[..j], prefix, overrideXPaths, bound).Failure?
    ensures Finish(acc, keys, prefix, overrideXPaths, bound) == Finish(acc, keys[..j], prefix, overrideXPaths, bound)
    decreases |keys|
  {
    if j < |keys| {
      var before := keys[..|keys| - 1];
      assert before[..j] == keys[..j];
      FinishFailPrefix(acc, before, j, prefix, overrideXPaths, bound);
    } else {
      assert keys[..j] == keys;
    }
  }

  /** One more field of the first loop is one more `Step`. */
  lemma CollectNext(es: Overrides, i: nat, prefix: string, overrideXPaths: map<string, string>)
    requires i < |es| && Collect(es[..i], prefix, overrideXPaths).Success?
    ensures Collect(es[..i + 1], prefix, overrideXPaths)
         == Step(Collect(es[..i], prefix, overrideXPaths).value, es[i].0, es[i].1, prefix, overrideXPaths)
  {
    assert es[..i + 1][..i] == es[..i];
  }

  /** The first loop of `_create_return_class` (query.py:723-769). */
  method CollectOverrides(es: Overrides, prefix: string, overrideXPaths: map<string, string>) returns (r: Result<Acc>)
    ensures r == Collect(es, prefix, overrideXPaths)
  {
    var classFields: map<string, Returned> := map[];
    var subOrder: seq<string> := [];
    var subHead: map<string, Option<Field>> := map[];
    var subFields: map<string, Overrides> := map[];
    var i := 0;
    while i < |es|
      invariant 0 <= i <= |es|
      invariant Collect(es[..i], prefix, overrideXPaths) == Success(Acc(classFields, subOrder, subHead, subFields))
    {
      var (name, spec) := es[i];
      CollectNext(es, i, prefix, overrideXPaths);
      if Contains(name, Sep) {
        var (basename, remainder) := ExtractFieldPart(name);
        var head: Option<Field>;
        var tail: FieldSpec;
        if spec.Fields? {
          if |spec.fields| == 0 {
            CollectFailPrefix(es, i + 1, prefix, overrideXPaths);
            return Failure(IndexError("index out of range"));
          }
          head, tail := Some(spec.fields[0]), Fields(spec.fields[1..]);
        } else {
          if |spec.text| == 0 {
            CollectFailPrefix(es, i + 1, prefix, overrideXPaths);
            return Failure(IndexError("index out of range"));
          }
          head, tail := None, Name(spec.text[1..]);
        }
        if basename !in subHead {
          subOrder := subOrder + [basename];
        }
        subHead := subHead[basename := head];
        var sub := if basename in subFields then subFields[basename] else [];
        subFields := subFields[basename := PutSpec(sub, remainder, tail)];
      } else {
        var leaf := LeafField(name, spec, prefix, overrideXPaths);
        if leaf.Failure? {
          CollectFailPrefix(es, i + 1, prefix, overrideXPaths);
          return Failure(leaf.error);
        }
        classFields := classFields[name := leaf.value];
      }
      i := i + 1;
    }
    assert es[..|es|] == es;
    return Success(Acc(classFields, subOrder, subHead, subFields));
  }

  /** One more base name of the second loop is one more sub-object field. */
  lemma FinishNext(acc: Acc, keys: seq<string>, j: nat, prefix: string, overrideXPaths: map<string, string>, bound: nat)
    requires forall b :: b in keys ==> b in acc.subHead && b in acc.subFields && MaxNameLen(acc.subFields[b]) < bound
    requires j < |keys| && Finish(acc, keys[..j], prefix, overrideXPaths, bound).Success?
    ensures var b := keys[j];
            var f := NestedFor(acc.subHead[b], acc.subFields[b], JoinPrefix(prefix, b), overrideXPaths);
            Finish(acc, keys[..j + 1], prefix, overrideXPaths, bound)
              == if f.Failure? then Failure(f.error) else Success(Finish(acc, keys[..j], prefix, overrideXPaths, bound).value[b := f.value])
  {
    assert keys[..j + 1][..j] == keys[..j];
  }

  /** The sub-object class for one base name, and the node field that holds it (query.py:773-781). */
  method NestedField(head: Option<Field>, es: Overrides, prefix: string, overrideXPaths: map<string, string>)
    returns (r: Result<Returned>)
    ensures r == NestedFor(head, es, prefix, overrideXPaths)
    decreases MaxNameLen(es), 2, 0
  {
    if head.None? {
      return Failure(AttributeError("'str' object has no attribute '_get_node_class'"));
    }
    if !IsNodeField(head.value) || head.value.nodeClass.None? {
      return Failure(AttributeError("_get_node_class"));
    }
    var sub := CreateReturnClass(head.value.nodeClass.value.name, es, prefix, overrideXPaths);
    if sub.Failure? {
      return Failure(sub.error);
    }
    return Success(Nested(head.value.ftype, ".", sub.value));
  }

  /** The second loop of `_create_return_class` (query.py:771-781): one node field per base name. */
  method BuildSubclasses(acc: Acc, prefix: string, overrideXPaths: map<string, string>, bound: nat)
    returns (r: Result<map<string, Returned>>)
    requires forall b :: b in acc.subOrder ==> b in acc.subHead && b in acc.subFields && MaxNameLen(acc.subFields[b]) < bound
    ensures r == Finish(acc, acc.subOrder, prefix, overrideXPaths, bound)
    decreases bound, 0, 0
  {
    var subOrder, subHead, subFields := acc.subOrder, acc.subHead, acc.subFields;
    var fields := acc.classFields;
    var j := 0;
    while j < |subOrder|
      invariant 0 <= j <= |subOrder|
      invariant Finish(acc, subOrder[..j], prefix, overrideXPaths, bound) == Success(fields)
    {
      var b := subOrder[j];
      FinishNext(acc, subOrder, j, prefix, overrideXPaths, bound);
      var f := NestedField(subHead[b], subFields[b], JoinPrefix(prefix, b), overrideXPaths);
      if f.Failure? {
        FinishFailPrefix(acc, subOrder, j + 1, prefix, overrideXPaths, bound);
        return Failure(f.error);
      }
      fields := fields[b := f.value];
      j := j + 1;
    }
    assert subOrder[..|subOrder|] == subOrder;
    return Success(fields);
  }

  /** `_create_return_class(baseclass, override_fields, xpath_prefix, override_xpaths)`. */
  method CreateReturnClass(base: string, es: Overrides, prefix: string, overrideXPaths: map<string, string>)
    returns (r: Result<Schema>)
    ensures r == ReturnClass(base, es, prefix, overrideXPaths)
    decreases MaxNameLen(es), 1, 0
  {
    var collected := CollectOverrides(es, prefix, overrideXPaths);
    if collected.Failure? {
      return Failure(collected.error);
    }
    var acc := collected.value;
    var bound := MaxNameLen(es);
    forall b | b in acc.subOrder
      ensures b in acc.subHead && b in acc.subFields && MaxNameLen(acc.subFields[b]) < bound
    {
      SubFieldsShorter(es, prefix, overrideXPaths, b);
    }
    var fields := BuildSubclasses(acc, prefix, overrideXPaths, bound);
    if fields.Failure? {
      return Failure(fields.error);
    }
    return Success(Schema("Partial" + base, base, fields.value));
  }

  /** A name without `__`, not repeated later, keeps the field built for it through the first loop. */
  lemma {:induction false} CollectLeaf(es: Overrides, prefix: string, overrideXPaths: map<string, string>, i: nat)
    requires Collect(es, prefix, overrideXPaths).Success? && i < |es| && !Contains(es[i].0, Sep)
    requires forall j :: i < j < |es| ==> es[j].0 != es[i].0
    ensures LeafField(es[i].0, es[i].1, prefix, overrideXPaths).Success?
    ensures var acc := Collect(es, prefix, overrideXPaths).value;
            es[i].0 in acc.classFields && acc.classFields[es[i].0] == LeafField(es[i].0, es[i].1, prefix, overrideXPaths).value
    decreases |es|
  {
    var before := es[..|es| - 1];
    if i < |es| - 1 {
      assert before[i] == es[i];
      forall j | i < j < |before| ensures before[j].0 != before[i].0 {
        assert before[j] == es[j];
      }
      CollectLeaf(before, prefix, overrideXPaths, i);
    }
  }

  /** Every base name the first loop records comes from a `__` name of the dictionary. */
  lemma {:induction false} SubOrderFrom(es: Overrides, prefix: string, overrideXPaths: map<string, string>, b: string)
    requires Collect(es, prefix, overrideXPaths).Success? && b in Collect(es, prefix, overrideXPaths).value.subOrder
    ensures exists j :: 0 <= j < |es| && Contains(es[j].0, Sep) && ExtractFieldPart(es[j].0).0 == b
    decreases |es|
  {
    var before := es[..|es| - 1];
    var acc := Collect(before, prefix, overrideXPaths).value;
    if b in acc.subOrder {
      SubOrderFrom(before, prefix, overrideXPaths, b);
      var j :| 0 <= j < |before| && Contains(before[j].0, Sep) && ExtractFieldPart(before[j].0).0 == b;
      assert before[j] == es[j];
    } else {
      assert Contains(es[|es| - 1].0, Sep) && ExtractFieldPart(es[|es| - 1].0).0 == b;
    }
  }

  /** The second loop only sets the base names it visits. */
  lemma {:induction false} FinishKeeps(acc: Acc, keys: seq<string>, prefix: string, overrideXPaths: map<string, string>, bound: nat, k: string)
    requires forall b :: b in keys ==> b in acc.subHead && b in acc.subFields && MaxNameLen(acc.subFields[b]) < bound
    requires Finish(acc, keys, prefix, overrideXPaths, bound).Success? && k !in keys && k in acc.classFields
    ensures var fields := Finish(acc, keys, prefix, overrideXPaths, bound).value;
            k in fields && fields[k] == acc.classFields[k]
    decreases |keys|
  {
    if |keys| > 0 {
      var before := keys[..|keys| - 1];
      assert forall b :: b in before ==> b in keys;
      FinishKeeps(acc, before, prefix, overrideXPaths, bound, k);
    }
  }

  /**
   * In the generated class, a field named without `__` (and not the base of a `__` name) is
   * the field built from its own entry: its type and XPath as `LeafFieldTypes` describes.
   */
  lemma ReturnClassLeaf(base: string, es: Overrides, prefix: string, overrideXPaths: map<string, string>, i: nat)
    requires ReturnClass(base, es, prefix, overrideXPaths).Success? && i < |es| && !Contains(es[i].0, Sep)
    requires forall j :: i < j < |es| ==> es[j].0 != es[i].0
    requires forall j :: 0 <= j < |es| && Contains(es[j].0, Sep) ==> ExtractFieldPart(es[j].0).0 != es[i].0
    ensures var schema := ReturnClass(base, es, prefix, overrideXPaths).value;
            && schema.name == "Partial" + base && schema.base == base
            && LeafField(es[i].0, es[i].1, prefix, overrideXPaths).Success?
            && es[i].0 in schema.fields
            && schema.fields[es[i].0] == LeafField(es[i].0, es[i].1, prefix, overrideXPaths).value
  {
    var acc := Collect(es, prefix, overrideXPaths).value;
    CollectLeaf(es, prefix, overrideXPaths, i);
    forall b | b in acc.subOrder
      ensures b in acc.subHead && b in acc.subFields && MaxNameLen(acc.subFields[b]) < MaxNameLen(es)
    {
      SubFieldsShorter(es, prefix, overrideXPaths, b);
    }
    if es[i].0 in acc.subOrder {
      SubOrderFrom(es, prefix, overrideXPaths, es[i].0);
    }
    FinishKeeps(acc, acc.subOrder, prefix, overrideXPaths, MaxNameLen(es), es[i].0);
  }
}
