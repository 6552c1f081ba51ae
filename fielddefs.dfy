// `__`-separated field definitions resolved against a model's fields (query.py:1456-1496).
module FieldDefs {
  import opened Wrappers
  import opened Text

  /** The mapped field types the modelled code tells apart. */
  datatype FieldType = StringType | IntegerType | DateTimeType | NodeType | NodeListType | OtherType(name: string)

  /**
   * A field of an XML-mapped model: its type, its XPath and, for the node field types, the
   * model class of the node it maps to.
   */
  datatype Field = Field(ftype: FieldType, xpath: string, nodeClass: Option<NodeClass>)

  /** A model class: its name and its `_fields` by attribute name. */
  datatype NodeClass = NodeClass(name: string, fields: map<string, Field>)

  predicate IsNodeField(f: Field)
  {
    f.ftype == NodeType || f.ftype == NodeListType
  }

  /** `getattr(field, 'node_class', None)`. */
  function NodeClassOf(f: Field): Option<NodeClass>
  {
    if IsNodeField(f) then f.nodeClass else None
  }

  const Sep: string := "__"

  /** `_extract_fieldpart`: the text before the first `__` and the text after it. */
  function ExtractFieldPart(s: string): (r: (string, string))
    ensures |s| > 0 ==> |r.1| < |s|
  {
    var idx := Find(s, Sep);
    if idx < 0 then (s, "") else (s[..idx], s[idx + 2..])
  }

  /** The first part holds no separator; with a separator the two parts rebuild the text. */
  lemma ExtractFieldPartSpec(s: string)
    ensures var r := ExtractFieldPart(s);
            && (Contains(s, Sep) ==> s == r.0 + Sep + r.1 && !Contains(r.0, Sep))
            && (!Contains(s, Sep) ==> r == (s, ""))
  {
    FindSpec(s, Sep);
    var idx := Find(s, Sep);
    if idx >= 0 {
      FindOccurs(s, Sep);
      var head := s[..idx];
      assert s == head + Sep + s[idx + 2..] by {
        assert s[idx..idx + 2] == Sep;
      }
      forall j | 0 <= j <= |head| ensures !OccursAt(head, Sep, j) {
        if j + 2 <= |head| {
          FindFirst(s, Sep, j);
          assert head[j..j + 2] == s[j..j + 2];
        }
      }
    }
  }

  /** A name free of the separator, not ending in `_`, is split off exactly. */
  lemma ExtractKnown(n: string, rest: string)
    requires !Contains(n, Sep) && (|n| > 0 ==> n[|n| - 1] != '_')
    ensures ExtractFieldPart(n + Sep + rest) == (n, rest)
  {
    var s := n + Sep + rest;
    assert OccursAt(s, Sep, |n|) by {
      assert s[|n|..|n| + 2] == Sep;
    }
    forall j | 0 <= j < |n| ensures !OccursAt(s, Sep, j) {
      if j + 2 <= |n| {
        assert s[j..j + 2] == n[j..j + 2];
        assert !OccursAt(n, Sep, j);
      } else {
        assert s[j] == n[|n| - 1];
      }
    }
    FindSpec(s, Sep);
    FindOccurs(s, Sep);
    var idx := Find(s, Sep);
    if idx > |n| {
      FindFirst(s, Sep, |n|);
    }
    assert idx == |n|;
    assert s[..idx] == n && s[idx + 2..] == rest;
  }

  /**
   * What `_split_fielddef` computes: the fields named one after another down the chain of
   * node classes, and the text left when a name is unknown or the chain ends.
   */
  function FieldSplit(fielddef: string, cls: Option<NodeClass>): (seq<Field>, string)
    decreases |fielddef|
  {
    if fielddef == "" || cls.None? then ([], fielddef)
    else
      var (name, rest) := ExtractFieldPart(fielddef);
      if name !in cls.value.fields then ([], fielddef)
      else
        var f := cls.value.fields[name];
        var (more, left) := FieldSplit(rest, NodeClassOf(f));
        ([f] + more, left)
  }

  /** `_split_fielddef(fielddef, cls)`. */
  method SplitFieldDef(fielddef: string, cls: Option<NodeClass>) returns (parts: seq<Field>, rest: string)
    ensures (parts, rest) == FieldSplit(fielddef, cls)
  {
    parts := [];
    var fd := fielddef;
    var c := cls;
    EmptyAppend(FieldSplit(fd, c).0);
    while fd != "" && c.Some?
      invariant FieldSplit(fielddef, cls).0 == parts + FieldSplit(fd, c).0
      invariant FieldSplit(fielddef, cls).1 == FieldSplit(fd, c).1
      decreases |fd|
    {
      var (name, more) := ExtractFieldPart(fd);
      if name !in c.value.fields {
        break;
      }
      var field := c.value.fields[name];
      fd := more;
      parts := parts + [field];
      c := NodeClassOf(field);
    }
    rest := fd;
    EmptyAppend2(parts);
  }

  lemma EmptyAppend(s: seq<Field>)
    ensures [] + s == s
  {
  }

  lemma EmptyAppend2(s: seq<Field>)
    ensures s + [] == s
  {
  }

  /** What is left over is always the tail end of the definition. */
  lemma {:induction false} FieldSplitSuffix(fielddef: string, cls: Option<NodeClass>)
    ensures EndsWith(fielddef, FieldSplit(fielddef, cls).1)
    decreases |fielddef|
  {
    if fielddef != "" && cls.Some? {
      var (name, rest) := ExtractFieldPart(fielddef);
      ExtractFieldPartSpec(fielddef);
      if name in cls.value.fields {
        var f := cls.value.fields[name];
        FieldSplitSuffix(rest, NodeClassOf(f));
        var left := FieldSplit(rest, NodeClassOf(f)).1;
        assert EndsWith(fielddef, rest) by {
          if Contains(fielddef, Sep) {
            assert fielddef[|fielddef| - |rest|..] == rest;
          }
        }
        assert fielddef[|fielddef| - |left|..] == rest[|rest| - |left|..];
      }
    }
    if fielddef == "" || cls.None? || ExtractFieldPart(fielddef).0 !in cls.value.fields {
      assert fielddef[|fielddef| - |fielddef|..] == fielddef;
    }
  }

  /** A known name followed by the separator resolves to its field, then the rest goes on from its node class. */
  lemma FieldSplitStep(n: string, rest: string, c: NodeClass)
    requires n in c.fields && !Contains(n, Sep) && (|n| > 0 ==> n[|n| - 1] != '_')
    ensures var f := c.fields[n];
            var tail := FieldSplit(rest, NodeClassOf(f));
            FieldSplit(n + Sep + rest, Some(c)) == ([f] + tail.0, tail.1)
  {
    ExtractKnown(n, rest);
  }

  /** A known last name resolves to its field with nothing left over. */
  lemma FieldSplitLast(n: string, c: NodeClass)
    requires n in c.fields && n != "" && !Contains(n, Sep)
    ensures FieldSplit(n, Some(c)) == ([c.fields[n]], "")
  {
    ExtractFieldPartSpec(n);
    assert ExtractFieldPart(n) == (n, "");
    var f := c.fields[n];
    assert FieldSplit("", NodeClassOf(f)) == ([], "");
    EmptyAppend2([f]);
  }

  /** After a field that maps to no node class, everything else is left over. */
  lemma FieldSplitLeaf(n: string, rest: string, c: NodeClass)
    requires n in c.fields && NodeClassOf(c.fields[n]).None?
    requires !Contains(n, Sep) && (|n| > 0 ==> n[|n| - 1] != '_')
    ensures FieldSplit(n + Sep + rest, Some(c)) == ([c.fields[n]], rest)
  {
    FieldSplitStep(n, rest, c);
    var f := c.fields[n];
    assert FieldSplit(rest, NodeClassOf(f)) == ([], rest);
    EmptyAppend2([f]);
  }

  /** An unknown first name resolves nothing and leaves the whole definition. */
  lemma FieldSplitUnknown(fielddef: string, c: NodeClass)
    requires ExtractFieldPart(fielddef).0 !in c.fields
    ensures FieldSplit(fielddef, Some(c)) == ([], fielddef)
  {
  }

  function XPaths(fields: seq<Field>): (xs: seq<string>)
    ensures |xs| == |fields| && forall i :: 0 <= i < |fields| ==> xs[i] == fields[i].xpath
  {
    if |fields| == 0 then [] else [fields[0].xpath] + XPaths(fields[1..])
  }

  /** `_join_field_xpath`: the fields' XPaths joined by `/`. */
  function JoinFieldXPath(fields: seq<Field>): string
  {
    Join("/", XPaths(fields))
  }

  /** `_simple_fielddef_to_xpath`: the joined XPath when the whole definition resolves, else None. */
  function SimpleFieldDefToXPath(fielddef: string, cls: Option<NodeClass>): Option<string>
  {
    var (fields, rest) := FieldSplit(fielddef, cls);
    if |fields| > 0 && rest == "" then Some(JoinFieldXPath(fields)) else None
  }

  /** `a__b` through a node field `a` is the path from `a`'s XPath to `b`'s. */
  lemma SimpleTwoLevels(a: string, b: string, c: NodeClass)
    requires a in c.fields && !Contains(a, Sep) && (|a| > 0 ==> a[|a| - 1] != '_')
    requires NodeClassOf(c.fields[a]).Some?
    requires b in NodeClassOf(c.fields[a]).value.fields && b != "" && !Contains(b, Sep)
    ensures SimpleFieldDefToXPath(a + Sep + b, Some(c))
         == Some(c.fields[a].xpath + "/" + NodeClassOf(c.fields[a]).value.fields[b].xpath)
  {
    var fa := c.fields[a];
    var c2 := NodeClassOf(fa).value;
    var fb := c2.fields[b];
    FieldSplitStep(a, b, c);
    FieldSplitLast(b, c2);
    assert [fa] + [fb] == [fa, fb];
    assert FieldSplit(a + Sep + b, Some(c)) == ([fa, fb], "");
    assert XPaths([fa, fb]) == [fa.xpath, fb.xpath];
    assert Join("/", [fa.xpath, fb.xpath]) == fa.xpath + "/" + Join("/", [fb.xpath]);
    assert JoinFieldXPath([fa, fb]) == fa.xpath + "/" + fb.xpath;
  }

  /** A definition that runs on past a field without a node class has no simple XPath. */
  lemma SimpleStopsAtLeaf(n: string, rest: string, c: NodeClass)
    requires n in c.fields && NodeClassOf(c.fields[n]).None? && rest != ""
    requires !Contains(n, Sep) && (|n| > 0 ==> n[|n| - 1] != '_')
    ensures SimpleFieldDefToXPath(n + Sep + rest, Some(c)) == None
  {
    FieldSplitLeaf(n, rest, c);
  }
}
