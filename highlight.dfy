// The `exist_matches` template filter (templatetags/existdb.py): eXist's highlight
// elements become HTML spans, every other element is reduced to its text.
module Highlight {
  import opened Wrappers
  import opened Text

  /**
   * An element of the returned XML: whether it is `exist:match`, its leading text, its
   * child elements and the text that follows its end tag (lxml's `text` and `tail`).
   */
  datatype Node = Node(isMatch: bool, text: Option<string>, children: seq<Node>, tail: Option<string>)

  /** What the filter is given: nothing, an XML-mapped object, or any other value by its `unicode()`. */
  datatype Value = NoValue | Mapped(node: Node) | Plain(repr: string)

  const MatchBegin: string := "<span class=\"exist-match\">"
  const MatchEnd: string := "</span>"

  /** `x and escape(x)` followed by `if x: yield x`: a missing or empty piece yields nothing. */
  function Piece(s: Option<string>, escape: string -> string): seq<string>
  {
    if s.Some? && s.value != "" && escape(s.value) != "" then [escape(s.value)] else []
  }

  /** `_wrap`: begin, text, the parts, end, tail, each only when it is non-empty. */
  function Wrap(begin: string, text: seq<string>, parts: seq<string>, end: string, tail: seq<string>): seq<string>
  {
    (if begin != "" then [begin] else []) + text + parts + (if end != "" then [end] else []) + tail
  }

  /** `node_parts` with `_format_node`: the parts of one element, its tail only when asked for. */
  function NodeParts(n: Node, escape: string -> string, includeTail: bool): seq<string>
    decreases n, 1
  {
    var text := Piece(n.text, escape);
    var contents := ChildParts(n.children, escape);
    var tail := if includeTail then Piece(n.tail, escape) else [];
    if n.isMatch then Wrap(MatchBegin, text, contents, MatchEnd, tail)
    else Wrap("", text, contents, "", tail)
  }

  /** The generator over the children: each child's parts, tails included, in document order. */
  function ChildParts(cs: seq<Node>, escape: string -> string): seq<string>
    decreases cs, 0
  {
    if |cs| == 0 then [] else NodeParts(cs[0], escape, true) + ChildParts(cs[1..], escape)
  }

  /** `exist_matches(value, autoescape)`; `conditionalEscape` stands for Django's `conditional_escape`. */
  function ExistMatches(v: Value, autoescape: bool, conditionalEscape: string -> string): string
  {
    var escape := if autoescape then conditionalEscape else (x: string) => x;
    match v
    case NoValue => ""
    case Mapped(n) => Join("", NodeParts(n, escape, false))
    case Plain(r) => Join("", [escape(r)])
  }

  /** The text of a piece after escaping; a missing or empty piece is not escaped at all. */
  function Escaped(s: Option<string>, escape: string -> string): string
  {
    if s.Some? && s.value != "" then escape(s.value) else ""
  }

  /** `''.join` distributes over concatenation. */
  lemma ConcatAppend(a: seq<string>, b: seq<string>)
    ensures Join("", a + b) == Join("", a) + Join("", b)
  {
    if |a| == 0 {
      assert a + b == b;
    } else if |b| == 0 {
      assert a + b == a;
    } else {
      JoinAppend("", a, b);
    }
  }

  lemma ConcatPiece(s: Option<string>, escape: string -> string)
    ensures Join("", Piece(s, escape)) == Escaped(s, escape)
  {
  }

  /** The string one element renders to: the join of its parts, followed by its tail when asked for. */
  function Rendered(n: Node, escape: string -> string, includeTail: bool): string
  {
    Join("", NodeParts(n, escape, includeTail))
  }

  /** Joining what `_wrap` yields puts the fenceposts around the joined parts. */
  lemma WrapJoin(begin: string, text: seq<string>, parts: seq<string>, end: string, tail: seq<string>)
    ensures Join("", Wrap(begin, text, parts, end, tail))
         == begin + Join("", text) + Join("", parts) + end + Join("", tail)
  {
    var b := if begin != "" then [begin] else [];
    var e := if end != "" then [end] else [];
    assert Join("", b) == begin;
    assert Join("", e) == end;
    ConcatAppend(b + text + parts + e, tail);
    ConcatAppend(b + text + parts, e);
    ConcatAppend(b + text, parts);
    ConcatAppend(b, text);
  }

  /** An `exist:match` element becomes a span around its text and children, then its tail. */
  lemma MatchBecomesSpan(n: Node, escape: string -> string, includeTail: bool)
    requires n.isMatch
    ensures Rendered(n, escape, includeTail) ==
              MatchBegin + Escaped(n.text, escape) + Join("", ChildParts(n.children, escape)) + MatchEnd
              + (if includeTail then Escaped(n.tail, escape) else "")
  {
    var text := Piece(n.text, escape);
    var tail := if includeTail then Piece(n.tail, escape) else [];
    ConcatPiece(n.text, escape);
    ConcatPiece(n.tail, escape);
    assert Join("", tail) == if includeTail then Escaped(n.tail, escape) else "";
    WrapJoin(MatchBegin, text, ChildParts(n.children, escape), MatchEnd, tail);
  }

  /** Any other element adds no markup: only its text, its children and its tail. */
  lemma OtherElementUnwrapped(n: Node, escape: string -> string, includeTail: bool)
    requires !n.isMatch
    ensures Rendered(n, escape, includeTail) ==
              Escaped(n.text, escape) + Join("", ChildParts(n.children, escape))
              + (if includeTail then Escaped(n.tail, escape) else "")
  {
    var text := Piece(n.text, escape);
    var tail := if includeTail then Piece(n.tail, escape) else [];
    ConcatPiece(n.text, escape);
    ConcatPiece(n.tail, escape);
    assert Join("", tail) == if includeTail then Escaped(n.tail, escape) else "";
    var x, y := Join("", text), Join("", ChildParts(n.children, escape));
    WrapJoin("", text, ChildParts(n.children, escape), "", tail);
    assert "" + x == x;
    assert x + y + "" == x + y;
  }

  /** The children render one after another, in document order, each with its tail. */
  lemma {:induction false} ChildrenInOrder(cs: seq<Node>, escape: string -> string)
    ensures |cs| > 0 ==>
              Join("", ChildParts(cs, escape)) == Rendered(cs[0], escape, true) + Join("", ChildParts(cs[1..], escape))
    ensures Join("", ChildParts([], escape)) == ""
  {
    if |cs| > 0 {
      ConcatAppend(NodeParts(cs[0], escape, true), ChildParts(cs[1..], escape));
    }
  }

  /** The value's own tail is never part of the output; everything inside it is. */
  lemma TopTailOmitted(n: Node, t: Option<string>, autoescape: bool, conditionalEscape: string -> string)
    ensures ExistMatches(Mapped(n.(tail := t)), autoescape, conditionalEscape)
         == ExistMatches(Mapped(n), autoescape, conditionalEscape)
  {
  }

  /** One element with text `a` around one `exist:match` (text `m`, tail `b`), for any escaping. */
  lemma RenderedSingleMatch(a: string, m: string, b: string, t: Option<string>, escape: string -> string)
    requires a != "" && m != "" && b != "" && escape(a) != "" && escape(m) != "" && escape(b) != ""
    ensures Rendered(Node(false, Some(a), [Node(true, Some(m), [], Some(b))], t), escape, false)
         == escape(a) + (MatchBegin + escape(m) + MatchEnd + escape(b))
  {
    var child := Node(true, Some(m), [], Some(b));
    var span := MatchBegin + escape(m) + MatchEnd + escape(b);
    ChildrenInOrder([], escape);
    MatchBecomesSpan(child, escape, true);
    assert MatchBegin + escape(m) + "" == MatchBegin + escape(m);
    assert Rendered(child, escape, true) == span;
    ChildrenInOrder([child], escape);
    assert [child][1..] == [];
    assert span + "" == span;
    assert Join("", ChildParts([child], escape)) == span;
    OtherElementUnwrapped(Node(false, Some(a), [child], t), escape, false);
    assert escape(a) + span + "" == escape(a) + span;
  }

  /**
   * An element holding text `a`, then one `exist:match` around `m` whose tail is `b`:
   * the rendering is `a`, the span around `m`, then `b`, each escaped when autoescape is on.
   */
  lemma SingleMatch(a: string, m: string, b: string, t: Option<string>, autoescape: bool,
                    conditionalEscape: string -> string)
    requires a != "" && m != "" && b != ""
    requires autoescape ==> conditionalEscape(a) != "" && conditionalEscape(m) != "" && conditionalEscape(b) != ""
    ensures !autoescape ==>
              ExistMatches(Mapped(Node(false, Some(a), [Node(true, Some(m), [], Some(b))], t)), autoescape, conditionalEscape)
              == a + (MatchBegin + m + MatchEnd + b)
    ensures autoescape ==>
              ExistMatches(Mapped(Node(false, Some(a), [Node(true, Some(m), [], Some(b))], t)), autoescape, conditionalEscape)
              == conditionalEscape(a) + (MatchBegin + conditionalEscape(m) + MatchEnd + conditionalEscape(b))
  {
    if autoescape {
      RenderedSingleMatch(a, m, b, t, conditionalEscape);
    } else {
      RenderedSingleMatch(a, m, b, t, (x: string) => x);
    }
  }

  /** The single-match abstract of the template tag's tests, rendered without autoescape. */
  lemma SingleMatchAbstract(conditionalEscape: string -> string)
    ensures ExistMatches(Mapped(Node(false, Some("Pitts v. "),
                                     [Node(true, Some("Freeman"), [], Some("\nschool desegregation case files"))], None)),
                         false, conditionalEscape)
         == "Pitts v. " + (MatchBegin + "Freeman" + MatchEnd + "\nschool desegregation case files")
  {
    SingleMatch("Pitts v. ", "Freeman", "\nschool desegregation case files", None, false, conditionalEscape);
  }

  /** Nothing renders as the empty string; a plain value as its escaped text. */
  lemma OtherValues(r: string, conditionalEscape: string -> string)
    ensures ExistMatches(NoValue, true, conditionalEscape) == ""
    ensures ExistMatches(Plain(r), true, conditionalEscape) == conditionalEscape(r)
    ensures ExistMatches(Plain(r), false, conditionalEscape) == r
  {
  }

  /** No element of the tree is a highlight. */
  predicate NoMatches(n: Node)
    decreases n, 1
  {
    !n.isMatch && AllNoMatches(n.children)
  }

  predicate AllNoMatches(cs: seq<Node>)
    decreases cs, 0
  {
    |cs| > 0 ==> NoMatches(cs[0]) && AllNoMatches(cs[1..])
  }

  /** The text content of an element (lxml's `itertext`), with its own tail when asked for. */
  function TextContent(n: Node, includeTail: bool): string
    decreases n, 1
  {
    (if n.text.Some? then n.text.value else "") + ChildrenText(n.children)
    + (if includeTail && n.tail.Some? then n.tail.value else "")
  }

  function ChildrenText(cs: seq<Node>): string
    decreases cs, 0
  {
    if |cs| == 0 then "" else TextContent(cs[0], true) + ChildrenText(cs[1..])
  }

  /**
   * Without autoescaping and without highlights the filter gives exactly the value's text
   * content: every other element is stripped and nothing is lost or reordered.
   */
  lemma {:induction false} PlainTreeIsText(n: Node, includeTail: bool)
    requires NoMatches(n)
    ensures Rendered(n, (x: string) => x, includeTail) == TextContent(n, includeTail)
    decreases n, 1
  {
    OtherElementUnwrapped(n, (x: string) => x, includeTail);
    ChildrenPlainText(n.children);
  }

  lemma {:induction false} ChildrenPlainText(cs: seq<Node>)
    requires AllNoMatches(cs)
    ensures Join("", ChildParts(cs, (x: string) => x)) == ChildrenText(cs)
    decreases cs, 0
  {
    ChildrenInOrder(cs, (x: string) => x);
    if |cs| > 0 {
      PlainTreeIsText(cs[0], true);
      ChildrenPlainText(cs[1..]);
    }
  }

  lemma NoAutoescape(n: Node, conditionalEscape: string -> string)
    requires NoMatches(n)
    ensures ExistMatches(Mapped(n), false, conditionalEscape) == TextContent(n, false)
  {
    PlainTreeIsText(n, false);
  }
}
