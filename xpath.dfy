// The XPath syntax tree the query builder inspects and rewrites, with its serialiser.
// Parsing is done by an external library and is not part of this model.
module XPath {
  import opened Wrappers
  import opened Text

  /**
   * An XPath expression, as far as the query builder looks into it.  `Other` stands for
   * every node kind the builder treats as opaque (literals, numbers, variable references,
   * filter expressions); its text is its serialised form.
   */
  datatype Expr =
    | Step(axis: string, nodeTest: string, predicates: seq<Expr>)   // axis "" = child, "@" = attribute
    | AbbreviatedStep(abbr: string)                               // "." or ".."
    | AbsolutePath(op: string, relative: Option<Expr>)            // op "/" or "//"
    | BinaryExpression(left: Expr, op: string, right: Expr)
    | FunctionCall(name: string, args: seq<Expr>)                 // name includes any prefix
    | Other(text: string)

  /** Operators written as words, and so surrounded by spaces when serialised. */
  const Keywords: set<string> := {"or", "and", "div", "mod"}

  function AxisPrefix(axis: string): string
  {
    if axis == "" then "" else if axis == "@" then "@" else axis + "::"
  }

  function Serialize(e: Expr): string
    decreases e, 0
  {
    match e
    case Step(axis, test, preds) => AxisPrefix(axis) + test + SerializePredicates(preds)
    case AbbreviatedStep(abbr) => abbr
    case AbsolutePath(op, rel) =>
      (match rel case None => op case Some(r) => op + Serialize(r))
    case BinaryExpression(l, op, r) =>
      Serialize(l) + (if op in Keywords then " " + op + " " else op) + Serialize(r)
    case FunctionCall(name, args) => name + "(" + SerializeArgs(args) + ")"
    case Other(text) => text
  }

  /** Each predicate in brackets. */
  function SerializePredicates(preds: seq<Expr>): string
    decreases preds, 1
  {
    if |preds| == 0 then "" else "[" + Serialize(preds[0]) + "]" + SerializePredicates(preds[1..])
  }

  /** Call arguments separated by commas. */
  function SerializeArgs(args: seq<Expr>): string
    decreases args, 1
  {
    if |args| == 0 then ""
    else if |args| == 1 then Serialize(args[0])
    else Serialize(args[0]) + "," + SerializeArgs(args[1..])
  }

  /** A node test that names no particular element. */
  predicate IsWildcardTest(test: string)
  {
    test == "node()" || test == "*"
  }

  /**
   * `_return_name_from_xpath`: the element name used to wrap constructed results, taken from
   * the last step along the right-hand side of the path; "node" when there is none.
   */
  function ReturnNameFromXPath(e: Expr): (name: string)
    ensures !IsWildcardTest(name)
    ensures name != "node" ==> exists s :: s in RightSpine(e) && s.Step? && s.nodeTest == name
    decreases e
  {
    match e
    case Step(_, test, _) => if IsWildcardTest(test) then "node" else test
    case BinaryExpression(_, _, r) => ReturnNameFromXPath(r)
    case AbsolutePath(_, rel) =>
      (match rel case None => "node" case Some(r) => ReturnNameFromXPath(r))
    case _ => "node"
  }

  /** The expressions met walking down right-hand operands and absolute-path bodies. */
  function RightSpine(e: Expr): seq<Expr>
    decreases e
  {
    match e
    case BinaryExpression(_, _, r) => [e] + RightSpine(r)
    case AbsolutePath(_, Some(r)) => [e] + RightSpine(r)
    case _ => [e]
  }
}
