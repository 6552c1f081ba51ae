// Making an XPath relative to the FLWOR variable or another context (`prep_xpath`,
// query.py:1292-1374) and locating a returned field inside a constructed result
// (`_return_field_xpath`, query.py:1376-1395).  These are the string results; the
// bookkeeping `prep_xpath` does for return fields is in the Xquery class.
module Binding {
  import opened Wrappers
  import opened Text
  import opened XPath

  /** The variable each result is bound to in a FLWOR expression. */
  const XqVar: string := "$n"

  /**
   * The xpath made relative to `context`.  A union binds each side separately, an absolute
   * path is appended to the context as is, a function call keeps its own name and has its
   * path-like arguments bound, and anything else is joined to the context with `/`.
   */
  function Bind(e: Expr, context: string): string
    decreases e, 0
  {
    match e
    case BinaryExpression(l, op, r) =>
      if op == "|" then Bind(l, context) + "|" + Bind(r, context)
      else context + "/" + Serialize(e)
    case AbsolutePath(_, _) => context + Serialize(e)
    case FunctionCall(name, args) => Serialize(FunctionCall(name, BindArgs(args, context)))
    case _ => context + "/" + Serialize(e)
  }

  function BindArgs(args: seq<Expr>, context: string): (r: seq<Expr>)
    ensures |r| == |args|
    decreases args, 2
  {
    if |args| == 0 then [] else [BindArg(args[0], context)] + BindArgs(args[1..], context)
  }

  /**
   * One argument of a function call after binding.  Steps, abbreviated steps and nested
   * calls are bound to the FLWOR variable, whatever context the call itself is bound to;
   * the left side of a `//` and both sides of a `|` are bound to the call's context.  The
   * bound text is parsed again by the source; the model keeps it as opaque text.
   */
  function BindArg(a: Expr, context: string): Expr
    decreases a, 3
  {
    match a
    case AbbreviatedStep(_) => Other(Bind(a, XqVar))
    case Step(_, _, _) => Other(Bind(a, XqVar))
    case FunctionCall(_, _) => Other(Bind(a, XqVar))
    case BinaryExpression(l, op, r) =>
      if op == "//" then Other(Bind(l, context) + "//" + Serialize(r))
      else if op == "|" then Other(Bind(l, context) + "|" + Bind(r, context))
      else a
    case _ => a
  }

  /** The text `prep_xpath` returns for a return field. */
  function FieldBlock(e: Expr): string
  {
    "<field>{" + Bind(e, XqVar) + "}</field>"
  }

  predicate IsUnion(e: Expr)
  {
    e.BinaryExpression? && e.op == "|"
  }

  /** The operands of a (possibly nested) union, left to right. */
  function UnionOperands(e: Expr): (ops: seq<Expr>)
    ensures |ops| >= 1
    ensures forall o :: o in ops ==> !IsUnion(o)
    decreases e
  {
    if IsUnion(e) then UnionOperands(e.left) + UnionOperands(e.right) else [e]
  }

  function BindAll(es: seq<Expr>, context: string): (r: seq<string>)
    ensures |r| == |es|
  {
    if |es| == 0 then [] else [Bind(es[0], context)] + BindAll(es[1..], context)
  }

  lemma {:induction false} BindAllAppend(a: seq<Expr>, b: seq<Expr>, context: string)
    ensures BindAll(a + b, context) == BindAll(a, context) + BindAll(b, context)
    decreases |a|
  {
    if |a| > 0 {
      assert (a + b)[1..] == a[1..] + b;
      BindAllAppend(a[1..], b, context);
    } else {
      assert a + b == b;
    }
  }

  /**
   * A union is bound operand by operand: the result is the bound operands joined with `|`,
   * and every operand other than a function call starts with the context, so no operand is
   * left relative to the document root.
   */
  lemma {:induction false} BindUnion(e: Expr, context: string)
    ensures Bind(e, context) == Join("|", BindAll(UnionOperands(e), context))
    ensures forall o :: o in UnionOperands(e) && !o.FunctionCall? ==> StartsWith(Bind(o, context), context)
    decreases e
  {
    if IsUnion(e) {
      BindUnion(e.left, context);
      BindUnion(e.right, context);
      BindAllAppend(UnionOperands(e.left), UnionOperands(e.right), context);
      JoinAppend("|", BindAll(UnionOperands(e.left), context), BindAll(UnionOperands(e.right), context));
    } else {
      assert BindAll([e], context) == [Bind(e, context)];
      if !e.FunctionCall? {
        match e
        case AbsolutePath(_, _) =>
          assert Bind(e, context)[..|context|] == context;
        case _ =>
          assert Bind(e, context)[..|context|] == context;
      }
    }
  }

  function FieldRef(k: int): string
  {
    "field[" + IntToString(k) + "]"
  }

  /** Python's `%s` of an optional string: a missing value prints as `None`. */
  function ShowOpt(o: Option<string>): string
  {
    match o
    case None => "None"
    case Some(s) => s
  }

  /**
   * `_return_field_xpath`: where the `k`-th return field's value sits in a constructed
   * result, or None for expressions the source has no rule for.
   */
  function ReturnFieldXPath(e: Expr, k: int): Option<string>
    decreases e
  {
    match e
    case Step(_, _, _) => Some(FieldRef(k) + "/" + Serialize(e))
    case BinaryExpression(l, op, r) =>
      if op == "|" then Some(ShowOpt(ReturnFieldXPath(l, k)) + "|" + ShowOpt(ReturnFieldXPath(r, k)))
      else if op == "/" || op == "//" then ReturnFieldXPath(r, k)
      else None
    case FunctionCall(_, _) => Some(FieldRef(k))
    case AbsolutePath(_, rel) =>
      (match rel case None => None case Some(r) => ReturnFieldXPath(r, k))
    case _ => None
  }

  function LocatorTexts(es: seq<Expr>, k: int): (r: seq<string>)
    ensures |r| == |es|
  {
    if |es| == 0 then [] else [ShowOpt(ReturnFieldXPath(es[0], k))] + LocatorTexts(es[1..], k)
  }

  lemma {:induction false} LocatorTextsAppend(a: seq<Expr>, b: seq<Expr>, k: int)
    ensures LocatorTexts(a + b, k) == LocatorTexts(a, k) + LocatorTexts(b, k)
    decreases |a|
  {
    if |a| > 0 {
      assert (a + b)[1..] == a[1..] + b;
      LocatorTextsAppend(a[1..], b, k);
    } else {
      assert a + b == b;
    }
  }

  /** No union on the way down the right-hand side. */
  predicate SpineFree(e: Expr)
  {
    forall s :: s in RightSpine(e) ==> !IsUnion(s)
  }

  /** A locator found for an operand without a nested union points into the `k`-th field. */
  lemma {:induction false} LocatorInField(e: Expr, k: int)
    requires SpineFree(e) && ReturnFieldXPath(e, k).Some?
    ensures StartsWith(ReturnFieldXPath(e, k).value, FieldRef(k))
    decreases e
  {
    assert RightSpine(e)[0] == e;
    assert e in RightSpine(e);
    assert !IsUnion(e);
    match e
    case BinaryExpression(_, _, r) =>
      assert RightSpine(e) == [e] + RightSpine(r);
      assert forall s :: s in RightSpine(r) ==> s in RightSpine(e);
      LocatorInField(r, k);
    case AbsolutePath(_, rel) =>
      assert RightSpine(e) == [e] + RightSpine(rel.value);
      assert forall s :: s in RightSpine(rel.value) ==> s in RightSpine(e);
      LocatorInField(rel.value, k);
    case _ =>
      assert ReturnFieldXPath(e, k).value[..|FieldRef(k)|] == FieldRef(k);
  }

  /**
   * The locator of a union is the locators of its operands joined with `|`, and each of
   * them refers to the same field number `k`: one union is one returned field.
   */
  lemma {:induction false} LocatorOfUnion(e: Expr, k: int)
    requires IsUnion(e)
    ensures ReturnFieldXPath(e, k) == Some(Join("|", LocatorTexts(UnionOperands(e), k)))
    ensures forall o :: o in UnionOperands(e) && SpineFree(o) && ReturnFieldXPath(o, k).Some? ==>
              StartsWith(ReturnFieldXPath(o, k).value, FieldRef(k))
    decreases e, 0
  {
    LocatorJoin(e.left, k);
    LocatorJoin(e.right, k);
    LocatorTextsAppend(UnionOperands(e.left), UnionOperands(e.right), k);
    JoinAppend("|", LocatorTexts(UnionOperands(e.left), k), LocatorTexts(UnionOperands(e.right), k));
    forall o | o in UnionOperands(e) && SpineFree(o) && ReturnFieldXPath(o, k).Some?
      ensures StartsWith(ReturnFieldXPath(o, k).value, FieldRef(k))
    {
      LocatorInField(o, k);
    }
  }

  lemma {:induction false} LocatorJoin(e: Expr, k: int)
    ensures ShowOpt(ReturnFieldXPath(e, k)) == Join("|", LocatorTexts(UnionOperands(e), k))
    decreases e, 1
  {
    if IsUnion(e) {
      LocatorOfUnion(e, k);
    } else {
      assert LocatorTexts([e], k) == [ShowOpt(ReturnFieldXPath(e, k))];
    }
  }

  /** `/name|@year` as the parser builds it. */
  function UnionFieldSample(): Expr
  {
    BinaryExpression(AbsolutePath("/", Some(Step("", "name", []))), "|", Step("@", "year", []))
  }

  /** `prep_xpath('/name|@year', return_field=True)`: each operand is bound to `$n`. */
  lemma UnionFieldExample()
    ensures FieldBlock(UnionFieldSample()) == "<field>{$n/name|$n/@year}</field>"
  {
    var e := UnionFieldSample();
    UnionOperandsBind();
    assert Bind(e, XqVar) == "$n/name" + "|" + "$n/@year";
  }

  /** Each operand of that union is bound to `$n` on its own. */
  lemma UnionOperandsBind()
    ensures Bind(UnionFieldSample().left, XqVar) == "$n/name"
    ensures Bind(UnionFieldSample().right, XqVar) == "$n/@year"
  {
    var e := UnionFieldSample();
    assert Serialize(e.left) == "/name";
    assert Serialize(e.right) == "@year";
  }

  /** The locator of that field when it is the second return field. */
  lemma UnionLocatorExample()
    ensures ReturnFieldXPath(UnionFieldSample(), 2) == Some("field[2]/name|field[2]/@year")
  {
    assert FieldRef(2) == "field[2]";
    var e := UnionFieldSample();
    assert ReturnFieldXPath(e.left, 2).value == "field[2]/name";
    assert ReturnFieldXPath(e.right, 2).value == "field[2]/@year";
    assert ReturnFieldXPath(e, 2).value == "field[2]/name|field[2]/@year";
  }

  /** `prep_xpath('normalize-space(name|title)')`: a union argument is bound on both sides. */
  lemma NestedCallExample()
    ensures Bind(FunctionCall("normalize-space",
                   [BinaryExpression(Step("", "name", []), "|", Step("", "title", []))]), XqVar)
            == "normalize-space($n/name|$n/title)"
  {
    var u := BinaryExpression(Step("", "name", []), "|", Step("", "title", []));
    UnionArgExample();
    assert BindArgs([u], XqVar) == [Other("$n/name|$n/title")];
    assert SerializeArgs([Other("$n/name|$n/title")]) == "$n/name|$n/title";
  }

  /** A union argument is bound on both sides of the `|`. */
  lemma UnionArgExample()
    ensures BindArg(BinaryExpression(Step("", "name", []), "|", Step("", "title", [])), XqVar)
            == Other("$n/name|$n/title")
  {
    var u := BinaryExpression(Step("", "name", []), "|", Step("", "title", []));
    assert Bind(Step("", "name", []), XqVar) == "$n/name";
    assert Bind(Step("", "title", []), XqVar) == "$n/title";
  }

  /** `prep_xpath('substring(title,1,1)')`: only the step argument is bound. */
  lemma CallArgumentExample()
    ensures Bind(FunctionCall("substring", [Step("", "title", []), Other("1"), Other("1")]), XqVar)
            == "substring($n/title,1,1)"
  {
    var args := [Step("", "title", []), Other("1"), Other("1")];
    var bound := [Other("$n/title"), Other("1"), Other("1")];
    SubstringArgsBind();
    SubstringArgsSerialize();
    assert Bind(FunctionCall("substring", args), XqVar) == Serialize(FunctionCall("substring", bound));
    assert Serialize(FunctionCall("substring", bound)) == "substring" + "(" + "$n/title,1,1" + ")";
    assert "substring" + "(" + "$n/title,1,1" + ")" == "substring($n/title,1,1)";
  }

  /** The step argument becomes `$n/title`; the numbers are left alone. */
  lemma SubstringArgsBind()
    ensures BindArgs([Step("", "title", []), Other("1"), Other("1")], XqVar) == [Other("$n/title"), Other("1"), Other("1")]
  {
    var t, one := Step("", "title", []), Other("1");
    assert BindArg(t, XqVar) == Other("$n/title") by {
      assert Bind(t, XqVar) == "$n/title";
    }
    assert [t, one, one][1..] == [one, one] && [one, one][1..] == [one] && [one][1..] == [];
    assert BindArgs([one], XqVar) == [one];
    assert BindArgs([one, one], XqVar) == [one, one];
  }

  /** The bound arguments, comma-separated. */
  lemma SubstringArgsSerialize()
    ensures SerializeArgs([Other("$n/title"), Other("1"), Other("1")]) == "$n/title,1,1"
  {
    var one := Other("1");
    assert [Other("$n/title"), one, one][1..] == [one, one] && [one, one][1..] == [one];
    assert SerializeArgs([one, one]) == "1,1";
  }
}
