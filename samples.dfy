/**
 * The sample expression `(1 + 2) * (4 - 2)` that the sandbox's test driver
 * prints with both debug printers. The driver's literals are integers,
 * whose text carries no fraction; `numText` is taken to print them so.
 */
module Samples {
  import opened Tokens
  import opened Ast
  import AstPrinting
  import RpnPrinting

  function SampleExpr(): Expr {
    Binary(
      Grouping(Binary(Literal(Num(1.0)), Token(Plus, "+", NilValue, 1), Literal(Num(2.0)))),
      Token(Star, "*", NilValue, 1),
      Grouping(Binary(Literal(Num(4.0)), Token(Minus, "-", NilValue, 1), Literal(Num(2.0)))))
  }

  /** The postfix printer prints the sample as `1 2 + 4 2 - *`. */
  lemma SamplePostfix(numText: real -> string)
    requires numText(1.0) == "1" && numText(2.0) == "2" && numText(4.0) == "4"
    ensures RpnPrinting.Postfixable(SampleExpr())
    ensures RpnPrinting.Rpn(numText, SampleExpr()) == "1 2 + 4 2 - *"
  {
  }

  /** The parenthesized printer prints the sample as `(* (group (+ 1 2)) (group (- 4 2)))`. */
  lemma SampleParenthesized(numText: real -> string)
    requires numText(1.0) == "1" && numText(2.0) == "2" && numText(4.0) == "4"
    ensures AssignFree(SampleExpr())
    ensures AstPrinting.Show(numText, SampleExpr()) == "(* (group (+ 1 2)) (group (- 4 2)))"
  {
    var e := SampleExpr();
    GroupShown(numText, e.left, "+", "1", "2");
    GroupShown(numText, e.right, "-", "4", "2");
    OperandTexts();
    AstPrinting.WrapSpelled("*", "(group (+ 1 2))", "(group (- 4 2))", "");
    assert AstPrinting.Show(numText, e) == AstPrinting.Wrap("*", ["(group (+ 1 2))", "(group (- 4 2))"]);
    ProductText();
  }

  /**
   * The two ground string equalities of the sample, kept apart because
   * proving them beside the definitions of the printer is costly.
   */
  lemma OperandTexts()
    ensures "(group (" + "+" + " " + "1" + " " + "2" + "))" == "(group (+ 1 2))"
    ensures "(group (" + "-" + " " + "4" + " " + "2" + "))" == "(group (- 4 2))"
  {
  }

  lemma ProductText()
    ensures "(" + "*" + " " + "(group (+ 1 2))" + " " + "(group (- 4 2))" + ")" == "(* (group (+ 1 2)) (group (- 4 2)))"
  {
  }

  /** A grouped operation on two numbers prints as `(group (op a b))`. */
  lemma GroupShown(numText: real -> string, g: Expr, op: string, a: string, b: string)
    requires g.Grouping? && g.expr.Binary? && g.expr.operator.lexeme == op && |op| == 1
    requires g.expr.left.Literal? && g.expr.left.literal.Num? && numText(g.expr.left.literal.n) == a && |a| == 1
    requires g.expr.right.Literal? && g.expr.right.literal.Num? && numText(g.expr.right.literal.n) == b && |b| == 1
    ensures AstPrinting.Show(numText, g) == "(group (" + op + " " + a + " " + b + "))"
  {
    AstPrinting.WrapSpelled(op, a, b, "");
    assert AstPrinting.Show(numText, g.expr.left) == a && AstPrinting.Show(numText, g.expr.right) == b;
    var inner := "(" + op + " " + a + " " + b + ")";
    assert AstPrinting.Show(numText, g.expr) == inner;
    AstPrinting.WrapSpelled("group", inner, "", "");
    assert "(" + "group" + " " + inner + ")" == "(group (" + op + " " + a + " " + b + "))";
  }
}
