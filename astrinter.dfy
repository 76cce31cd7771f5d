/**
 * The parenthesized debug printer. `Show` is the text `print` returns;
 * the methods build the same text the way both `parenthesize` overloads
 * do, appending to a string builder one child at a time. `Assign` is not
 * implemented by the printer (it throws), so every member takes
 * assignment-free trees.
 */
module AstPrinting {
  import opened Tokens
  import opened Ast

  /** The printed form of `e`. */
  function Show(numText: real -> string, e: Expr): string
    requires AssignFree(e)
  {
    match e
    case Unary(op, right) => Wrap(op.lexeme, [Show(numText, right)])
    case Grouping(inner) => Wrap("group", [Show(numText, inner)])
    case Literal(v) => if v == NilValue then "nil" else ValueToString(numText, v)
    case Binary(left, op, right) => Wrap(op.lexeme, [Show(numText, left), Show(numText, right)])
    case Ternary(a, b, c) => Wrap("ternary", [Show(numText, a), Show(numText, b), Show(numText, c)])
    case Variable(name) => Spaced(["variable", name.lexeme]) + ")"
  }

  /** `parenthesize(name, exprs)` on the children's texts. */
  function Wrap(name: string, texts: seq<string>): string {
    "(" + name + Spaced(texts) + ")"
  }

  /** Each text preceded by one space. */
  function Spaced(texts: seq<string>): string {
    if texts == [] then "" else Spaced(texts[..|texts| - 1]) + " " + texts[|texts| - 1]
  }

  /** The printed forms of a list of children. */
  function ShowAll(numText: real -> string, exprs: seq<Expr>): (texts: seq<string>)
    requires forall x :: x in exprs ==> AssignFree(x)
    ensures |texts| == |exprs|
  {
    if exprs == [] then [] else ShowAll(numText, exprs[..|exprs| - 1]) + [Show(numText, exprs[|exprs| - 1])]
  }

  /** `print`: dispatches on the node kind. */
  method Print(numText: real -> string, e: Expr) returns (text: string)
    requires AssignFree(e)
    ensures text == Show(numText, e)
    decreases e, 1
  {
    match e
    case Unary(op, right) =>
      text := Parenthesize(numText, op.lexeme, [right], e);
      assert [right][..0] == [];
    case Grouping(inner) =>
      text := Parenthesize(numText, "group", [inner], e);
      assert [inner][..0] == [];
    case Literal(v) =>
      text := if v == NilValue then "nil" else ValueToString(numText, v);
    case Binary(left, op, right) =>
      text := Parenthesize(numText, op.lexeme, [left, right], e);
      assert [left, right][..1] == [left] && [left][..0] == [];
      assert ShowAll(numText, [left]) == [Show(numText, left)];
      assert ShowAll(numText, [left, right]) == [Show(numText, left), Show(numText, right)];
    case Ternary(a, b, c) =>
      text := Parenthesize(numText, "ternary", [a, b, c], e);
      assert [a, b, c][..2] == [a, b] && [a, b][..1] == [a] && [a][..0] == [];
      assert ShowAll(numText, [a]) == [Show(numText, a)];
      assert ShowAll(numText, [a, b]) == [Show(numText, a), Show(numText, b)];
      assert ShowAll(numText, [a, b, c]) == [Show(numText, a), Show(numText, b), Show(numText, c)];
    case Variable(name) =>
      text := ParenthesizeTexts(["variable", name.lexeme]);
      assert ["variable", name.lexeme][..1] == ["variable"] && ["variable"][..0] == [];
  }

  /**
   * `parenthesize(name, vararg exprs)`: an opening parenthesis and the name,
   * each child's text after one space, then the closing parenthesis.
   * `parent` is the node whose children `exprs` are.
   */
  method Parenthesize(numText: real -> string, name: string, exprs: seq<Expr>, ghost parent: Expr) returns (text: string)
    requires forall x :: x in exprs ==> x < parent && AssignFree(x)
    ensures text == Wrap(name, ShowAll(numText, exprs))
    decreases parent, 0
  {
    var builder := "(" + name;
    for i := 0 to |exprs|
      invariant builder == "(" + name + Spaced(ShowAll(numText, exprs[..i]))
    {
      assert exprs[i] in exprs;
      var child := Print(numText, exprs[i]);
      assert exprs[..i + 1][..i] == exprs[..i];
      builder := builder + " " + child;
    }
    assert exprs[..|exprs|] == exprs;
    text := builder + ")";
  }

  /** `parenthesize(vararg strings)`: each string after one space, then a closing parenthesis and no opening one. */
  method ParenthesizeTexts(texts: seq<string>) returns (text: string)
    ensures text == Spaced(texts) + ")"
  {
    var builder := "";
    for i := 0 to |texts|
      invariant builder == Spaced(texts[..i])
    {
      assert texts[..i + 1][..i] == texts[..i];
      builder := builder + " " + texts[i];
    }
    assert texts[..|texts|] == texts;
    text := builder + ")";
  }

  /** `parenthesize` with one, two or three children, spelled out. */
  lemma WrapSpelled(name: string, a: string, b: string, c: string)
    ensures Wrap(name, [a]) == "(" + name + " " + a + ")"
    ensures Wrap(name, [a, b]) == "(" + name + " " + a + " " + b + ")"
    ensures Wrap(name, [a, b, c]) == "(" + name + " " + a + " " + b + " " + c + ")"
  {
    SpacedOne(a);
    assert [a, b][..1] == [a];
    assert [a, b, c][..2] == [a, b];
    assert Spaced([a, b]) == " " + a + " " + b;
    assert Spaced([a, b, c]) == " " + a + " " + b + " " + c;
  }

  /** Unary prints `(op right)` and Binary prints `(op left right)`. */
  lemma ShowOperatorShapes(numText: real -> string, e: Expr)
    requires AssignFree(e) && (e.Unary? || e.Binary?)
    ensures e.Unary? ==> Show(numText, e) == "(" + e.operator.lexeme + " " + Show(numText, e.right) + ")"
    ensures e.Binary? ==>
              Show(numText, e) == "(" + e.operator.lexeme + " " + Show(numText, e.left) + " " + Show(numText, e.right) + ")"
  {
    if e.Unary? {
      WrapSpelled(e.operator.lexeme, Show(numText, e.right), "", "");
    } else {
      WrapSpelled(e.operator.lexeme, Show(numText, e.left), Show(numText, e.right), "");
    }
  }

  /** Grouping prints `(group e)` and Ternary prints `(ternary c t e)`. */
  lemma ShowLabelShapes(numText: real -> string, e: Expr)
    requires AssignFree(e) && (e.Grouping? || e.Ternary?)
    ensures e.Grouping? ==> Show(numText, e) == "(" + "group" + " " + Show(numText, e.expr) + ")"
    ensures e.Ternary? ==>
              Show(numText, e) ==
              "(" + "ternary" + " " + Show(numText, e.first) + " " + Show(numText, e.second) + " " + Show(numText, e.third) + ")"
  {
    if e.Grouping? {
      WrapSpelled("group", Show(numText, e.expr), "", "");
    } else {
      WrapSpelled("ternary", Show(numText, e.first), Show(numText, e.second), Show(numText, e.third));
    }
  }

  /** A variable prints ` variable name)`: a closing parenthesis and no opening one. */
  lemma ShowVariableShape(numText: real -> string, name: Token)
    ensures Show(numText, Variable(name)) == " " + "variable" + " " + name.lexeme + ")"
  {
    SpacedOne("variable");
    assert ["variable", name.lexeme][..1] == ["variable"];
  }

  lemma SpacedOne(text: string)
    ensures Spaced([text]) == " " + text
  {
    assert [text][..0] == [];
    assert Spaced([]) + " " + text == " " + text;
  }

  // Parenthesis balance of the printed text.

  /** Opening minus closing parentheses in `s`. */
  function Net(s: string): int {
    if s == [] then 0
    else Net(s[..|s| - 1]) + (if s[|s| - 1] == '(' then 1 else if s[|s| - 1] == ')' then -1 else 0)
  }

  /** Every parenthesis in `s` is matched: no prefix closes more than it opens, and the whole opens as many as it closes. */
  predicate Balanced(s: string) {
    Net(s) == 0 && forall k :: 0 <= k <= |s| ==> Net(s[..k]) >= 0
  }

  predicate ParenFree(s: string) {
    forall k :: 0 <= k < |s| ==> s[k] != '(' && s[k] != ')'
  }

  /** No operator lexeme, variable name or literal text of `e` contains a parenthesis. */
  predicate PlainAtoms(numText: real -> string, e: Expr) {
    match e
    case Unary(op, right) => ParenFree(op.lexeme) && PlainAtoms(numText, right)
    case Grouping(inner) => PlainAtoms(numText, inner)
    case Literal(v) => v == NilValue || ParenFree(ValueToString(numText, v))
    case Binary(left, op, right) => ParenFree(op.lexeme) && PlainAtoms(numText, left) && PlainAtoms(numText, right)
    case Ternary(a, b, c) => PlainAtoms(numText, a) && PlainAtoms(numText, b) && PlainAtoms(numText, c)
    case Variable(name) => ParenFree(name.lexeme)
    case Assign(name, value) => ParenFree(name.lexeme) && PlainAtoms(numText, value)
  }

  /** The number of `Variable` nodes in `e`. */
  function Variables(e: Expr): nat {
    match e
    case Unary(_, right) => Variables(right)
    case Grouping(inner) => Variables(inner)
    case Literal(_) => 0
    case Binary(left, _, right) => Variables(left) + Variables(right)
    case Ternary(a, b, c) => Variables(a) + Variables(b) + Variables(c)
    case Variable(_) => 1
    case Assign(_, value) => Variables(value)
  }

  lemma {:induction false} NetAppend(a: string, b: string)
    ensures Net(a + b) == Net(a) + Net(b)
    decreases |b|
  {
    if b == [] {
      assert a + b == a;
    } else {
      assert (a + b)[..|a + b| - 1] == a + b[..|b| - 1];
      NetAppend(a, b[..|b| - 1]);
    }
  }

  lemma {:induction false} ParenFreeNet(s: string)
    requires ParenFree(s)
    ensures Net(s) == 0
    decreases |s|
  {
    if s != [] {
      ParenFreeNet(s[..|s| - 1]);
    }
  }

  lemma ParenFreeBalanced(s: string)
    requires ParenFree(s)
    ensures Balanced(s)
  {
    forall k | 0 <= k <= |s| ensures Net(s[..k]) == 0 {
      ParenFreeNet(s[..k]);
    }
    assert s[..|s|] == s;
  }

  lemma BalancedAppend(a: string, b: string)
    requires Balanced(a) && Balanced(b)
    ensures Balanced(a + b)
  {
    NetAppend(a, b);
    forall k | 0 <= k <= |a + b| ensures Net((a + b)[..k]) >= 0 {
      if k <= |a| {
        assert (a + b)[..k] == a[..k];
      } else {
        assert (a + b)[..k] == a + b[..k - |a|];
        NetAppend(a, b[..k - |a|]);
      }
    }
  }

  /** Enclosing a balanced text in a pair of parentheses keeps it balanced. */
  lemma NestedBalanced(s: string)
    requires Balanced(s)
    ensures Balanced("(" + s + ")")
  {
    var t := "(" + s + ")";
    NetAppend("(" + s, ")");
    NetAppend("(", s);
    assert Net("(") == 1 by { assert "("[..0] == []; }
    assert Net(")") == -1 by { assert ")"[..0] == []; }
    forall k | 0 <= k <= |t| ensures Net(t[..k]) >= 0 {
      if 1 <= k <= |s| + 1 {
        assert t[..k] == "(" + s[..k - 1];
        NetAppend("(", s[..k - 1]);
      } else if k == |t| {
        assert t[..k] == t;
      }
    }
  }

  /** The sum of the nets of `texts`. */
  function NetSum(texts: seq<string>): int {
    if texts == [] then 0 else NetSum(texts[..|texts| - 1]) + Net(texts[|texts| - 1])
  }

  lemma {:induction false} SpacedNet(texts: seq<string>)
    ensures Net(Spaced(texts)) == NetSum(texts)
    decreases |texts|
  {
    if texts != [] {
      var init, last := texts[..|texts| - 1], texts[|texts| - 1];
      SpacedNet(init);
      NetAppend(Spaced(init) + " ", last);
      NetAppend(Spaced(init), " ");
      assert Net(" ") == 0 by { assert " "[..0] == []; }
    }
  }

  lemma {:induction false} SpacedBalanced(texts: seq<string>)
    requires forall k :: 0 <= k < |texts| ==> Balanced(texts[k])
    ensures Balanced(Spaced(texts))
    decreases |texts|
  {
    if texts == [] {
      assert Spaced(texts) == [];
      assert Spaced(texts)[..0] == [];
    } else {
      var init, last := texts[..|texts| - 1], texts[|texts| - 1];
      SpacedBalanced(init);
      ParenFreeBalanced(" ");
      BalancedAppend(Spaced(init), " ");
      BalancedAppend(Spaced(init) + " ", last);
    }
  }

  /** The net of `parenthesize(name, …)` is that of its children. */
  lemma WrapNet(name: string, texts: seq<string>)
    requires ParenFree(name)
    ensures Net(Wrap(name, texts)) == NetSum(texts)
  {
    ParenFreeNet(name);
    SpacedNet(texts);
    NetAppend("(" + name + Spaced(texts), ")");
    NetAppend("(" + name, Spaced(texts));
    NetAppend("(", name);
    assert Net("(") == 1 by { assert "("[..0] == []; }
    assert Net(")") == -1 by { assert ")"[..0] == []; }
  }

  /** `parenthesize(name, …)` with a plain name around balanced children is balanced. */
  lemma WrapBalanced(name: string, texts: seq<string>)
    requires ParenFree(name)
    requires forall k :: 0 <= k < |texts| ==> Balanced(texts[k])
    ensures Balanced(Wrap(name, texts))
  {
    ParenFreeBalanced(name);
    SpacedBalanced(texts);
    BalancedAppend(name, Spaced(texts));
    NestedBalanced(name + Spaced(texts));
    assert "(" + (name + Spaced(texts)) + ")" == Wrap(name, texts);
  }

  lemma NetSumSmall(a: string, b: string, c: string)
    ensures NetSum([a]) == Net(a)
    ensures NetSum([a, b]) == Net(a) + Net(b)
    ensures NetSum([a, b, c]) == Net(a) + Net(b) + Net(c)
  {
    assert [a, b, c][..2] == [a, b] && [a, b][..1] == [a] && [a][..0] == [];
  }

  /** A `Variable` node prints one unmatched closing parenthesis. */
  lemma VariableNet(numText: real -> string, name: Token)
    requires ParenFree(name.lexeme)
    ensures Net(Show(numText, Variable(name))) == -1
  {
    var texts := ["variable", name.lexeme];
    ParenFreeNet(name.lexeme);
    ParenFreeNet("variable");
    SpacedNet(texts);
    NetSumSmall("variable", name.lexeme, "");
    NetAppend(Spaced(texts), ")");
    assert Net(")") == -1 by { assert ")"[..0] == []; }
  }

  /** The net of an operator or labelled node is the sum of its children's. */
  lemma CompoundNet(numText: real -> string, e: Expr)
    requires AssignFree(e) && (e.Unary? || e.Grouping? || e.Binary? || e.Ternary?)
    requires (e.Unary? || e.Binary?) ==> ParenFree(e.operator.lexeme)
    ensures e.Unary? ==> Net(Show(numText, e)) == Net(Show(numText, e.right))
    ensures e.Grouping? ==> Net(Show(numText, e)) == Net(Show(numText, e.expr))
    ensures e.Binary? ==> Net(Show(numText, e)) == Net(Show(numText, e.left)) + Net(Show(numText, e.right))
    ensures e.Ternary? ==>
              Net(Show(numText, e)) == Net(Show(numText, e.first)) + Net(Show(numText, e.second)) + Net(Show(numText, e.third))
  {
    match e
    case Unary(op, right) =>
      WrapNet(op.lexeme, [Show(numText, right)]);
      NetSumSmall(Show(numText, right), "", "");
    case Grouping(inner) =>
      WrapNet("group", [Show(numText, inner)]);
      NetSumSmall(Show(numText, inner), "", "");
    case Binary(left, op, right) =>
      WrapNet(op.lexeme, [Show(numText, left), Show(numText, right)]);
      NetSumSmall(Show(numText, left), Show(numText, right), "");
    case Ternary(a, b, c) =>
      WrapNet("ternary", [Show(numText, a), Show(numText, b), Show(numText, c)]);
      NetSumSmall(Show(numText, a), Show(numText, b), Show(numText, c));
  }

  /** A literal with a plain text prints no parenthesis. */
  lemma LiteralNet(numText: real -> string, v: Value)
    requires PlainAtoms(numText, Literal(v))
    ensures Balanced(Show(numText, Literal(v))) && Net(Show(numText, Literal(v))) == 0
  {
    if v != NilValue {
      ParenFreeBalanced(ValueToString(numText, v));
    } else {
      ParenFreeBalanced("nil");
    }
  }

  /**
   * With plain atoms, each `Variable` node leaves exactly one closing
   * parenthesis unmatched (its overload prints no opening one), and every
   * other node prints a matched pair.
   */
  lemma {:induction false} ShowNet(numText: real -> string, e: Expr)
    requires AssignFree(e) && PlainAtoms(numText, e)
    ensures Net(Show(numText, e)) == -(Variables(e) as int)
  {
    match e
    case Unary(_, right) =>
      ShowNet(numText, right);
      CompoundNet(numText, e);
    case Grouping(inner) =>
      ShowNet(numText, inner);
      CompoundNet(numText, e);
    case Literal(v) =>
      LiteralNet(numText, v);
    case Binary(left, _, right) =>
      ShowNet(numText, left);
      ShowNet(numText, right);
      CompoundNet(numText, e);
    case Ternary(a, b, c) =>
      ShowNet(numText, a);
      ShowNet(numText, b);
      ShowNet(numText, c);
      CompoundNet(numText, e);
    case Variable(name) =>
      VariableNet(numText, name);
  }

  /** An operator or labelled node with plain atoms around balanced children prints balanced. */
  lemma CompoundBalanced(numText: real -> string, e: Expr)
    requires AssignFree(e) && (e.Unary? || e.Grouping? || e.Binary? || e.Ternary?)
    requires (e.Unary? || e.Binary?) ==> ParenFree(e.operator.lexeme)
    requires e.Unary? ==> Balanced(Show(numText, e.right))
    requires e.Grouping? ==> Balanced(Show(numText, e.expr))
    requires e.Binary? ==> Balanced(Show(numText, e.left)) && Balanced(Show(numText, e.right))
    requires e.Ternary? ==>
               Balanced(Show(numText, e.first)) && Balanced(Show(numText, e.second)) && Balanced(Show(numText, e.third))
    ensures Balanced(Show(numText, e))
  {
    match e
    case Unary(op, right) =>
      WrapBalanced(op.lexeme, [Show(numText, right)]);
    case Grouping(inner) =>
      WrapBalanced("group", [Show(numText, inner)]);
    case Binary(left, op, right) =>
      WrapBalanced(op.lexeme, [Show(numText, left), Show(numText, right)]);
    case Ternary(a, b, c) =>
      WrapBalanced("ternary", [Show(numText, a), Show(numText, b), Show(numText, c)]);
  }

  /** With plain atoms and no `Variable` node, the printed text is balanced. */
  lemma {:induction false} ShowBalanced(numText: real -> string, e: Expr)
    requires AssignFree(e) && PlainAtoms(numText, e) && Variables(e) == 0
    ensures Balanced(Show(numText, e))
  {
    match e
    case Unary(_, right) =>
      ShowBalanced(numText, right);
      CompoundBalanced(numText, e);
    case Grouping(inner) =>
      ShowBalanced(numText, inner);
      CompoundBalanced(numText, e);
    case Literal(v) =>
      LiteralNet(numText, v);
    case Binary(left, _, right) =>
      ShowBalanced(numText, left);
      ShowBalanced(numText, right);
      CompoundBalanced(numText, e);
    case Ternary(a, b, c) =>
      ShowBalanced(numText, a);
      ShowBalanced(numText, b);
      ShowBalanced(numText, c);
      CompoundBalanced(numText, e);
  }
}
