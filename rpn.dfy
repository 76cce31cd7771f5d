/**
 * The postfix debug printer. Only `Unary`, `Grouping`, `Literal` and
 * `Binary` are implemented (the other visits throw), so every member takes
 * trees built from those four kinds. Its partner is a stack machine: the
 * postfix sequence of items the text spells rebuilds the tree, with the
 * groupings dropped.
 */
module RpnPrinting {
  import opened Wrappers
  import opened Tokens
  import opened Ast

  /** Built only from the node kinds the printer implements. */
  predicate Postfixable(e: Expr) {
    match e
    case Unary(_, right) => Postfixable(right)
    case Grouping(inner) => Postfixable(inner)
    case Literal(_) => true
    case Binary(left, _, right) => Postfixable(left) && Postfixable(right)
    case _ => false
  }

  /** The text `print` returns: operands before their operator, separated by single spaces. */
  function Rpn(numText: real -> string, e: Expr): string
    requires Postfixable(e)
  {
    match e
    case Unary(op, right) => Rpn(numText, right) + " " + op.lexeme
    case Grouping(inner) => Rpn(numText, inner)
    case Literal(v) => ValueToString(numText, v)
    case Binary(left, op, right) => Rpn(numText, left) + " " + Rpn(numText, right) + " " + op.lexeme
  }

  /** One word of postfix notation, telling unary from binary operators. */
  datatype Item = Operand(value: Value) | UnaryItem(operator: Token) | BinaryItem(operator: Token)

  /** The words of the postfix text, in order. */
  function Postfix(e: Expr): (items: seq<Item>)
    requires Postfixable(e)
    ensures |items| > 0
  {
    match e
    case Unary(op, right) => Postfix(right) + [UnaryItem(op)]
    case Grouping(inner) => Postfix(inner)
    case Literal(v) => [Operand(v)]
    case Binary(left, op, right) => Postfix(left) + Postfix(right) + [BinaryItem(op)]
  }

  function ItemText(numText: real -> string, item: Item): string {
    match item
    case Operand(v) => ValueToString(numText, v)
    case UnaryItem(op) => op.lexeme
    case BinaryItem(op) => op.lexeme
  }

  /** The items' texts joined by single spaces. */
  function Spell(numText: real -> string, items: seq<Item>): string
    requires |items| > 0
  {
    if |items| == 1 then ItemText(numText, items[0])
    else Spell(numText, items[..|items| - 1]) + " " + ItemText(numText, items[|items| - 1])
  }

  lemma {:induction false} SpellAppend(numText: real -> string, a: seq<Item>, b: seq<Item>)
    requires |a| > 0 && |b| > 0
    ensures Spell(numText, a + b) == Spell(numText, a) + " " + Spell(numText, b)
    decreases |b|
  {
    if |b| == 1 {
      assert (a + b)[..|a + b| - 1] == a;
    } else {
      var b' := b[..|b| - 1];
      assert (a + b)[..|a + b| - 1] == a + b';
      SpellAppend(numText, a, b');
    }
  }

  /** The printed text spells the postfix items. */
  lemma {:induction false} RpnSpellsPostfix(numText: real -> string, e: Expr)
    requires Postfixable(e)
    ensures Rpn(numText, e) == Spell(numText, Postfix(e))
  {
    match e
    case Unary(op, right) =>
      RpnSpellsPostfix(numText, right);
      SpellAppend(numText, Postfix(right), [UnaryItem(op)]);
    case Grouping(inner) =>
      RpnSpellsPostfix(numText, inner);
    case Literal(v) =>
    case Binary(left, op, right) =>
      RpnSpellsPostfix(numText, left);
      RpnSpellsPostfix(numText, right);
      SpellAppend(numText, Postfix(left), Postfix(right));
      SpellAppend(numText, Postfix(left) + Postfix(right), [BinaryItem(op)]);
  }

  /** `e` with every `Grouping` node replaced by its contents. */
  function Ungroup(e: Expr): Expr
    requires Postfixable(e)
  {
    match e
    case Unary(op, right) => Unary(op, Ungroup(right))
    case Grouping(inner) => Ungroup(inner)
    case Literal(v) => Literal(v)
    case Binary(left, op, right) => Binary(Ungroup(left), op, Ungroup(right))
  }

  /**
   * A stack machine reading postfix items: an operand is pushed, an
   * operator pops its operands (the right one on top) and pushes the node
   * it builds; `None` when an operator finds too few operands.
   */
  function Run(items: seq<Item>, stack: seq<Expr>): Option<seq<Expr>>
    decreases |items|
  {
    if items == [] then Some(stack)
    else
      match items[0]
      case Operand(v) => Run(items[1..], stack + [Literal(v)])
      case UnaryItem(op) =>
        if |stack| < 1 then None
        else Run(items[1..], stack[..|stack| - 1] + [Unary(op, stack[|stack| - 1])])
      case BinaryItem(op) =>
        if |stack| < 2 then None
        else Run(items[1..], stack[..|stack| - 2] + [Binary(stack[|stack| - 2], op, stack[|stack| - 1])])
  }

  /** Reading the items of `e` pushes exactly the ungrouped `e`, whatever follows and whatever is below. */
  lemma {:induction false} RunPostfix(e: Expr, rest: seq<Item>, stack: seq<Expr>)
    requires Postfixable(e)
    ensures Run(Postfix(e) + rest, stack) == Run(rest, stack + [Ungroup(e)])
  {
    match e
    case Unary(op, right) =>
      assert Postfix(e) + rest == Postfix(right) + ([UnaryItem(op)] + rest);
      RunPostfix(right, [UnaryItem(op)] + rest, stack);
      var s := stack + [Ungroup(right)];
      assert ([UnaryItem(op)] + rest)[1..] == rest;
      assert s[..|s| - 1] == stack && s[|s| - 1] == Ungroup(right);
    case Grouping(inner) =>
      RunPostfix(inner, rest, stack);
    case Literal(v) =>
      assert ([Operand(v)] + rest)[1..] == rest;
    case Binary(left, op, right) =>
      assert Postfix(e) + rest == Postfix(left) + (Postfix(right) + ([BinaryItem(op)] + rest));
      RunPostfix(left, Postfix(right) + ([BinaryItem(op)] + rest), stack);
      RunPostfix(right, [BinaryItem(op)] + rest, stack + [Ungroup(left)]);
      var s := stack + [Ungroup(left)] + [Ungroup(right)];
      assert ([BinaryItem(op)] + rest)[1..] == rest;
      assert s[..|s| - 2] == stack && s[|s| - 2] == Ungroup(left) && s[|s| - 1] == Ungroup(right);
  }

  /** The postfix items of `e` rebuild `e` up to its groupings. */
  lemma PostfixRebuilds(e: Expr)
    requires Postfixable(e)
    ensures Run(Postfix(e), []) == Some([Ungroup(e)])
  {
    RunPostfix(e, [], []);
    assert Postfix(e) + [] == Postfix(e);
    assert [] + [Ungroup(e)] == [Ungroup(e)];
  }

  /** Two trees with the same postfix items differ at most in their groupings. */
  lemma PostfixDeterminesTree(a: Expr, b: Expr)
    requires Postfixable(a) && Postfixable(b) && Postfix(a) == Postfix(b)
    ensures Ungroup(a) == Ungroup(b)
  {
    PostfixRebuilds(a);
    PostfixRebuilds(b);
  }

  /** Groupings leave the printed text unchanged: a tree prints as its ungrouped form does. */
  lemma {:induction false} RpnIgnoresGrouping(numText: real -> string, e: Expr)
    requires Postfixable(e)
    ensures Postfixable(Ungroup(e)) && Rpn(numText, Ungroup(e)) == Rpn(numText, e)
  {
    match e
    case Unary(_, right) => RpnIgnoresGrouping(numText, right);
    case Grouping(inner) => RpnIgnoresGrouping(numText, inner);
    case Literal(_) =>
    case Binary(left, _, right) =>
      RpnIgnoresGrouping(numText, left);
      RpnIgnoresGrouping(numText, right);
  }
}
