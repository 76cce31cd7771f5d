/**
 * The two closed node families of the syntax tree. Visitor dispatch in the
 * source becomes `match` on these datatypes in every consumer; nodes are
 * immutable finite trees, so structural recursion over them terminates.
 */
module Ast {
  import opened Wrappers
  import opened Tokens

  datatype Expr =
    | Unary(operator: Token, right: Expr)
    | Grouping(expr: Expr)
    | Literal(literal: Value)
    | Binary(left: Expr, operator: Token, right: Expr)
    | Ternary(first: Expr, second: Expr, third: Expr)
    | Variable(name: Token)
    | Assign(name: Token, value: Expr)

  /** A block's entries are optional: `None` is a hole left by a declaration that failed to parse. */
  datatype Stmt =
    | Expression(expression: Expr)
    | Print(expression: Expr)
    | VarDecl(name: Token, initializer: Option<Expr>)
    | Block(statements: seq<Option<Stmt>>)

  /** No hole anywhere in a statement list, including the lists of nested blocks. */
  predicate NoHoles(ss: seq<Option<Stmt>>)
    decreases Block(ss), 0
  {
    forall i :: 0 <= i < |ss| ==> ss[i].Some? && StmtNoHoles(ss[i].value)
  }

  predicate StmtNoHoles(s: Stmt)
    decreases s, 1
  {
    match s
    case Block(ss) => NoHoles(ss)
    case _ => true
  }

  /** A list with an entry appended is hole-free exactly when the list and the entry are. */
  lemma NoHolesAppend(ss: seq<Option<Stmt>>, s: Option<Stmt>)
    ensures NoHoles(ss + [s]) <==> NoHoles(ss) && s.Some? && StmtNoHoles(s.value)
  {
    assert (ss + [s])[|ss|] == s;
    assert forall i :: 0 <= i < |ss| ==> (ss + [s])[i] == ss[i];
  }

  /** The expression contains no `Assign` node. */
  predicate AssignFree(e: Expr) {
    match e
    case Unary(_, r) => AssignFree(r)
    case Grouping(inner) => AssignFree(inner)
    case Literal(_) => true
    case Binary(l, _, r) => AssignFree(l) && AssignFree(r)
    case Ternary(a, b, c) => AssignFree(a) && AssignFree(b) && AssignFree(c)
    case Variable(_) => true
    case Assign(_, _) => false
  }
}
