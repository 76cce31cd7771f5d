/**
 * The parser as the source writes it: an object over a fixed token list
 * with a `current` index, whose recursive-descent methods advance it and
 * report errors. A thrown `ParseError` is modelled as a `None` result that
 * every caller passes on until `declaration()` handles it. Every method is
 * proved to leave the parser exactly where the matching `Grammar` function
 * says, with the same diagnostics and the same result.
 */
module Parsing {
  import opened Wrappers
  import opened Tokens
  import opened ErrorHandling
  import Ast
  import Grammar

  class Parser {
    const tokens: seq<Token>
    var current: nat
    /** The errors reported through `ErrorHandling.error`, in order. */
    var diags: seq<Diagnostic>

    ghost predicate Valid()
      reads this
    {
      Grammar.Valid(tokens, State())
    }

    /** The parser's state as the grammar functions take it. */
    function State(): Grammar.Cursor
      reads this
    {
      Grammar.Cursor(current, diags)
    }

    /** The parser is where `r` leaves it, and `result` is what a method returns for `r`. */
    ghost predicate Agrees<T>(r: Grammar.Parsed<T>, result: Option<T>)
      reads this
    {
      State() == r.after && result == Grammar.Outcome(r)
    }

    /** A parser over the scanner's output, which always ends with the end-of-file token. */
    constructor (tokens: seq<Token>)
      requires Grammar.Wf(tokens)
      ensures Valid() && this.tokens == tokens && current == 0 && diags == []
    {
      this.tokens := tokens;
      current, diags := 0, [];
    }

    /** `parse()`: declarations up to the end of the tokens; on a fresh parser, `Grammar.Parse`. */
    method Parse() returns (statements: seq<Option<Ast.Stmt>>)
      requires Valid()
      modifies this
      ensures Valid() && Agrees(Grammar.ParseLoop(tokens, old(State()), []), Some(statements))
      ensures old(current) == 0 && old(diags) == [] ==> Agrees(Grammar.Parse(tokens), Some(statements))
    {
      statements := [];
      ghost var goal := Grammar.ParseLoop(tokens, State(), []);
      while !IsAtEnd()
        invariant Valid()
        invariant Grammar.ParseLoop(tokens, State(), statements) == goal
        decreases |tokens| - current
      {
        var s := Declaration(State());
        statements := statements + [s];
      }
    }

    /** `declaration()`: a failed declaration is reported, skipped by `synchronize()`, and becomes a hole. */
    method Declaration(ghost at: Grammar.Cursor) returns (s: Option<Ast.Stmt>)
      requires Valid() && !IsAtEnd() && State() == at
      modifies this
      ensures Valid() && Agrees(Grammar.Declaration(tokens, at), Some(s))
      decreases |tokens| - current, 3
    {
      s := Attempt(State());
      if s.None? {
        Synchronize();
      }
    }

    /** The `try` block of `declaration()`. */
    method Attempt(ghost at: Grammar.Cursor) returns (s: Option<Ast.Stmt>)
      requires Valid() && State() == at
      modifies this
      ensures Valid() && Agrees(Grammar.Attempt(tokens, at), s)
      decreases |tokens| - current, 2
    {
      var isVar := MatchOne(Var);
      if isVar {
        s := VarDeclaration(State());
      } else {
        s := Statement(State());
      }
    }

    method VarDeclaration(ghost at: Grammar.Cursor) returns (s: Option<Ast.Stmt>)
      requires Valid() && State() == at
      modifies this
      ensures Valid() && Agrees(Grammar.VarDeclaration(tokens, at), s)
      decreases |tokens| - current, 5
    {
      var name := Consume(Identifier, ExpectVariableName);
      if name.None? {
        return None;
      }
      var initializer: Option<Ast.Expr> := None;
      var hasInitializer := MatchOne(Equal);
      if hasInitializer {
        initializer := Expression(State());
        if initializer.None? {
          return None;
        }
      }
      var semicolon := Consume(Semicolon, ExpectSemicolonAfterVariable);
      if semicolon.None? {
        return None;
      }
      return Some(Ast.VarDecl(name.value, initializer));
    }

    method Statement(ghost at: Grammar.Cursor) returns (s: Option<Ast.Stmt>)
      requires Valid() && State() == at
      modifies this
      ensures Valid() && Agrees(Grammar.Statement(tokens, at), s)
      decreases |tokens| - current, 1
    {
      var isPrint := MatchOne(Tokens.Print);
      if isPrint {
        s := PrintStmt(State());
        return;
      }
      s := BlockOrExprStmt(State());
    }

    /** The second line of `statement()`. */
    method BlockOrExprStmt(ghost at: Grammar.Cursor) returns (s: Option<Ast.Stmt>)
      requires Valid() && State() == at
      modifies this
      ensures Valid() && Agrees(Grammar.BlockOrExprStmt(tokens, at), s)
      decreases |tokens| - current, 0
    {
      var isBlock := MatchOne(LeftBrace);
      if isBlock {
        s := BlockStmt(State());
      } else {
        s := ExprStmt(State());
      }
    }

    /** The `{` case of `statement()`, after the brace. */
    method BlockStmt(ghost at: Grammar.Cursor) returns (s: Option<Ast.Stmt>)
      requires Valid() && State() == at
      modifies this
      ensures Valid() && Agrees(Grammar.BlockStmt(tokens, at), s)
      decreases |tokens| - current, 6
    {
      var statements := Block(State());
      s := if statements.Some? then Some(Ast.Block(statements.value)) else None;
    }

    /** `block()`, after the `{`: declarations up to `}` or the end, then the required `}`. */
    method Block(ghost at: Grammar.Cursor) returns (statements: Option<seq<Option<Ast.Stmt>>>)
      requires Valid() && State() == at
      modifies this
      ensures Valid() && Agrees(Grammar.Block(tokens, at), statements)
      decreases |tokens| - current, 5
    {
      var list: seq<Option<Ast.Stmt>> := [];
      ghost var goal := Grammar.BlockLoop(tokens, State(), []);
      while !Check(RightBrace) && !IsAtEnd()
        invariant Valid()
        invariant Grammar.BlockLoop(tokens, State(), list) == goal
        decreases |tokens| - current
      {
        var s := Declaration(State());
        list := list + [s];
      }
      var closing := Consume(RightBrace, ExpectRightBrace);
      statements := if closing.Some? then Some(list) else None;
    }

    method PrintStmt(ghost at: Grammar.Cursor) returns (s: Option<Ast.Stmt>)
      requires Valid() && State() == at
      modifies this
      ensures Valid() && Agrees(Grammar.PrintStmt(tokens, at), s)
    {
      var value := Expression(State());
      if value.None? {
        return None;
      }
      var semicolon := Consume(Semicolon, ExpectSemicolonAfterValue);
      if semicolon.None? {
        return None;
      }
      return Some(Ast.Print(value.value));
    }

    method ExprStmt(ghost at: Grammar.Cursor) returns (s: Option<Ast.Stmt>)
      requires Valid() && State() == at
      modifies this
      ensures Valid() && Agrees(Grammar.ExprStmt(tokens, at), s)
    {
      var value := Expression(State());
      if value.None? {
        return None;
      }
      var semicolon := Consume(Semicolon, ExpectSemicolonAfterValue);
      if semicolon.None? {
        return None;
      }
      return Some(Ast.Expression(value.value));
    }

    method Expression(ghost at: Grammar.Cursor) returns (e: Option<Ast.Expr>)
      requires Valid() && State() == at
      modifies this
      ensures Valid() && Agrees(Grammar.Expression(tokens, at), e)
      decreases |tokens| - current, 29
    {
      e := Assignment(State());
    }

    /** `assignment()`: an invalid target is reported without throwing. */
    method Assignment(ghost at: Grammar.Cursor) returns (e: Option<Ast.Expr>)
      requires Valid() && State() == at
      modifies this
      ensures Valid() && Agrees(Grammar.Assignment(tokens, at), e)
      decreases |tokens| - current, 28
    {
      var target := BinaryLevel(Grammar.CommaLevel, State());
      if target.None? {
        return None;
      }
      e := AssignValue(target.value, State());
    }

    /** The `if (match(EQUAL))` part of `assignment()`, after its target. */
    method AssignValue(target: Ast.Expr, ghost at: Grammar.Cursor) returns (e: Option<Ast.Expr>)
      requires Valid() && State() == at
      modifies this
      ensures Valid() && Agrees(Grammar.AssignValue(tokens, target, at), e)
      decreases |tokens| - current, 27
    {
      var isAssignment := MatchOne(Equal);
      if !isAssignment {
        return Some(target);
      }
      var equals := Previous();
      var value := Assignment(State());
      if value.None? {
        return None;
      }
      e := AssignTo(target, equals, value.value, State());
    }

    /** The end of `assignment()`: the `Assign`, or the report of an invalid target. */
    method AssignTo(target: Ast.Expr, equals: Token, value: Ast.Expr, ghost at: Grammar.Cursor) returns (e: Option<Ast.Expr>)
      requires Valid() && State() == at
      modifies this`diags
      ensures Valid() && Agrees(Grammar.AssignTo(tokens, target, equals, value, at), e)
    {
      if target.Variable? {
        return Some(Ast.Assign(target.name, value));
      }
      Error(equals, InvalidAssignmentTarget);
      return Some(target);
    }

    /**
     * One of `comma()`, `logical()`, `equality()`, `comparison()`, `term()`
     * and `factor()`: an operand, then operators and operands folded to the left.
     */
    method BinaryLevel(level: Grammar.Level, ghost at: Grammar.Cursor) returns (e: Option<Ast.Expr>)
      requires Valid() && State() == at
      modifies this
      ensures Valid() && Agrees(Grammar.BinaryLevel(tokens, level, at), e)
      decreases |tokens| - current, 2 * Grammar.LevelRank(level) + 1
    {
      var first := Operand(level, State());
      if first.None? {
        return None;
      }
      e := BinaryTail(level, first.value, State());
    }

    /** The `while (match(...))` loop of a binary level, from the tree parsed so far. */
    method BinaryTail(level: Grammar.Level, first: Ast.Expr, ghost at: Grammar.Cursor) returns (e: Option<Ast.Expr>)
      requires Valid() && State() == at
      modifies this
      ensures Valid() && Agrees(Grammar.BinaryTail(tokens, level, first, at), e)
      decreases |tokens| - current, 2 * Grammar.LevelRank(level) + 1
    {
      ghost var goal := Grammar.BinaryTail(tokens, level, first, at);
      var expr := first;
      while true
        invariant Valid()
        invariant Grammar.BinaryTail(tokens, level, expr, State()) == goal
        decreases |tokens| - current
      {
        var next := BinaryStep(level, expr, State());
        if next.None? {
          return None;
        }
        if next.value.None? {
          break;
        }
        expr := next.value.value;
      }
      return Some(expr);
    }

    /** One turn of that loop: `match` an operator, then `previous()` and the right operand. */
    method BinaryStep(level: Grammar.Level, left: Ast.Expr, ghost at: Grammar.Cursor) returns (next: Option<Option<Ast.Expr>>)
      requires Valid() && State() == at
      modifies this
      ensures Valid() && Agrees(Grammar.BinaryStep(tokens, level, left, at), next)
      decreases |tokens| - current, 2 * Grammar.LevelRank(level)
    {
      var matched := Match(Grammar.Operators(level));
      if !matched {
        return Some(None);
      }
      var operator := Previous();
      var right := Operand(level, State());
      if right.None? {
        return None;
      }
      return Some(Some(Ast.Binary(left, operator, right.value)));
    }

    /** The operand parser of a level: `ternary()` for commas, `unary()` for factors. */
    method Operand(level: Grammar.Level, ghost at: Grammar.Cursor) returns (e: Option<Ast.Expr>)
      requires Valid() && State() == at
      modifies this
      ensures Valid() && Agrees(Grammar.Operand(tokens, level, at), e)
      decreases |tokens| - current, 2 * Grammar.LevelRank(level)
    {
      if level == Grammar.CommaLevel {
        e := Ternary(State());
      } else if level == Grammar.FactorLevel {
        e := Unary(State());
      } else {
        e := BinaryLevel(Grammar.Tighter(level), State());
      }
    }

    method Ternary(ghost at: Grammar.Cursor) returns (e: Option<Ast.Expr>)
      requires Valid() && State() == at
      modifies this
      ensures Valid() && Agrees(Grammar.Ternary(tokens, at), e)
      decreases |tokens| - current, 25
    {
      var first := BinaryLevel(Grammar.LogicalLevel, State());
      if first.None? {
        return None;
      }
      e := TernaryTail(first.value, State());
    }

    /** The `while (match(QUESTION_MARK))` loop of `ternary()`, from the tree parsed so far. */
    method TernaryTail(first: Ast.Expr, ghost at: Grammar.Cursor) returns (e: Option<Ast.Expr>)
      requires Valid() && State() == at
      modifies this
      ensures Valid() && Agrees(Grammar.TernaryTail(tokens, first, at), e)
      decreases |tokens| - current, 24
    {
      ghost var goal := Grammar.TernaryTail(tokens, first, at);
      var expr := first;
      while true
        invariant Valid()
        invariant Grammar.TernaryTail(tokens, expr, State()) == goal
        decreases |tokens| - current
      {
        var next := TernaryStep(expr, State());
        if next.None? {
          return None;
        }
        if next.value.None? {
          break;
        }
        expr := next.value.value;
      }
      return Some(expr);
    }

    /** One turn of that loop: `match` a `?`, then the two branches. */
    method TernaryStep(condition: Ast.Expr, ghost at: Grammar.Cursor) returns (next: Option<Option<Ast.Expr>>)
      requires Valid() && State() == at
      modifies this
      ensures Valid() && Agrees(Grammar.TernaryStep(tokens, condition, at), next)
      decreases |tokens| - current, 23
    {
      var matched := MatchOne(QuestionMark);
      if !matched {
        return Some(None);
      }
      var branches := TernaryBranches(condition, State());
      next := if branches.Some? then Some(branches) else None;
    }

    /** After a `?`: `expression()`, the required `:`, and `ternary()`. */
    method TernaryBranches(condition: Ast.Expr, ghost at: Grammar.Cursor) returns (e: Option<Ast.Expr>)
      requires Valid() && State() == at
      modifies this
      ensures Valid() && Agrees(Grammar.TernaryBranches(tokens, condition, at), e)
      decreases |tokens| - current, 30
    {
      var second := Expression(State());
      if second.None? {
        return None;
      }
      var colon := Consume(Colon, ExpectColon);
      if colon.None? {
        return None;
      }
      var third := Ternary(State());
      if third.None? {
        return None;
      }
      return Some(Ast.Ternary(condition, second.value, third.value));
    }

    method Unary(ghost at: Grammar.Cursor) returns (e: Option<Ast.Expr>)
      requires Valid() && State() == at
      modifies this
      ensures Valid() && Agrees(Grammar.Unary(tokens, at), e)
      decreases |tokens| - current, 13
    {
      var isUnary := Match({Bang, Minus});
      if !isUnary {
        e := Primary(State());
        return;
      }
      var operator := Previous();
      var right := Unary(State());
      e := if right.Some? then Some(Ast.Unary(operator, right.value)) else None;
    }

    method Primary(ghost at: Grammar.Cursor) returns (e: Option<Ast.Expr>)
      requires Valid() && State() == at
      modifies this
      ensures Valid() && Agrees(Grammar.Primary(tokens, at), e)
      decreases |tokens| - current, 12
    {
      var isVariable := MatchOne(Identifier);
      if isVariable {
        return Some(Ast.Variable(Previous()));
      }
      var literal := MatchLiteral();
      if literal.Some? {
        return Some(Ast.Literal(literal.value));
      }
      var isGroup := MatchOne(LeftParen);
      if isGroup {
        e := Group(State());
        return;
      }
      Error(Peek(), ExpectExpression);
      return None;
    }

    /** The literal cases of `primary()`, tried in the source's order. */
    method MatchLiteral() returns (v: Option<Value>)
      requires Valid()
      modifies this`current
      ensures Valid() && v == Grammar.LiteralAt(tokens, old(current))
      ensures current == if v.Some? then old(current) + 1 else old(current)
    {
      var matched := MatchOne(True);
      if matched {
        return Some(Bool(true));
      }
      matched := MatchOne(False);
      if matched {
        return Some(Bool(false));
      }
      v := MatchValue();
    }

    method MatchValue() returns (v: Option<Value>)
      requires Valid() && !Check(True) && !Check(False)
      modifies this`current
      ensures Valid() && v == Grammar.LiteralAt(tokens, old(current))
      ensures current == if v.Some? then old(current) + 1 else old(current)
    {
      var matched := MatchOne(Nil);
      if matched {
        return Some(NilValue);
      }
      matched := Match({String, Number});
      if matched {
        return Some(Previous().literal);
      }
      return None;
    }

    /** The `(` case of `primary()`, after the parenthesis. */
    method Group(ghost at: Grammar.Cursor) returns (e: Option<Ast.Expr>)
      requires Valid() && State() == at
      modifies this
      ensures Valid() && Agrees(Grammar.Group(tokens, at), e)
      decreases |tokens| - current, 30
    {
      var inner := Expression(State());
      if inner.None? {
        return None;
      }
      var paren := Consume(RightParen, ExpectRightParen);
      if paren.None? {
        return None;
      }
      return Some(Ast.Grouping(inner.value));
    }

    /** `advance()`: moves on unless at the end, and returns the token just passed. */
    method Advance() returns (t: Token)
      requires Valid() && (0 < current || !IsAtEnd())
      modifies this`current
      ensures Valid() && 0 < current
      ensures current == if old(IsAtEnd()) then old(current) else old(current) + 1
      ensures t == tokens[current - 1]
    {
      if !IsAtEnd() {
        current := current + 1;
      }
      return Previous();
    }

    function Previous(): Token
      requires 0 < current <= |tokens|
      reads this
    {
      tokens[current - 1]
    }

    predicate IsAtEnd()
      requires Valid()
      reads this
    {
      Grammar.IsAtEnd(tokens, current)
    }

    function Peek(): Token
      requires Valid()
      reads this
    {
      tokens[current]
    }

    predicate Check(kind: TokenType)
      requires Valid()
      reads this
    {
      Grammar.Check(tokens, current, kind)
    }

    /** `match` with a single kind: consumes the current token when it has that kind. */
    method MatchOne(kind: TokenType) returns (matched: bool)
      requires Valid()
      modifies this`current
      ensures Valid()
      ensures matched == Grammar.Check(tokens, old(current), kind)
      ensures current == if matched then old(current) + 1 else old(current)
    {
      if Check(kind) {
        var _ := Advance();
        return true;
      }
      return false;
    }

    /**
     * `match(types...)`: tries the kinds one at a time and consumes the
     * token on the first that checks. At most one kind can check, so the
     * order of the tries does not matter and the kinds are a set.
     */
    method Match(kinds: set<TokenType>) returns (matched: bool)
      requires Valid()
      modifies this`current
      ensures Valid()
      ensures matched == Grammar.CheckAny(tokens, old(current), kinds)
      ensures current == if matched then old(current) + 1 else old(current)
    {
      var untried := kinds;
      while untried != {}
        invariant untried <= kinds && current == old(current)
        invariant forall k :: k in kinds && k !in untried ==> !Check(k)
        decreases untried
      {
        var kind :| kind in untried;
        if Check(kind) {
          var _ := Advance();
          return true;
        }
        untried := untried - {kind};
      }
      return false;
    }

    /**
     * `synchronize()`: after the token the error was reported at, skip to
     * just after a `;` or to a token that starts a statement.
     */
    method Synchronize()
      requires Valid() && (0 < current || !IsAtEnd())
      modifies this`current
      ensures Valid() && current == Grammar.Synchronize(tokens, old(current))
    {
      ghost var goal := Grammar.Synchronize(tokens, current);
      var _ := Advance();
      while !IsAtEnd()
        invariant Valid() && 0 < current
        invariant Grammar.SyncLoop(tokens, current) == goal
        decreases |tokens| - current
      {
        if Previous().kind == Semicolon {
          return;
        }
        if Peek().kind in Grammar.SyncKinds {
          return;
        }
        var _ := Advance();
      }
    }

    /** `consume(type, message)`: the expected token, or a reported error at the current one. */
    method Consume(kind: TokenType, message: Message) returns (t: Option<Token>)
      requires Valid()
      modifies this
      ensures Valid() && Agrees(Grammar.Consume(tokens, old(State()), kind, message), t)
    {
      ghost var r := Grammar.Consume(tokens, State(), kind, message);
      if Check(kind) {
        var token := Advance();
        return Some(token);
      }
      Error(Peek(), message);
      return None;
    }

    /** `error(token, message)`: reports a static error at the token. */
    method Error(token: Token, message: Message)
      modifies this`diags
      ensures diags == old(diags) + [TokenError(token, message)]
    {
      diags := diags + [TokenError(token, message)];
    }
  }
}
