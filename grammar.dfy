/**
 * The parser's behaviour as pure functions of the token list: one function
 * per method of the recursive-descent parser, each taking the cursor (the
 * position of `current` and the diagnostics reported so far) and giving
 * the parsed node and the cursor after it, or `Err` where the source throws
 * a `ParseError`. The `Parsing.Parser` class is proved to compute exactly
 * these.
 */
module Grammar {
  import opened Wrappers
  import opened Tokens
  import opened ErrorHandling
  import Ast

  /** What the parser needs of its input: a non-empty list ending in the end-of-file token. */
  predicate Wf(tokens: seq<Token>) {
    |tokens| > 0 && tokens[|tokens| - 1].kind == Eof
  }

  /** The parser's mutable state: the position of `current` and the errors reported so far. */
  datatype Cursor = Cursor(pos: nat, diags: seq<Diagnostic>)

  /** A parsing method's outcome: its value and the state after it, or the state when it threw. */
  datatype Parsed<+T> = Ok(value: T, after: Cursor) | Err(after: Cursor)

  /** A position `current` may hold: on a token of the list. */
  predicate Valid(tokens: seq<Token>, c: Cursor) {
    Wf(tokens) && c.pos < |tokens|
  }

  predicate IsAtEnd(tokens: seq<Token>, pos: nat)
    requires pos < |tokens|
  {
    tokens[pos].kind == Eof
  }

  /** `check(type)`: never true at the end. */
  predicate Check(tokens: seq<Token>, pos: nat, kind: TokenType)
    requires pos < |tokens|
  {
    !IsAtEnd(tokens, pos) && tokens[pos].kind == kind
  }

  /** `match(types...)` succeeds exactly when `check` holds for one of the kinds. */
  predicate CheckAny(tokens: seq<Token>, pos: nat, kinds: set<TokenType>)
    requires pos < |tokens|
  {
    !IsAtEnd(tokens, pos) && tokens[pos].kind in kinds
  }

  /** What a parsing method returns: its value, or `None` when it throws a `ParseError`. */
  function Outcome<T>(r: Parsed<T>): (o: Option<T>)
    ensures o.Some? <==> r.Ok?
    ensures r.Ok? ==> o.value == r.value
  {
    if r.Ok? then Some(r.value) else None
  }

  /** The cursor one token on, as after a successful `match` or `consume`. */
  function Next(tokens: seq<Token>, c: Cursor): (r: Cursor)
    requires Valid(tokens, c) && !IsAtEnd(tokens, c.pos)
    ensures r.pos == c.pos + 1 && r.pos < |tokens| && r.diags == c.diags
  {
    Cursor(c.pos + 1, c.diags)
  }

  /** `throw error(peek(), message)`: the cursor stays, one diagnostic is added. */
  function Fail<T>(tokens: seq<Token>, c: Cursor, message: Message): (r: Parsed<T>)
    requires c.pos < |tokens|
    ensures r.Err? && r.after.pos == c.pos
    ensures r.after.diags == c.diags + [TokenError(tokens[c.pos], message)]
  {
    Err(Cursor(c.pos, c.diags + [TokenError(tokens[c.pos], message)]))
  }

  /** `consume(type, message)`. */
  function Consume(tokens: seq<Token>, c: Cursor, kind: TokenType, message: Message): (r: Parsed<Token>)
    requires Valid(tokens, c)
    ensures r.Ok? <==> Check(tokens, c.pos, kind)
    ensures r.Ok? ==> r.value == tokens[c.pos] && r.after == Cursor(c.pos + 1, c.diags)
    ensures r.Err? ==> r == Fail(tokens, c, message)
  {
    if Check(tokens, c.pos, kind) then Ok(tokens[c.pos], Next(tokens, c)) else Fail(tokens, c, message)
  }

  /** The last diagnostic is the one a `ParseError` reports at the cursor's token. */
  predicate Reported(tokens: seq<Token>, c: Cursor)
    requires c.pos < |tokens|
  {
    |c.diags| > 0 && c.diags[|c.diags| - 1] == TokenError(tokens[c.pos], c.diags[|c.diags| - 1].message)
  }

  /**
   * What every parsing function keeps: the cursor moves forward within the
   * list, no diagnostic is lost, and a thrown error has been reported at
   * the token where it stopped.
   */
  predicate Step<T>(tokens: seq<Token>, c: Cursor, r: Parsed<T>) {
    && c.pos <= r.after.pos < |tokens|
    && c.diags <= r.after.diags
    && (r.Err? ==> |c.diags| < |r.after.diags| && Reported(tokens, r.after))
  }

  /** A successful parse consumed at least one token. */
  predicate Advanced<T>(c: Cursor, r: Parsed<T>) {
    r.Ok? ==> c.pos < r.after.pos
  }

  /** The six binary levels, loosest first; each is a left fold of the next-tighter level. */
  datatype Level = CommaLevel | LogicalLevel | EqualityLevel | ComparisonLevel | TermLevel | FactorLevel

  /** The operator kinds `match` accepts at each level. */
  function Operators(level: Level): set<TokenType> {
    match level
    case CommaLevel => {Comma}
    case LogicalLevel => {And, Or}
    case EqualityLevel => {EqualEqual, BangEqual}
    case ComparisonLevel => {Greater, GreaterEqual, Less, LessEqual}
    case TermLevel => {Minus, Plus}
    case FactorLevel => {Slash, Star}
  }

  /** The termination rank of a level; a level's operand parser has a lower rank. */
  function LevelRank(level: Level): nat {
    match level
    case CommaLevel => 13
    case LogicalLevel => 11
    case EqualityLevel => 10
    case ComparisonLevel => 9
    case TermLevel => 8
    case FactorLevel => 7
  }

  /** `expression()`. */
  function Expression(tokens: seq<Token>, c: Cursor): (r: Parsed<Ast.Expr>)
    requires Valid(tokens, c)
    ensures Step(tokens, c, r) && Advanced(c, r)
    decreases |tokens| - c.pos, 29
  {
    Assignment(tokens, c)
  }

  /**
   * `assignment()`: a comma expression, then, after `=`, a right-recursive
   * assignment. A variable target makes an `Assign`; any other target is
   * reported but does not throw: the target is returned and the value dropped.
   */
  function Assignment(tokens: seq<Token>, c: Cursor): (r: Parsed<Ast.Expr>)
    requires Valid(tokens, c)
    ensures Step(tokens, c, r) && Advanced(c, r)
    decreases |tokens| - c.pos, 28
  {
    var target := BinaryLevel(tokens, CommaLevel, c);
    if target.Err? then target else AssignValue(tokens, target.value, target.after)
  }

  /**
   * The rest of `assignment()` once its target is parsed: nothing without
   * `=`; otherwise the assigned value, and an `Assign` when the target is a
   * variable or a report that leaves the target in place.
   */
  function AssignValue(tokens: seq<Token>, target: Ast.Expr, c: Cursor): (r: Parsed<Ast.Expr>)
    requires Valid(tokens, c)
    ensures Step(tokens, c, r)
    ensures !Check(tokens, c.pos, Equal) ==> r == Ok(target, c)
    ensures Check(tokens, c.pos, Equal) && r.Ok? && target.Variable? ==>
              r.value.Assign? && r.value.name == target.name
    ensures Check(tokens, c.pos, Equal) && r.Ok? && !target.Variable? ==>
              r.value == target && |r.after.diags| > 0 && r.after.diags[|r.after.diags| - 1] == TokenError(tokens[c.pos], InvalidAssignmentTarget)
    decreases |tokens| - c.pos, 27
  {
    if !Check(tokens, c.pos, Equal) then Ok(target, c)
    else
      var equals := tokens[c.pos];
      var value := Assignment(tokens, Next(tokens, c));
      if value.Err? then value else AssignTo(tokens, target, equals, value.value, value.after)
  }

  /** An `Assign` to a variable target; any other target is reported and kept. */
  function AssignTo(tokens: seq<Token>, target: Ast.Expr, equals: Token, value: Ast.Expr, c: Cursor): (r: Parsed<Ast.Expr>)
    requires Valid(tokens, c)
    ensures r.Ok? && Step(tokens, c, r) && r.after.pos == c.pos
    ensures target.Variable? <==> r.after == c
    ensures target.Variable? ==> r.value == Ast.Assign(target.name, value)
    ensures !target.Variable? ==>
              r.value == target && r.after.diags == c.diags + [TokenError(equals, InvalidAssignmentTarget)]
  {
    if target.Variable? then Ok(Ast.Assign(target.name, value), c)
    else Ok(target, Cursor(c.pos, c.diags + [TokenError(equals, InvalidAssignmentTarget)]))
  }

  /** The first operand of a binary level, then the loop over its operators. */
  function BinaryLevel(tokens: seq<Token>, level: Level, c: Cursor): (r: Parsed<Ast.Expr>)
    requires Valid(tokens, c)
    ensures Step(tokens, c, r) && Advanced(c, r)
    ensures r.Ok? ==> !CheckAny(tokens, r.after.pos, Operators(level))
    decreases |tokens| - c.pos, 2 * LevelRank(level) + 1
  {
    var first := Operand(tokens, level, c);
    if first.Err? then first else BinaryTail(tokens, level, first.value, first.after)
  }

  /**
   * The `while (match(...))` loop of a binary level: each operator and the
   * operand after it extend the accumulated tree on the right, so the
   * operators associate to the left. The loop stops only at a token that is
   * not one of the level's operators.
   */
  function BinaryTail(tokens: seq<Token>, level: Level, acc: Ast.Expr, c: Cursor): (r: Parsed<Ast.Expr>)
    requires Valid(tokens, c)
    ensures Step(tokens, c, r)
    ensures r.Ok? ==> !CheckAny(tokens, r.after.pos, Operators(level))
    decreases |tokens| - c.pos, 2 * LevelRank(level) + 1
  {
    var s := BinaryStep(tokens, level, acc, c);
    if s.Err? then Err(s.after)
    else if s.value.None? then Ok(acc, c)
    else BinaryTail(tokens, level, s.value.value, s.after)
  }

  /**
   * One turn of that loop: `None` when no operator follows, otherwise the
   * operator and its right operand folded onto `acc`.
   */
  function BinaryStep(tokens: seq<Token>, level: Level, acc: Ast.Expr, c: Cursor): (r: Parsed<Option<Ast.Expr>>)
    requires Valid(tokens, c)
    ensures Step(tokens, c, r)
    ensures r.Ok? ==> (r.value.None? <==> r.after == c)
    ensures r.Ok? && r.value.None? ==> !CheckAny(tokens, c.pos, Operators(level))
    ensures r.Ok? && r.value.Some? ==> c.pos < r.after.pos
    decreases |tokens| - c.pos, 2 * LevelRank(level)
  {
    if !CheckAny(tokens, c.pos, Operators(level)) then Ok(None, c)
    else
      var operator := tokens[c.pos];
      var right := Operand(tokens, level, Next(tokens, c));
      if right.Err? then Err(right.after) else Ok(Some(Ast.Binary(acc, operator, right.value)), right.after)
  }

  /** The next-tighter binary level; factors have none. */
  function Tighter(level: Level): Level
    requires level != FactorLevel
  {
    match level
    case CommaLevel => LogicalLevel
    case LogicalLevel => EqualityLevel
    case EqualityLevel => ComparisonLevel
    case ComparisonLevel => TermLevel
    case TermLevel => FactorLevel
  }

  /** A level's operands come from the next-tighter parser: `ternary()` for commas, `unary()` for factors. */
  function Operand(tokens: seq<Token>, level: Level, c: Cursor): (r: Parsed<Ast.Expr>)
    requires Valid(tokens, c)
    ensures Step(tokens, c, r) && Advanced(c, r)
    decreases |tokens| - c.pos, 2 * LevelRank(level)
  {
    if level == CommaLevel then Ternary(tokens, c)
    else if level == FactorLevel then Unary(tokens, c)
    else BinaryLevel(tokens, Tighter(level), c)
  }

  /** `ternary()`: a logical expression, then the `?` loop. */
  function Ternary(tokens: seq<Token>, c: Cursor): (r: Parsed<Ast.Expr>)
    requires Valid(tokens, c)
    ensures Step(tokens, c, r) && Advanced(c, r)
    ensures r.Ok? ==> !Check(tokens, r.after.pos, QuestionMark)
    decreases |tokens| - c.pos, 25
  {
    var first := BinaryLevel(tokens, LogicalLevel, c);
    if first.Err? then first else TernaryTail(tokens, first.value, first.after)
  }

  /**
   * The `while (match(QUESTION_MARK))` loop: it stops only at a token that
   * is not `?`.
   */
  function TernaryTail(tokens: seq<Token>, acc: Ast.Expr, c: Cursor): (r: Parsed<Ast.Expr>)
    requires Valid(tokens, c)
    ensures Step(tokens, c, r)
    ensures r.Ok? ==> !Check(tokens, r.after.pos, QuestionMark)
    decreases |tokens| - c.pos, 24
  {
    var s := TernaryStep(tokens, acc, c);
    if s.Err? then Err(s.after)
    else if s.value.None? then Ok(acc, c)
    else TernaryTail(tokens, s.value.value, s.after)
  }

  /**
   * One turn of that loop: `None` when no `?` follows, otherwise a full
   * expression, the required `:`, and a ternary for the else branch, with
   * `acc` as the condition.
   */
  function TernaryStep(tokens: seq<Token>, acc: Ast.Expr, c: Cursor): (r: Parsed<Option<Ast.Expr>>)
    requires Valid(tokens, c)
    ensures Step(tokens, c, r)
    ensures r.Ok? ==> (r.value.None? <==> r.after == c)
    ensures r.Ok? && r.value.None? ==> !Check(tokens, c.pos, QuestionMark)
    ensures r.Ok? && r.value.Some? ==> c.pos < r.after.pos
    decreases |tokens| - c.pos, 23
  {
    if !Check(tokens, c.pos, QuestionMark) then Ok(None, c)
    else
      var branches := TernaryBranches(tokens, acc, Next(tokens, c));
      if branches.Err? then Err(branches.after) else Ok(Some(branches.value), branches.after)
  }

  /** After a `?`: the then branch, the required `:`, and the else branch. */
  function TernaryBranches(tokens: seq<Token>, condition: Ast.Expr, c: Cursor): (r: Parsed<Ast.Expr>)
    requires Valid(tokens, c)
    ensures Step(tokens, c, r) && Advanced(c, r)
    ensures r.Ok? ==> r.value.Ternary? && r.value.first == condition
    decreases |tokens| - c.pos, 30
  {
    var second := Expression(tokens, c);
    if second.Err? then second
    else
      var colon := Consume(tokens, second.after, Colon, ExpectColon);
      if colon.Err? then Err(colon.after)
      else
        var third := Ternary(tokens, colon.after);
        if third.Err? then third else Ok(Ast.Ternary(condition, second.value, third.value), third.after)
  }

  /** `unary()`: `!` or `-` applied to a unary expression, or a primary. */
  function Unary(tokens: seq<Token>, c: Cursor): (r: Parsed<Ast.Expr>)
    requires Valid(tokens, c)
    ensures Step(tokens, c, r) && Advanced(c, r)
    decreases |tokens| - c.pos, 13
  {
    if !CheckAny(tokens, c.pos, {Bang, Minus}) then Primary(tokens, c)
    else
      var operator := tokens[c.pos];
      var right := Unary(tokens, Next(tokens, c));
      if right.Err? then right else Ok(Ast.Unary(operator, right.value), right.after)
  }

  /** `primary()`: a variable, a literal, or a parenthesized expression; anything else is "Expect expression.". */
  function Primary(tokens: seq<Token>, c: Cursor): (r: Parsed<Ast.Expr>)
    requires Valid(tokens, c)
    ensures Step(tokens, c, r) && Advanced(c, r)
    decreases |tokens| - c.pos, 12
  {
    if Check(tokens, c.pos, Identifier) then Ok(Ast.Variable(tokens[c.pos]), Next(tokens, c))
    else if LiteralAt(tokens, c.pos).Some? then Ok(Ast.Literal(LiteralAt(tokens, c.pos).value), Next(tokens, c))
    else if Check(tokens, c.pos, LeftParen) then Group(tokens, Next(tokens, c))
    else Fail(tokens, c, ExpectExpression)
  }

  /**
   * The literal cases of `primary()`: `true`, `false` and `nil` stand for
   * themselves, a string or number token for the value the scanner gave it.
   */
  function LiteralAt(tokens: seq<Token>, pos: nat): (v: Option<Value>)
    requires pos < |tokens|
    ensures v.Some? ==> !IsAtEnd(tokens, pos)
  {
    var kind := tokens[pos].kind;
    if kind == True then Some(Bool(true))
    else if kind == False then Some(Bool(false))
    else if kind == Nil then Some(NilValue)
    else if kind == String || kind == Number then Some(tokens[pos].literal)
    else None
  }

  /** The `(` case of `primary()`, after the parenthesis: an expression and the required `)`. */
  function Group(tokens: seq<Token>, c: Cursor): (r: Parsed<Ast.Expr>)
    requires Valid(tokens, c)
    ensures Step(tokens, c, r) && Advanced(c, r)
    ensures r.Ok? ==> r.value.Grouping? && tokens[r.after.pos - 1].kind == RightParen
    decreases |tokens| - c.pos, 30
  {
    var inner := Expression(tokens, c);
    if inner.Err? then inner
    else
      var paren := Consume(tokens, inner.after, RightParen, ExpectRightParen);
      if paren.Err? then Err(paren.after) else Ok(Ast.Grouping(inner.value), paren.after)
  }

  /** The token kinds `synchronize` stops in front of: those that begin a statement. */
  const SyncKinds: set<TokenType> := {Class, Fun, Var, For, If, While, Tokens.Print, Return}

  /**
   * `synchronize()`: skip the token the error was reported at, then stop
   * after the first `;` or before the first token that starts a statement,
   * or at the end.
   */
  function Synchronize(tokens: seq<Token>, pos: nat): (p: nat)
    requires Wf(tokens) && pos < |tokens|
    ensures pos <= p < |tokens|
    ensures !IsAtEnd(tokens, pos) ==> pos < p
    ensures IsAtEnd(tokens, p) || (0 < p && (tokens[p - 1].kind == Semicolon || tokens[p].kind in SyncKinds))
    ensures forall k :: pos < k < p ==> Passed(tokens, k)
  {
    if IsAtEnd(tokens, pos) then pos else SyncLoop(tokens, pos + 1)
  }

  /** The loop of `synchronize()` goes on past position `k`: not the end, no `;` before it, no statement keyword at it. */
  predicate Passed(tokens: seq<Token>, k: nat)
    requires 0 < k < |tokens|
  {
    !IsAtEnd(tokens, k) && tokens[k - 1].kind != Semicolon && tokens[k].kind !in SyncKinds
  }

  /** The loop of `synchronize()`, from a position after the first token it skipped. */
  function SyncLoop(tokens: seq<Token>, p: nat): (q: nat)
    requires Wf(tokens) && 0 < p < |tokens|
    ensures p <= q < |tokens|
    ensures !Passed(tokens, q)
    ensures forall k :: p <= k < q ==> Passed(tokens, k)
    decreases |tokens| - p
  {
    if !Passed(tokens, p) then p else SyncLoop(tokens, p + 1)
  }

  /**
   * `declaration()`: never throws. A declaration that fails is reported,
   * the parser synchronizes, and the result is a hole. It always consumes a
   * token unless the cursor is at the end.
   */
  function Declaration(tokens: seq<Token>, c: Cursor): (r: Parsed<Option<Ast.Stmt>>)
    requires Valid(tokens, c)
    ensures r.Ok? && Step(tokens, c, r)
    ensures !IsAtEnd(tokens, c.pos) ==> c.pos < r.after.pos
    ensures r.value.None? ==> |c.diags| < |r.after.diags|
    ensures |r.after.diags| == |c.diags| ==> r.value.Some? && Ast.StmtNoHoles(r.value.value)
    ensures Attempt(tokens, c).Err? <==> r.value.None?
    ensures Attempt(tokens, c).Err? ==>
              r.after.pos == Synchronize(tokens, Attempt(tokens, c).after.pos) && r.after.diags == Attempt(tokens, c).after.diags
    ensures Attempt(tokens, c).Ok? ==> r.value == Some(Attempt(tokens, c).value) && r.after == Attempt(tokens, c).after
    decreases |tokens| - c.pos, 3
  {
    var s := Attempt(tokens, c);
    if s.Ok? then Ok(Some(s.value), s.after)
    else Ok(None, Recover(tokens, s.after))
  }

  /** The `try` block of `declaration()`: a variable declaration after `var`, a statement otherwise. */
  function Attempt(tokens: seq<Token>, c: Cursor): (r: Parsed<Ast.Stmt>)
    requires Valid(tokens, c)
    ensures Step(tokens, c, r) && Advanced(c, r)
    ensures r.Ok? && |r.after.diags| == |c.diags| ==> Ast.StmtNoHoles(r.value)
    decreases |tokens| - c.pos, 2
  {
    if Check(tokens, c.pos, Var) then VarDeclaration(tokens, Next(tokens, c)) else Statement(tokens, c)
  }

  /** The handler of `declaration()`: synchronize from where the error was thrown, keeping its report. */
  function Recover(tokens: seq<Token>, c: Cursor): (r: Cursor)
    requires Valid(tokens, c)
    ensures c.pos <= r.pos < |tokens| && r.diags == c.diags
    ensures !IsAtEnd(tokens, c.pos) ==> c.pos < r.pos
    ensures r.pos == Synchronize(tokens, c.pos)
  {
    Cursor(Synchronize(tokens, c.pos), c.diags)
  }

  /** `varDeclaration()`, after the `var` keyword. */
  function VarDeclaration(tokens: seq<Token>, c: Cursor): (r: Parsed<Ast.Stmt>)
    requires Valid(tokens, c)
    ensures Step(tokens, c, r) && Advanced(c, r)
    ensures r.Ok? ==> r.value.VarDecl?
    ensures r.Ok? ==> tokens[r.after.pos - 1].kind == Semicolon
  {
    var name := Consume(tokens, c, Identifier, ExpectVariableName);
    if name.Err? then Err(name.after) else VarRest(tokens, name.value, name.after)
  }

  /** The rest of `varDeclaration()` after the variable's name: the optional initializer and the `;`. */
  function VarRest(tokens: seq<Token>, name: Token, c: Cursor): (r: Parsed<Ast.Stmt>)
    requires Valid(tokens, c)
    ensures Step(tokens, c, r) && Advanced(c, r)
    ensures r.Ok? ==> r.value.VarDecl? && r.value.name == name
    ensures r.Ok? ==> tokens[r.after.pos - 1].kind == Semicolon
  {
    var init := Initializer(tokens, c);
    if init.Err? then Err(init.after)
    else Terminate(tokens, init.after, Ast.VarDecl(name, init.value), ExpectSemicolonAfterVariable)
  }

  /** The `consume(SEMICOLON, message)` that ends a statement, returning the statement. */
  function Terminate(tokens: seq<Token>, c: Cursor, s: Ast.Stmt, message: Message): (r: Parsed<Ast.Stmt>)
    requires Valid(tokens, c)
    ensures Step(tokens, c, r) && Advanced(c, r)
    ensures r.Ok? <==> Check(tokens, c.pos, Semicolon)
    ensures r.Ok? ==> r.value == s && r.after == Cursor(c.pos + 1, c.diags)
  {
    var semicolon := Consume(tokens, c, Semicolon, message);
    if semicolon.Err? then Err(semicolon.after) else Ok(s, semicolon.after)
  }

  /** The optional `= expression` of a variable declaration. */
  function Initializer(tokens: seq<Token>, c: Cursor): (r: Parsed<Option<Ast.Expr>>)
    requires Valid(tokens, c)
    ensures Step(tokens, c, r)
    ensures r.Ok? ==> (r.value.None? <==> r.after == c)
  {
    if !Check(tokens, c.pos, Equal) then Ok(None, c)
    else
      var e := Expression(tokens, Next(tokens, c));
      if e.Err? then Err(e.after) else Ok(Some(e.value), e.after)
  }

  /** `statement()`: a print statement, a block, or an expression statement. */
  function Statement(tokens: seq<Token>, c: Cursor): (r: Parsed<Ast.Stmt>)
    requires Valid(tokens, c)
    ensures Step(tokens, c, r) && Advanced(c, r)
    ensures r.Ok? && |r.after.diags| == |c.diags| ==> Ast.StmtNoHoles(r.value)
    decreases |tokens| - c.pos, 1
  {
    if Check(tokens, c.pos, Tokens.Print) then PrintStmt(tokens, Next(tokens, c))
    else BlockOrExprStmt(tokens, c)
  }

  /** The second line of `statement()`: a block after `{`, an expression statement otherwise. */
  function BlockOrExprStmt(tokens: seq<Token>, c: Cursor): (r: Parsed<Ast.Stmt>)
    requires Valid(tokens, c)
    ensures Step(tokens, c, r) && Advanced(c, r)
    ensures r.Ok? && |r.after.diags| == |c.diags| ==> Ast.StmtNoHoles(r.value)
    decreases |tokens| - c.pos, 0
  {
    if Check(tokens, c.pos, LeftBrace) then BlockStmt(tokens, Next(tokens, c))
    else ExprStmt(tokens, c)
  }

  /** The `{` case of `statement()`, after the brace: `Stmt.Block(block())`. */
  function BlockStmt(tokens: seq<Token>, c: Cursor): (r: Parsed<Ast.Stmt>)
    requires Valid(tokens, c)
    ensures Step(tokens, c, r) && Advanced(c, r)
    ensures r.Ok? ==> r.value.Block?
    ensures r.Ok? && |r.after.diags| == |c.diags| ==> Ast.StmtNoHoles(r.value)
    decreases |tokens| - c.pos, 6
  {
    var b := Block(tokens, c);
    if b.Err? then Err(b.after) else Ok(Ast.Block(b.value), b.after)
  }

  /** `block()`, after the `{`. */
  function Block(tokens: seq<Token>, c: Cursor): (r: Parsed<seq<Option<Ast.Stmt>>>)
    requires Valid(tokens, c)
    ensures Step(tokens, c, r) && Advanced(c, r)
    ensures r.Ok? ==> tokens[r.after.pos - 1].kind == RightBrace
    ensures r.Ok? && |r.after.diags| == |c.diags| ==> Ast.NoHoles(r.value)
    decreases |tokens| - c.pos, 5
  {
    BlockLoop(tokens, c, [])
  }

  /** The loop of `block()`: declarations up to `}` or the end, then the required `}`. */
  function BlockLoop(tokens: seq<Token>, c: Cursor, acc: seq<Option<Ast.Stmt>>): (r: Parsed<seq<Option<Ast.Stmt>>>)
    requires Valid(tokens, c)
    ensures Step(tokens, c, r) && Advanced(c, r)
    ensures r.Ok? ==> tokens[r.after.pos - 1].kind == RightBrace
    ensures r.Ok? && |r.after.diags| == |c.diags| && Ast.NoHoles(acc) ==> Ast.NoHoles(r.value)
    decreases |tokens| - c.pos, 4
  {
    if !Check(tokens, c.pos, RightBrace) && !IsAtEnd(tokens, c.pos) then
      var d := Declaration(tokens, c);
      Ast.NoHolesAppend(acc, d.value);
      BlockLoop(tokens, d.after, acc + [d.value])
    else CloseBlock(tokens, c, acc)
  }

  /** The `consume(RIGHT_BRACE, ...)` that ends `block()`, returning the statements gathered. */
  function CloseBlock(tokens: seq<Token>, c: Cursor, acc: seq<Option<Ast.Stmt>>): (r: Parsed<seq<Option<Ast.Stmt>>>)
    requires Valid(tokens, c)
    ensures Step(tokens, c, r) && Advanced(c, r)
    ensures r.Ok? <==> Check(tokens, c.pos, RightBrace)
    ensures r.Ok? ==> r.value == acc && r.after == Cursor(c.pos + 1, c.diags)
  {
    var close := Consume(tokens, c, RightBrace, ExpectRightBrace);
    if close.Err? then Err(close.after) else Ok(acc, close.after)
  }

  /** `printStmt()`, after the `print` keyword. */
  function PrintStmt(tokens: seq<Token>, c: Cursor): (r: Parsed<Ast.Stmt>)
    requires Valid(tokens, c)
    ensures Step(tokens, c, r) && Advanced(c, r)
    ensures r.Ok? ==> r.value.Print?
    ensures r.Ok? ==> tokens[r.after.pos - 1].kind == Semicolon
  {
    var e := Expression(tokens, c);
    if e.Err? then Err(e.after) else Terminate(tokens, e.after, Ast.Print(e.value), ExpectSemicolonAfterValue)
  }

  /** `exprStmt()`. */
  function ExprStmt(tokens: seq<Token>, c: Cursor): (r: Parsed<Ast.Stmt>)
    requires Valid(tokens, c)
    ensures Step(tokens, c, r) && Advanced(c, r)
    ensures r.Ok? ==> r.value.Expression?
    ensures r.Ok? ==> tokens[r.after.pos - 1].kind == Semicolon
  {
    var e := Expression(tokens, c);
    if e.Err? then Err(e.after) else Terminate(tokens, e.after, Ast.Expression(e.value), ExpectSemicolonAfterValue)
  }

  /**
   * The loop of `parse()`: declarations until the end-of-file token. Since
   * `declaration()` never throws, the loop's own handler is never entered.
   */
  function ParseLoop(tokens: seq<Token>, c: Cursor, acc: seq<Option<Ast.Stmt>>): (r: Parsed<seq<Option<Ast.Stmt>>>)
    requires Valid(tokens, c)
    ensures r.Ok? && Step(tokens, c, r) && IsAtEnd(tokens, r.after.pos)
    ensures |r.after.diags| == |c.diags| && Ast.NoHoles(acc) ==> Ast.NoHoles(r.value)
    ensures acc <= r.value
    ensures !IsAtEnd(tokens, c.pos) ==> |acc| < |r.value|
    decreases |tokens| - c.pos
  {
    if IsAtEnd(tokens, c.pos) then Ok(acc, c)
    else
      var d := Declaration(tokens, c);
      Ast.NoHolesAppend(acc, d.value);
      ParseLoop(tokens, d.after, acc + [d.value])
  }

  /**
   * `parse()` on a fresh parser: the statements (with holes where a
   * declaration failed) and every error reported on the way. Without errors
   * there are no holes.
   */
  function Parse(tokens: seq<Token>): (r: Parsed<seq<Option<Ast.Stmt>>>)
    requires Wf(tokens)
    ensures r.Ok? && r.after.pos < |tokens| && IsAtEnd(tokens, r.after.pos)
    ensures r.after.diags == [] ==> Ast.NoHoles(r.value)
  {
    ParseLoop(tokens, Cursor(0, []), [])
  }
}
