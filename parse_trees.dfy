/**
 * The trees the parser builds, described independently of it: a grammar
 * written as a predicate on syntax trees, and proofs that every tree the
 * grammar functions return derives from the rule of the method that built
 * it. The precedence and associativity of the binary operators follow from
 * the shape of the rules.
 */
module ParseTrees {
  import opened Wrappers
  import opened Tokens
  import opened ErrorHandling
  import opened Grammar
  import Ast

  /** The nonterminals of the expression grammar the parser implements. */
  datatype Rule = AssignmentRule | LevelRule(level: Level) | TernaryRule | UnaryRule | PrimaryRule

  /** The rule of a level's operands. */
  function OperandRule(level: Level): (r: Rule)
    ensures RuleRank(r) < RuleRank(LevelRule(level))
  {
    match level
    case CommaLevel => TernaryRule
    case LogicalLevel => LevelRule(EqualityLevel)
    case EqualityLevel => LevelRule(ComparisonLevel)
    case ComparisonLevel => LevelRule(TermLevel)
    case TermLevel => LevelRule(FactorLevel)
    case FactorLevel => UnaryRule
  }

  /** Rules ordered from loosest to tightest binding. */
  function RuleRank(rule: Rule): nat {
    match rule
    case AssignmentRule => 9
    case LevelRule(level) => LevelRank(level) - 5
    case TernaryRule => 7
    case UnaryRule => 1
    case PrimaryRule => 0
  }

  /**
   * The tree `e` can be derived from `rule` of the grammar
   *   assignment := IDENTIFIER "=" assignment | comma
   *   comma      := comma "," ternary | ternary
   *   ternary    := ternary "?" assignment ":" ternary | logical
   *   logical    := logical ("and" | "or") equality | equality
   *   ...
   *   factor     := factor ("/" | "*") unary | unary
   *   unary      := ("!" | "-") unary | primary
   *   primary    := IDENTIFIER | literal | "(" assignment ")"
   * where each level's left operand is the level itself, so binary operators
   * associate to the left.
   */
  predicate Derives(e: Ast.Expr, rule: Rule)
    decreases e, RuleRank(rule)
  {
    match rule
    case AssignmentRule =>
      || (e.Assign? && e.name.kind == Identifier && Derives(e.value, AssignmentRule))
      || Derives(e, LevelRule(CommaLevel))
    case LevelRule(level) =>
      || (e.Binary? && e.operator.kind in Operators(level)
          && Derives(e.left, rule) && Derives(e.right, OperandRule(level)))
      || Derives(e, OperandRule(level))
    case TernaryRule =>
      || (e.Ternary? && Derives(e.first, TernaryRule) && Derives(e.second, AssignmentRule) && Derives(e.third, TernaryRule))
      || Derives(e, LevelRule(LogicalLevel))
    case UnaryRule =>
      || (e.Unary? && e.operator.kind in {Bang, Minus} && Derives(e.right, UnaryRule))
      || Derives(e, PrimaryRule)
    case PrimaryRule =>
      || (e.Variable? && e.name.kind == Identifier)
      || e.Literal?
      || (e.Grouping? && Derives(e.expr, AssignmentRule))
  }

  /** Only the primary rule derives a variable, and only from an identifier. */
  lemma {:induction false} VariableDerives(e: Ast.Expr, rule: Rule)
    requires e.Variable? && Derives(e, rule)
    ensures e.name.kind == Identifier
    decreases RuleRank(rule)
  {
    match rule
    case AssignmentRule => VariableDerives(e, LevelRule(CommaLevel));
    case LevelRule(level) => VariableDerives(e, OperandRule(level));
    case TernaryRule => VariableDerives(e, LevelRule(LogicalLevel));
    case UnaryRule => VariableDerives(e, PrimaryRule);
    case PrimaryRule =>
  }

  /** Statement trees the parser builds: every expression derives from `assignment`, every declared name is an identifier. */
  predicate StmtDerives(s: Ast.Stmt)
    decreases s, 1
  {
    match s
    case Expression(e) => Derives(e, AssignmentRule)
    case Print(e) => Derives(e, AssignmentRule)
    case VarDecl(name, init) => name.kind == Identifier && (init.Some? ==> Derives(init.value, AssignmentRule))
    case Block(ss) => AllDerive(ss)
  }

  /** Every statement present in the list derives. */
  predicate AllDerive(ss: seq<Option<Ast.Stmt>>)
    decreases Ast.Block(ss), 0
  {
    forall i :: 0 <= i < |ss| && ss[i].Some? ==> StmtDerives(ss[i].value)
  }


  /** A list with an entry appended derives when the list and the entry (if present) do. */
  lemma AllDeriveAppend(ss: seq<Option<Ast.Stmt>>, s: Option<Ast.Stmt>)
    requires AllDerive(ss) && (s.Some? ==> StmtDerives(s.value))
    ensures AllDerive(ss + [s])
  {
    assert forall i :: 0 <= i < |ss| ==> (ss + [s])[i] == ss[i];
  }

  /** Different levels accept different operators. */
  lemma OperatorsDisjoint(a: Level, b: Level)
    requires a != b
    ensures forall k :: k in Operators(a) ==> k !in Operators(b)
  {
  }

  /**
   * Precedence: a tree derived from a rule that binds tighter than a level
   * is never a bare binary node of that level's operators; looser operators
   * inside it appear only under parentheses.
   */
  lemma {:induction false} TighterOperands(e: Ast.Expr, rule: Rule, level: Level)
    requires Derives(e, rule) && RuleRank(rule) < RuleRank(LevelRule(level)) && e.Binary?
    ensures e.operator.kind !in Operators(level)
    decreases RuleRank(rule)
  {
    match rule
    case LevelRule(l) =>
      if e.operator.kind in Operators(l) {
        OperatorsDisjoint(l, level);
      } else {
        TighterOperands(e, OperandRule(l), level);
      }
    case TernaryRule => TighterOperands(e, LevelRule(LogicalLevel), level);
    case UnaryRule => TighterOperands(e, PrimaryRule, level);
  }

  /**
   * Left associativity: in a tree of one level whose root is that level's
   * operator, the right operand is not itself a bare node of the level.
   * `SubtractionGroupsLeft` shows the parser building that shape from tokens.
   */
  lemma LeftAssociative(e: Ast.Expr, level: Level)
    requires Derives(e, LevelRule(level)) && e.Binary? && e.operator.kind in Operators(level)
    ensures Derives(e.left, LevelRule(level)) && Derives(e.right, OperandRule(level))
    ensures e.right.Binary? ==> e.right.operator.kind !in Operators(level)
  {
    if !Derives(e.right, OperandRule(level)) || !Derives(e.left, LevelRule(level)) {
      TighterOperands(e, OperandRule(level), level);
    }
    if e.right.Binary? {
      TighterOperands(e.right, OperandRule(level), level);
    }
  }

  /**
   * A variable followed by no `*` or `/` is a whole factor: `factor()` at an
   * identifier returns that variable and stops after it.
   */
  lemma VariableFactor(tokens: seq<Token>, c: Cursor)
    requires Valid(tokens, c) && c.pos + 1 < |tokens|
    requires tokens[c.pos].kind == Identifier && tokens[c.pos + 1].kind !in {Slash, Star}
    ensures BinaryLevel(tokens, FactorLevel, c) == Ok(Ast.Variable(tokens[c.pos]), Cursor(c.pos + 1, c.diags))
  {
    var after := Cursor(c.pos + 1, c.diags);
    assert Unary(tokens, c) == Ok(Ast.Variable(tokens[c.pos]), after);
    assert BinaryStep(tokens, FactorLevel, Ast.Variable(tokens[c.pos]), after) == Ok(None, after);
  }

  /**
   * The parser's own left association, on tokens: `a - b - c` parses at the
   * term level as `(a - b) - c`, consuming everything up to the end of file.
   */
  lemma SubtractionGroupsLeft(tokens: seq<Token>)
    requires |tokens| == 6 && tokens[5].kind == Eof
    requires tokens[0].kind == Identifier && tokens[2].kind == Identifier && tokens[4].kind == Identifier
    requires tokens[1].kind == Minus && tokens[3].kind == Minus
    ensures BinaryLevel(tokens, TermLevel, Cursor(0, [])) ==
            Ok(Ast.Binary(Ast.Binary(Ast.Variable(tokens[0]), tokens[1], Ast.Variable(tokens[2])), tokens[3], Ast.Variable(tokens[4])),
               Cursor(5, []))
  {
    var a, b, c := Ast.Variable(tokens[0]), Ast.Variable(tokens[2]), Ast.Variable(tokens[4]);
    VariableFactor(tokens, Cursor(0, []));
    VariableFactor(tokens, Cursor(2, []));
    VariableFactor(tokens, Cursor(4, []));
    assert BinaryStep(tokens, TermLevel, a, Cursor(1, [])) == Ok(Some(Ast.Binary(a, tokens[1], b)), Cursor(3, []));
    var ab := Ast.Binary(a, tokens[1], b);
    assert BinaryStep(tokens, TermLevel, ab, Cursor(3, [])) == Ok(Some(Ast.Binary(ab, tokens[3], c)), Cursor(5, []));
    var abc := Ast.Binary(ab, tokens[3], c);
    assert BinaryStep(tokens, TermLevel, abc, Cursor(5, [])) == Ok(None, Cursor(5, []));
    assert BinaryTail(tokens, TermLevel, abc, Cursor(5, [])) == Ok(abc, Cursor(5, []));
    assert BinaryTail(tokens, TermLevel, ab, Cursor(3, [])) == Ok(abc, Cursor(5, []));
    assert BinaryTail(tokens, TermLevel, a, Cursor(1, [])) == Ok(abc, Cursor(5, []));
    assert Operand(tokens, TermLevel, Cursor(0, [])) == Ok(a, Cursor(1, []));
  }

  lemma {:induction false} ExpressionDerives(tokens: seq<Token>, c: Cursor)
    requires Valid(tokens, c)
    ensures var r := Expression(tokens, c); r.Ok? ==> Derives(r.value, AssignmentRule)
    decreases |tokens| - c.pos, 29
  {
    AssignmentDerives(tokens, c);
  }

  /** The target of an `Assign` is a variable's identifier; an invalid target stays a comma expression. */
  lemma {:induction false} AssignmentDerives(tokens: seq<Token>, c: Cursor)
    requires Valid(tokens, c)
    ensures var r := Assignment(tokens, c); r.Ok? ==> Derives(r.value, AssignmentRule)
    decreases |tokens| - c.pos, 28
  {
    BinaryLevelDerives(tokens, CommaLevel, c);
    var target := BinaryLevel(tokens, CommaLevel, c);
    if target.Ok? {
      AssignValueDerives(tokens, target.value, target.after);
    }
  }

  lemma {:induction false} AssignValueDerives(tokens: seq<Token>, target: Ast.Expr, c: Cursor)
    requires Valid(tokens, c) && Derives(target, LevelRule(CommaLevel))
    ensures var r := AssignValue(tokens, target, c); r.Ok? ==> Derives(r.value, AssignmentRule)
    decreases |tokens| - c.pos, 27
  {
    if Check(tokens, c.pos, Equal) {
      AssignmentDerives(tokens, Next(tokens, c));
      if target.Variable? {
        VariableDerives(target, LevelRule(CommaLevel));
      }
    }
  }

  lemma {:induction false} BinaryLevelDerives(tokens: seq<Token>, level: Level, c: Cursor)
    requires Valid(tokens, c)
    ensures var r := BinaryLevel(tokens, level, c); r.Ok? ==> Derives(r.value, LevelRule(level))
    decreases |tokens| - c.pos, 2 * LevelRank(level) + 1
  {
    OperandDerives(tokens, level, c);
    var first := Operand(tokens, level, c);
    if first.Ok? {
      BinaryTailDerives(tokens, level, first.value, first.after);
    }
  }

  /** Each turn of a binary loop puts the tree so far on the left: the result stays a tree of the level. */
  lemma {:induction false} BinaryTailDerives(tokens: seq<Token>, level: Level, acc: Ast.Expr, c: Cursor)
    requires Valid(tokens, c) && Derives(acc, LevelRule(level))
    ensures var r := BinaryTail(tokens, level, acc, c); r.Ok? ==> Derives(r.value, LevelRule(level))
    decreases |tokens| - c.pos, 2 * LevelRank(level) + 1
  {
    BinaryStepDerives(tokens, level, acc, c);
    var s := BinaryStep(tokens, level, acc, c);
    if s.Ok? && s.value.Some? {
      BinaryTailDerives(tokens, level, s.value.value, s.after);
    }
  }

  /** One operator and its right operand, folded onto the tree so far. */
  lemma {:induction false} BinaryStepDerives(tokens: seq<Token>, level: Level, acc: Ast.Expr, c: Cursor)
    requires Valid(tokens, c) && Derives(acc, LevelRule(level))
    ensures var r := BinaryStep(tokens, level, acc, c); r.Ok? && r.value.Some? ==> Derives(r.value.value, LevelRule(level))
    decreases |tokens| - c.pos, 2 * LevelRank(level)
  {
    if CheckAny(tokens, c.pos, Operators(level)) {
      OperandDerives(tokens, level, Next(tokens, c));
    }
  }

  lemma {:induction false} OperandDerives(tokens: seq<Token>, level: Level, c: Cursor)
    requires Valid(tokens, c)
    ensures var r := Operand(tokens, level, c); r.Ok? ==> Derives(r.value, OperandRule(level))
    decreases |tokens| - c.pos, 2 * LevelRank(level)
  {
    match level
    case CommaLevel => TernaryDerives(tokens, c);
    case LogicalLevel => BinaryLevelDerives(tokens, EqualityLevel, c);
    case EqualityLevel => BinaryLevelDerives(tokens, ComparisonLevel, c);
    case ComparisonLevel => BinaryLevelDerives(tokens, TermLevel, c);
    case TermLevel => BinaryLevelDerives(tokens, FactorLevel, c);
    case FactorLevel => UnaryDerives(tokens, c);
  }

  lemma {:induction false} TernaryDerives(tokens: seq<Token>, c: Cursor)
    requires Valid(tokens, c)
    ensures var r := Ternary(tokens, c); r.Ok? ==> Derives(r.value, TernaryRule)
    decreases |tokens| - c.pos, 25
  {
    BinaryLevelDerives(tokens, LogicalLevel, c);
    var first := BinaryLevel(tokens, LogicalLevel, c);
    if first.Ok? {
      TernaryTailDerives(tokens, first.value, first.after);
    }
  }

  lemma {:induction false} TernaryTailDerives(tokens: seq<Token>, acc: Ast.Expr, c: Cursor)
    requires Valid(tokens, c) && Derives(acc, TernaryRule)
    ensures var r := TernaryTail(tokens, acc, c); r.Ok? ==> Derives(r.value, TernaryRule)
    decreases |tokens| - c.pos, 24
  {
    TernaryStepDerives(tokens, acc, c);
    var s := TernaryStep(tokens, acc, c);
    if s.Ok? && s.value.Some? {
      TernaryTailDerives(tokens, s.value.value, s.after);
    }
  }

  lemma {:induction false} TernaryStepDerives(tokens: seq<Token>, acc: Ast.Expr, c: Cursor)
    requires Valid(tokens, c) && Derives(acc, TernaryRule)
    ensures var r := TernaryStep(tokens, acc, c); r.Ok? && r.value.Some? ==> Derives(r.value.value, TernaryRule)
    decreases |tokens| - c.pos, 23
  {
    if Check(tokens, c.pos, QuestionMark) {
      TernaryBranchesDerives(tokens, acc, Next(tokens, c));
    }
  }

  /** The condition so far becomes the first operand; the middle operand may be any expression. */
  lemma {:induction false} TernaryBranchesDerives(tokens: seq<Token>, condition: Ast.Expr, c: Cursor)
    requires Valid(tokens, c) && Derives(condition, TernaryRule)
    ensures var r := TernaryBranches(tokens, condition, c); r.Ok? ==> Derives(r.value, TernaryRule)
    decreases |tokens| - c.pos, 30
  {
    ExpressionDerives(tokens, c);
    var second := Expression(tokens, c);
    if second.Ok? {
      var colon := Consume(tokens, second.after, Colon, ExpectColon);
      if colon.Ok? {
        TernaryDerives(tokens, colon.after);
      }
    }
  }

  lemma {:induction false} UnaryDerives(tokens: seq<Token>, c: Cursor)
    requires Valid(tokens, c)
    ensures var r := Unary(tokens, c); r.Ok? ==> Derives(r.value, UnaryRule)
    decreases |tokens| - c.pos, 13
  {
    if CheckAny(tokens, c.pos, {Bang, Minus}) {
      UnaryDerives(tokens, Next(tokens, c));
    } else {
      PrimaryDerives(tokens, c);
    }
  }

  lemma {:induction false} PrimaryDerives(tokens: seq<Token>, c: Cursor)
    requires Valid(tokens, c)
    ensures var r := Primary(tokens, c); r.Ok? ==> Derives(r.value, PrimaryRule)
    decreases |tokens| - c.pos, 12
  {
    if !Check(tokens, c.pos, Identifier) && LiteralAt(tokens, c.pos).None? && Check(tokens, c.pos, LeftParen) {
      GroupDerives(tokens, Next(tokens, c));
    }
  }

  lemma {:induction false} GroupDerives(tokens: seq<Token>, c: Cursor)
    requires Valid(tokens, c)
    ensures var r := Group(tokens, c); r.Ok? ==> Derives(r.value, PrimaryRule)
    decreases |tokens| - c.pos, 30
  {
    ExpressionDerives(tokens, c);
  }

  lemma {:induction false} DeclarationDerives(tokens: seq<Token>, c: Cursor)
    requires Valid(tokens, c)
    ensures var r := Declaration(tokens, c); r.value.Some? ==> StmtDerives(r.value.value)
    decreases |tokens| - c.pos, 3
  {
    AttemptDerives(tokens, c);
  }

  lemma {:induction false} AttemptDerives(tokens: seq<Token>, c: Cursor)
    requires Valid(tokens, c)
    ensures var r := Attempt(tokens, c); r.Ok? ==> StmtDerives(r.value)
    decreases |tokens| - c.pos, 2
  {
    if Check(tokens, c.pos, Var) {
      VarDeclarationDerives(tokens, Next(tokens, c));
    } else {
      StatementDerives(tokens, c);
    }
  }

  /** A declared name is the identifier token after `var`. */
  lemma VarDeclarationDerives(tokens: seq<Token>, c: Cursor)
    requires Valid(tokens, c)
    ensures var r := VarDeclaration(tokens, c); r.Ok? ==> StmtDerives(r.value) && r.value.name == tokens[c.pos]
  {
    var name := Consume(tokens, c, Identifier, ExpectVariableName);
    if name.Ok? {
      VarRestDerives(tokens, name.value, name.after);
    }
  }

  lemma VarRestDerives(tokens: seq<Token>, name: Token, c: Cursor)
    requires Valid(tokens, c)
    ensures var r := VarRest(tokens, name, c);
            r.Ok? ==> r.value.VarDecl? && (r.value.initializer.Some? ==> Derives(r.value.initializer.value, AssignmentRule))
  {
    if Check(tokens, c.pos, Equal) {
      ExpressionDerives(tokens, Next(tokens, c));
    }
  }

  lemma {:induction false} StatementDerives(tokens: seq<Token>, c: Cursor)
    requires Valid(tokens, c)
    ensures var r := Statement(tokens, c); r.Ok? ==> StmtDerives(r.value)
    decreases |tokens| - c.pos, 1
  {
    if Check(tokens, c.pos, Tokens.Print) {
      ExpressionDerives(tokens, Next(tokens, c));
    } else {
      BlockOrExprStmtDerives(tokens, c);
    }
  }

  lemma {:induction false} BlockOrExprStmtDerives(tokens: seq<Token>, c: Cursor)
    requires Valid(tokens, c)
    ensures var r := BlockOrExprStmt(tokens, c); r.Ok? ==> StmtDerives(r.value)
    decreases |tokens| - c.pos, 0
  {
    if Check(tokens, c.pos, LeftBrace) {
      BlockDerives(tokens, Next(tokens, c));
    } else {
      ExpressionDerives(tokens, c);
    }
  }

  lemma {:induction false} BlockDerives(tokens: seq<Token>, c: Cursor)
    requires Valid(tokens, c)
    ensures var r := Block(tokens, c); r.Ok? ==> AllDerive(r.value)
    decreases |tokens| - c.pos, 5
  {
    BlockLoopDerives(tokens, c, []);
  }

  lemma {:induction false} BlockLoopDerives(tokens: seq<Token>, c: Cursor, acc: seq<Option<Ast.Stmt>>)
    requires Valid(tokens, c) && AllDerive(acc)
    ensures var r := BlockLoop(tokens, c, acc); r.Ok? ==> AllDerive(r.value)
    decreases |tokens| - c.pos, 4
  {
    if !Check(tokens, c.pos, RightBrace) && !IsAtEnd(tokens, c.pos) {
      DeclarationDerives(tokens, c);
      var d := Declaration(tokens, c);
      AllDeriveAppend(acc, d.value);
      BlockLoopDerives(tokens, d.after, acc + [d.value]);
    }
  }

  lemma {:induction false} ParseLoopDerives(tokens: seq<Token>, c: Cursor, acc: seq<Option<Ast.Stmt>>)
    requires Valid(tokens, c) && AllDerive(acc)
    ensures AllDerive(ParseLoop(tokens, c, acc).value)
    decreases |tokens| - c.pos
  {
    if !IsAtEnd(tokens, c.pos) {
      DeclarationDerives(tokens, c);
      var d := Declaration(tokens, c);
      AllDeriveAppend(acc, d.value);
      ParseLoopDerives(tokens, d.after, acc + [d.value]);
    }
  }

  /** Every statement `parse()` returns is a tree of the grammar. */
  lemma ParseDerives(tokens: seq<Token>)
    requires Wf(tokens)
    ensures AllDerive(Parse(tokens).value)
  {
    ParseLoopDerives(tokens, Cursor(0, []), []);
  }
}
