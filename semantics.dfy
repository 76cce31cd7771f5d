/**
 * What evaluating an expression and executing a statement do, as pure
 * functions of the scope chain: the operator rules of the interpreter on
 * values, then `Eval`, `Exec` and the two statement-list loops (inside a
 * block, and at the top level). `Interpreting.Interpreter` is proved to
 * compute exactly these.
 */
module Semantics {
  import opened Wrappers
  import opened Tokens
  import opened ErrorHandling
  import opened Ast
  import opened Environments

  /**
   * Failures that the interpreter does not catch: the JVM's
   * `ClassCastException` of unary minus on a non-number and
   * `NullPointerException` on a hole in a block, and a quotient by zero,
   * whose IEEE value (an infinity or NaN) the exact numbers of this model do
   * not have.
   */
  datatype Abort = NotADouble | NullStatement | NonFiniteQuotient

  /** Why an evaluation stopped: a `RuntimeError` thrown, or an uncaught failure. */
  datatype Fault = Thrown(error: RuntimeError) | Aborted(reason: Abort)

  /** `isTruthy`: only `nil` and `false` are false. */
  function IsTruthy(v: Value): (b: bool)
    ensures b <==> v != NilValue && v != Bool(false)
  {
    match v
    case NilValue => false
    case Bool(b) => b
    case _ => true
  }

  /** `isEqual`: the source's `==`, equality of values of the same kind. */
  function IsEqual(a: Value, b: Value): (r: bool)
    ensures r ==> a.Num? == b.Num? && a.Str? == b.Str? && a.Bool? == b.Bool?
    ensures a.Num? && b.Num? ==> (r <==> a.n == b.n)
    ensures a.Str? && b.Str? ==> (r <==> a.s == b.s)
    ensures a.Bool? && b.Bool? ==> (r <==> a.b == b.b)
    ensures a.NilValue? && b.NilValue? ==> r
  {
    a == b
  }

  /** The operators that go through `checkNumberOperands`. */
  const NumberOperators: set<TokenType> := {Minus, Slash, Star, Greater, GreaterEqual, Less, LessEqual}

  /** `visitUnaryExpr` once its operand is evaluated. */
  function UnaryOp(operator: Token, right: Value): Result<Value, Fault> {
    if operator.kind == Bang then Success(Bool(!IsTruthy(right)))
    else if operator.kind == Minus then
      (if right.Num? then Success(Num(-right.n)) else Failure(Aborted(NotADouble)))
    else Success(NilValue)
  }

  /** The arithmetic and comparison cases of `visitBinaryExpr` on two numbers. */
  function Arithmetic(kind: TokenType, a: real, b: real): Result<Value, Fault>
    requires kind in NumberOperators
  {
    match kind
    case Minus => Success(Num(a - b))
    case Slash => if b == 0.0 then Failure(Aborted(NonFiniteQuotient)) else Success(Num(a / b))
    case Star => Success(Num(a * b))
    case Greater => Success(Bool(a > b))
    case GreaterEqual => Success(Bool(a >= b))
    case Less => Success(Bool(a < b))
    case LessEqual => Success(Bool(a <= b))
  }

  /** `visitBinaryExpr` once both operands are evaluated. */
  function BinaryOp(operator: Token, left: Value, right: Value): Result<Value, Fault> {
    var kind := operator.kind;
    if kind == Plus then
      if left.Num? && right.Num? then Success(Num(left.n + right.n))
      else if left.Str? && right.Str? then Success(Str(left.s + right.s))
      else Success(NilValue)
    else if kind == EqualEqual then Success(Bool(IsEqual(left, right)))
    else if kind == BangEqual then Success(Bool(!IsEqual(left, right)))
    else if kind !in NumberOperators then Success(NilValue)
    else if !(left.Num? && right.Num?) then Failure(Thrown(RuntimeError(operator, OperandsMustBeNumbers)))
    else Arithmetic(kind, left.n, right.n)
  }

  /**
   * `+` adds two numbers, joins two strings, and is `nil` for any other
   * pair; it never fails.
   */
  lemma PlusCases(operator: Token, left: Value, right: Value)
    requires operator.kind == Plus
    ensures var r := BinaryOp(operator, left, right);
            && r.Success?
            && (left.Num? && right.Num? ==> r.value == Num(left.n + right.n))
            && (left.Str? && right.Str? ==> r.value == Str(left.s + right.s))
            && (!(left.Num? && right.Num?) && !(left.Str? && right.Str?) ==> r.value == NilValue)
  {
  }

  /**
   * The numeric operators throw "Operands must be numbers." at the operator
   * exactly when an operand is not a number; the other operators never throw.
   */
  lemma NumberOperands(operator: Token, left: Value, right: Value)
    ensures var r := BinaryOp(operator, left, right);
            r.Failure? && r.error.Thrown? <==> operator.kind in NumberOperators && !(left.Num? && right.Num?)
    ensures var r := BinaryOp(operator, left, right);
            r.Failure? && r.error.Thrown? ==> r.error.error == RuntimeError(operator, OperandsMustBeNumbers)
  {
  }

  /** Operators without a case of their own, `and`, `or` and `,` among them, give `nil`. */
  lemma OtherOperatorsNil(operator: Token, left: Value, right: Value)
    requires operator.kind !in NumberOperators + {Plus, EqualEqual, BangEqual}
    ensures BinaryOp(operator, left, right) == Success(NilValue)
  {
  }

  /** `stringify`: `nil`, a number's text without a trailing ".0", a string as it is. */
  function Stringify(numText: real -> string, v: Value): (text: string)
    ensures v == NilValue ==> text == "nil"
    ensures v.Str? ==> text == v.s
    ensures v.Bool? ==> text == if v.b then "true" else "false"
    ensures v.Num? ==> var full := numText(v.n);
            if EndsWithPointZero(full) then text + ".0" == full else text == full
  {
    match v
    case NilValue => "nil"
    case Bool(b) => if b then "true" else "false"
    case Num(n) =>
      var full := numText(n);
      if EndsWithPointZero(full) then full[..|full| - 2] else full
    case Str(s) => s
  }

  predicate EndsWithPointZero(s: string) {
    |s| >= 2 && s[|s| - 2..] == ".0"
  }

  /** An evaluation's value or fault, and the scopes after it. */
  datatype Evaluated = Evaluated(result: Result<Value, Fault>, scopes: Scopes)

  /**
   * `evaluate`: operands left to right, all of them before the operator is
   * applied; a fault stops the evaluation with the scopes as they are then.
   */
  function Eval(scopes: Scopes, e: Expr): (r: Evaluated)
    ensures |r.scopes| == |scopes|
    ensures r.result != Failure(Aborted(NullStatement))
    decreases e
  {
    match e
    case Literal(v) => Evaluated(Success(v), scopes)
    case Grouping(inner) => Eval(scopes, inner)
    case Unary(operator, right) =>
      var r := Eval(scopes, right);
      if r.result.Failure? then r else Evaluated(UnaryOp(operator, r.result.value), r.scopes)
    case Binary(left, operator, right) =>
      var l := Eval(scopes, left);
      if l.result.Failure? then l
      else
        var r := Eval(l.scopes, right);
        if r.result.Failure? then r else Evaluated(BinaryOp(operator, l.result.value, r.result.value), r.scopes)
    case Ternary(first, second, third) =>
      var a := Eval(scopes, first);
      if a.result.Failure? then a
      else
        var b := Eval(a.scopes, second);
        if b.result.Failure? then b
        else
          var c := Eval(b.scopes, third);
          if c.result.Failure? then c
          else Evaluated(if IsTruthy(a.result.value) then b.result else c.result, c.scopes)
    case Variable(name) =>
      var v := Lookup(scopes, name.lexeme);
      Evaluated(if v.Some? then Success(v.value) else Failure(Thrown(Undefined(name))), scopes)
    case Assign(name, value) =>
      var r := Eval(scopes, value);
      if r.result.Failure? then r
      else if Lookup(r.scopes, name.lexeme).None? then Evaluated(Failure(Thrown(Undefined(name))), r.scopes)
      else Evaluated(r.result, Reassign(r.scopes, name.lexeme, r.result.value))
  }

  /** The names bound in each scope of `a` and `b` are the same. */
  predicate SameNames(a: Scopes, b: Scopes) {
    |a| == |b| && forall i :: 0 <= i < |a| ==> a[i].Keys == b[i].Keys
  }

  /** Evaluation never creates or removes a binding: only `assign` changes values. */
  lemma {:induction false} EvalKeepsNames(scopes: Scopes, e: Expr)
    ensures SameNames(Eval(scopes, e).scopes, scopes)
    decreases e
  {
    match e
    case Literal(_) =>
    case Variable(_) =>
    case Grouping(inner) => EvalKeepsNames(scopes, inner);
    case Unary(_, right) => EvalKeepsNames(scopes, right);
    case Binary(left, _, right) =>
      EvalKeepsNames(scopes, left);
      EvalKeepsNames(Eval(scopes, left).scopes, right);
    case Ternary(first, second, third) =>
      var a := Eval(scopes, first);
      var b := Eval(a.scopes, second);
      EvalKeepsNames(scopes, first);
      EvalKeepsNames(a.scopes, second);
      EvalKeepsNames(b.scopes, third);
    case Assign(name, value) =>
      var r := Eval(scopes, value);
      EvalKeepsNames(scopes, value);
      if r.result.Success? {
        ReassignKeepsNames(r.scopes, name.lexeme, r.result.value);
      }
  }

  /** An expression without assignments leaves every scope as it was. */
  lemma {:induction false} AssignFreeKeepsScopes(scopes: Scopes, e: Expr)
    requires AssignFree(e)
    ensures Eval(scopes, e).scopes == scopes
    decreases e
  {
    match e
    case Literal(_) =>
    case Variable(_) =>
    case Grouping(inner) => AssignFreeKeepsScopes(scopes, inner);
    case Unary(_, right) => AssignFreeKeepsScopes(scopes, right);
    case Binary(left, _, right) =>
      AssignFreeKeepsScopes(scopes, left);
      AssignFreeKeepsScopes(scopes, right);
    case Ternary(first, second, third) =>
      AssignFreeKeepsScopes(scopes, first);
      AssignFreeKeepsScopes(scopes, second);
      AssignFreeKeepsScopes(scopes, third);
  }

  /** An assignment returns the assigned value, which the variable then holds. */
  lemma AssignReturnsValue(scopes: Scopes, name: Token, value: Expr)
    requires Eval(scopes, Assign(name, value)).result.Success?
    ensures var r := Eval(scopes, Assign(name, value));
            && r.result == Eval(scopes, value).result
            && Lookup(r.scopes, name.lexeme) == Some(r.result.value)
  {
    var v := Eval(scopes, value);
    LookupAfterReassign(v.scopes, name.lexeme, name.lexeme, v.result.value);
  }

  /**
   * The ternary evaluates all three operands in order, whatever the
   * condition, and gives the second operand's value exactly when the
   * condition is truthy.
   */
  lemma TernaryEager(scopes: Scopes, first: Expr, second: Expr, third: Expr)
    requires Eval(scopes, first).result.Success?
    requires Eval(Eval(scopes, first).scopes, second).result.Success?
    ensures var a := Eval(scopes, first);
            var b := Eval(a.scopes, second);
            var c := Eval(b.scopes, third);
            var r := Eval(scopes, Ternary(first, second, third));
            && r.scopes == c.scopes
            && (c.result.Success? ==> r.result == if IsTruthy(a.result.value) then b.result else c.result)
  {
  }

  /**
   * No short circuit: for `and`, `or` and `,` both operands are evaluated,
   * whatever the left one's value, and the result is `nil`.
   */
  lemma NoShortCircuit(scopes: Scopes, left: Expr, operator: Token, right: Expr)
    requires operator.kind in {And, Or, Comma}
    requires Eval(scopes, left).result.Success?
    ensures var l := Eval(scopes, left);
            var r := Eval(l.scopes, right);
            var e := Eval(scopes, Binary(left, operator, right));
            && e.scopes == r.scopes
            && (r.result.Success? ==> e.result == Success(NilValue))
  {
  }

  /** What a statement did: the fault that stopped it, the scopes after it, the lines it printed. */
  datatype Executed = Executed(fault: Option<Fault>, scopes: Scopes, printed: seq<string>)

  /** The fault of a result, if it has one. */
  function FaultOf(r: Result<Value, Fault>): Option<Fault> {
    if r.Failure? then Some(r.error) else None
  }

  /** `execute`: a block runs its statements in a new innermost scope, which is dropped afterwards. */
  function Exec(numText: real -> string, scopes: Scopes, s: Stmt): (r: Executed)
    requires |scopes| > 0
    ensures |r.scopes| == |scopes|
    decreases s, 1, 0
  {
    match s
    case Expression(e) =>
      var v := Eval(scopes, e);
      Executed(FaultOf(v.result), v.scopes, [])
    case Print(e) =>
      var v := Eval(scopes, e);
      if v.result.Failure? then Executed(Some(v.result.error), v.scopes, [])
      else Executed(None, v.scopes, [Stringify(numText, v.result.value)])
    case VarDecl(name, initializer) =>
      if initializer.None? then Executed(None, DefineIn(scopes, name.lexeme, NilValue), [])
      else
        var v := Eval(scopes, initializer.value);
        if v.result.Failure? then Executed(Some(v.result.error), v.scopes, [])
        else Executed(None, DefineIn(v.scopes, name.lexeme, v.result.value), [])
    case Block(statements) =>
      var r := ExecFrom(numText, scopes + [map[]], statements, 0);
      Executed(r.fault, r.scopes[..|scopes|], r.printed)
  }

  /** The loop of `executeBlock` from entry `i`: a hole fails with `NullStatement`, a fault stops the loop. */
  function ExecFrom(numText: real -> string, scopes: Scopes, statements: seq<Option<Stmt>>, i: nat): (r: Executed)
    requires |scopes| > 0 && i <= |statements|
    ensures |r.scopes| == |scopes|
    decreases Block(statements), 0, |statements| - i
  {
    if i == |statements| then Executed(None, scopes, [])
    else if statements[i].None? then Executed(Some(Aborted(NullStatement)), scopes, [])
    else
      var r := Exec(numText, scopes, statements[i].value);
      if r.fault.Some? then r
      else
        var rest := ExecFrom(numText, r.scopes, statements, i + 1);
        Executed(rest.fault, rest.scopes, r.printed + rest.printed)
  }

  /** The loop of `interpret` from entry `i`: holes are skipped, the first fault stops the loop. */
  function InterpretFrom(numText: real -> string, scopes: Scopes, statements: seq<Option<Stmt>>, i: nat): (r: Executed)
    requires |scopes| > 0 && i <= |statements|
    ensures |r.scopes| == |scopes|
    decreases |statements| - i
  {
    if i == |statements| then Executed(None, scopes, [])
    else if statements[i].None? then InterpretFrom(numText, scopes, statements, i + 1)
    else
      var r := Exec(numText, scopes, statements[i].value);
      if r.fault.Some? then r
      else
        var rest := InterpretFrom(numText, r.scopes, statements, i + 1);
        Executed(rest.fault, rest.scopes, r.printed + rest.printed)
  }

  /**
   * Only the innermost scope can gain names, and only by `var`; every
   * enclosing scope keeps the names it had. A block therefore leaves no
   * binding of its own behind.
   */
  lemma {:induction false} ExecKeepsOuterNames(numText: real -> string, scopes: Scopes, s: Stmt)
    requires |scopes| > 0
    ensures var r := Exec(numText, scopes, s);
            && (forall i :: 0 <= i < |scopes| - 1 ==> r.scopes[i].Keys == scopes[i].Keys)
            && scopes[|scopes| - 1].Keys <= r.scopes[|scopes| - 1].Keys
    ensures !s.VarDecl? ==> SameNames(Exec(numText, scopes, s).scopes, scopes)
    decreases s, 1, 0
  {
    match s
    case Expression(e) => EvalKeepsNames(scopes, e);
    case Print(e) => EvalKeepsNames(scopes, e);
    case VarDecl(name, initializer) =>
      if initializer.Some? {
        EvalKeepsNames(scopes, initializer.value);
      }
    case Block(statements) =>
      var inner := scopes + [map[]];
      ExecFromKeepsOuterNames(numText, inner, statements, 0);
      var r := ExecFrom(numText, inner, statements, 0);
      assert forall i :: 0 <= i < |scopes| ==> inner[i] == scopes[i];
  }

  lemma {:induction false} ExecFromKeepsOuterNames(numText: real -> string, scopes: Scopes, statements: seq<Option<Stmt>>, i: nat)
    requires |scopes| > 0 && i <= |statements|
    ensures var r := ExecFrom(numText, scopes, statements, i);
            && (forall j :: 0 <= j < |scopes| - 1 ==> r.scopes[j].Keys == scopes[j].Keys)
            && scopes[|scopes| - 1].Keys <= r.scopes[|scopes| - 1].Keys
    decreases Block(statements), 0, |statements| - i
  {
    if i < |statements| && statements[i].Some? {
      ExecKeepsOuterNames(numText, scopes, statements[i].value);
      var r := Exec(numText, scopes, statements[i].value);
      if r.fault.None? {
        ExecFromKeepsOuterNames(numText, r.scopes, statements, i + 1);
      }
    }
  }

  /** `var x;` binds `x` to `nil` in the innermost scope. */
  lemma VarWithoutInitializer(numText: real -> string, scopes: Scopes, name: Token)
    requires |scopes| > 0
    ensures var r := Exec(numText, scopes, VarDecl(name, None));
            && r.fault.None? && r.printed == []
            && r.scopes[|scopes| - 1] == scopes[|scopes| - 1][name.lexeme := NilValue]
            && Lookup(r.scopes, name.lexeme) == Some(NilValue)
  {
  }

  /** A statement tree without holes never fails on a `null` statement. */
  lemma {:induction false} NoHolesNoNull(numText: real -> string, scopes: Scopes, s: Stmt)
    requires |scopes| > 0 && StmtNoHoles(s)
    ensures Exec(numText, scopes, s).fault != Some(Aborted(NullStatement))
    decreases s, 1, 0
  {
    match s
    case Expression(_) =>
    case Print(_) =>
    case VarDecl(_, _) =>
    case Block(statements) => NoHolesFromNoNull(numText, scopes + [map[]], statements, 0);
  }

  lemma {:induction false} NoHolesFromNoNull(numText: real -> string, scopes: Scopes, statements: seq<Option<Stmt>>, i: nat)
    requires |scopes| > 0 && i <= |statements| && NoHoles(statements)
    ensures ExecFrom(numText, scopes, statements, i).fault != Some(Aborted(NullStatement))
    decreases Block(statements), 0, |statements| - i
  {
    if i < |statements| {
      NoHolesNoNull(numText, scopes, statements[i].value);
      var r := Exec(numText, scopes, statements[i].value);
      if r.fault.None? {
        NoHolesFromNoNull(numText, r.scopes, statements, i + 1);
      }
    }
  }

  /** On a list without holes, the top-level loop and the block loop agree. */
  lemma {:induction false} InterpretAsBlockLoop(numText: real -> string, scopes: Scopes, statements: seq<Option<Stmt>>, i: nat)
    requires |scopes| > 0 && i <= |statements| && NoHoles(statements)
    ensures InterpretFrom(numText, scopes, statements, i) == ExecFrom(numText, scopes, statements, i)
    decreases |statements| - i
  {
    if i < |statements| {
      var r := Exec(numText, scopes, statements[i].value);
      if r.fault.None? {
        InterpretAsBlockLoop(numText, r.scopes, statements, i + 1);
      }
    }
  }

  /** The entries of a statement list that are present, in order. */
  function Holeless(ss: seq<Option<Stmt>>): (r: seq<Option<Stmt>>)
    ensures forall k :: 0 <= k < |r| ==> r[k].Some?
  {
    if ss == [] then []
    else if ss[0].None? then Holeless(ss[1..])
    else [ss[0]] + Holeless(ss[1..])
  }

  /** The block loop from entry `i` is the block loop from `i - 1` on the list without its first entry. */
  lemma {:induction false} ExecFromDrop(numText: real -> string, scopes: Scopes, ss: seq<Option<Stmt>>, i: nat)
    requires |scopes| > 0 && 0 < i <= |ss|
    ensures ExecFrom(numText, scopes, ss, i) == ExecFrom(numText, scopes, ss[1..], i - 1)
    decreases |ss| - i
  {
    if i < |ss| {
      assert ss[1..][i - 1] == ss[i];
      if ss[i].Some? {
        var r := Exec(numText, scopes, ss[i].value);
        if r.fault.None? {
          ExecFromDrop(numText, r.scopes, ss, i + 1);
        }
      }
    }
  }

  /**
   * `interpret` skips the holes of the top-level list: it runs the present
   * statements as the block loop would, so a hole there never fails.
   */
  lemma {:induction false} InterpretSkipsHoles(numText: real -> string, scopes: Scopes, statements: seq<Option<Stmt>>, i: nat)
    requires |scopes| > 0 && i <= |statements|
    ensures InterpretFrom(numText, scopes, statements, i) == ExecFrom(numText, scopes, Holeless(statements[i..]), 0)
    decreases |statements| - i
  {
    if i == |statements| {
      assert statements[i..] == [];
    } else {
      var t := statements[i..];
      assert t[0] == statements[i] && t[1..] == statements[i + 1..];
      if statements[i].None? {
        InterpretSkipsHoles(numText, scopes, statements, i + 1);
      } else {
        var h := Holeless(t);
        assert h == [statements[i]] + Holeless(statements[i + 1..]);
        var r := Exec(numText, scopes, statements[i].value);
        if r.fault.None? {
          InterpretSkipsHoles(numText, r.scopes, statements, i + 1);
          ExecFromDrop(numText, r.scopes, h, 1);
          assert h[1..] == Holeless(statements[i + 1..]);
        }
      }
    }
  }
}
