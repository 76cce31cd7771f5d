/**
 * The interpreter as the source writes it: an object holding the current
 * environment, which blocks replace and restore, and the lines `print` has
 * written. Every method is proved to do what the matching function of
 * `Semantics` says, on the scope chain of the current environment.
 */
module Interpreting {
  import opened Wrappers
  import opened Tokens
  import opened ErrorHandling
  import opened Ast
  import opened Environments
  import opened Semantics

  class Interpreter {
    var environment: Environment
    /** The lines written by `println`, in order. */
    var output: seq<string>
    /** The errors passed to `ErrorHandling.runtimeError`, in order. */
    var runtimeErrors: seq<RuntimeError>
    /** `Double.toString`, which this model does not define. */
    const numText: real -> string

    ghost predicate Valid()
      reads this
    {
      environment.Valid()
    }

    /** A fresh interpreter whose environment is one empty global scope. */
    constructor (numText: real -> string)
      ensures Valid() && fresh(environment) && this.numText == numText
      ensures environment.Scopes() == [map[]] && output == [] && runtimeErrors == []
    {
      this.numText := numText;
      environment := new Environment(null);
      output, runtimeErrors := [], [];
    }

    /** `evaluate`: the value or fault of `Eval`, leaving the scopes as `Eval` does. */
    method Evaluate(e: Expr) returns (r: Result<Value, Fault>)
      requires Valid()
      modifies environment.Repr
      ensures Valid()
      ensures Evaluated(r, environment.Scopes()) == Eval(old(environment.Scopes()), e)
      decreases e
    {
      match e
      case Literal(v) =>
        r := Success(v);
      case Grouping(inner) =>
        r := Evaluate(inner);
      case Unary(operator, right) =>
        var v := Evaluate(right);
        if v.Failure? {
          return v;
        }
        r := UnaryOp(operator, v.value);
      case Binary(left, operator, right) =>
        var l := Evaluate(left);
        if l.Failure? {
          return l;
        }
        var v := Evaluate(right);
        if v.Failure? {
          return v;
        }
        r := BinaryOp(operator, l.value, v.value);
      case Ternary(first, second, third) =>
        r := EvaluateTernary(first, second, third);
      case Variable(name) =>
        var v := environment.Get(name);
        r := if v.Success? then Success(v.value) else Failure(Thrown(v.error));
      case Assign(name, value) =>
        var v := Evaluate(value);
        if v.Failure? {
          return v;
        }
        ghost var before := environment.Scopes();
        var error := environment.Assign(name, v.value);
        if error.Some? {
          ReassignUnbound(before, name.lexeme, v.value);
          return Failure(Thrown(error.value));
        }
        r := v;
    }

    /** `visitTernaryExpr`: all three operands, then the second or third by the first's truth. */
    method EvaluateTernary(first: Expr, second: Expr, third: Expr) returns (r: Result<Value, Fault>)
      requires Valid()
      modifies environment.Repr
      ensures Valid()
      ensures Evaluated(r, environment.Scopes()) == Eval(old(environment.Scopes()), Ternary(first, second, third))
      decreases Ternary(first, second, third), 0
    {
      var a := Evaluate(first);
      if a.Failure? {
        return a;
      }
      var b := Evaluate(second);
      if b.Failure? {
        return b;
      }
      var c := Evaluate(third);
      if c.Failure? {
        return c;
      }
      r := if IsTruthy(a.value) then b else c;
    }

    /** `execute`: the fault, scopes and printed lines of `Exec`; the current environment is the same object afterwards. */
    method Execute(s: Stmt) returns (fault: Option<Fault>)
      requires Valid()
      modifies this, environment.Repr
      ensures Valid() && environment == old(environment) && runtimeErrors == old(runtimeErrors)
      ensures var r := Exec(numText, old(environment.Scopes()), s);
              fault == r.fault && environment.Scopes() == r.scopes && output == old(output) + r.printed
      decreases s, 1, 0
    {
      match s
      case Expression(e) =>
        var v := Evaluate(e);
        fault := FaultOf(v);
      case Print(e) =>
        var v := Evaluate(e);
        if v.Failure? {
          return Some(v.error);
        }
        output := output + [Stringify(numText, v.value)];
        fault := None;
      case VarDecl(name, initializer) =>
        fault := ExecuteVarDecl(name, initializer);
      case Block(statements) =>
        var env := new Environment(environment);
        fault := ExecuteBlock(statements, env);
    }

    /** `visitVariableStmt`: the initializer's value, or `nil` without one, defined in the current scope. */
    method ExecuteVarDecl(name: Token, initializer: Option<Expr>) returns (fault: Option<Fault>)
      requires Valid()
      modifies environment.Repr
      ensures Valid()
      ensures var r := Exec(numText, old(environment.Scopes()), VarDecl(name, initializer));
              fault == r.fault && environment.Scopes() == r.scopes && r.printed == []
    {
      var value := NilValue;
      if initializer.Some? {
        var v := Evaluate(initializer.value);
        if v.Failure? {
          return Some(v.error);
        }
        value := v.value;
      }
      environment.Define(name, value);
      fault := None;
    }

    /**
     * `executeBlock`: the statements in `env`; the previous environment is
     * current again afterwards, whether the block completed or failed.
     */
    method ExecuteBlock(statements: seq<Option<Stmt>>, env: Environment) returns (fault: Option<Fault>)
      requires Valid() && env.Valid() && env.enclosing == environment
      modifies this, env.Repr
      ensures Valid() && environment == old(environment) && runtimeErrors == old(runtimeErrors)
      ensures var r := ExecFrom(numText, old(env.Scopes()), statements, 0);
              && fault == r.fault
              && environment.Scopes() == r.scopes[..|r.scopes| - 1]
              && output == old(output) + r.printed
      decreases Block(statements), 0, 1
    {
      var previous := environment;
      ghost var before := env.Scopes();
      environment := env;
      assert env.Scopes() == before;
      fault := ExecuteStatements(statements);
      ghost var after := env.Scopes();
      assert after == previous.Scopes() + [env.values];
      environment := previous;
      assert after[..|after| - 1] == environment.Scopes();
    }

    /** The `try` body of `executeBlock`: `execute(statement!!)` for each entry, up to the first fault. */
    method ExecuteStatements(statements: seq<Option<Stmt>>) returns (fault: Option<Fault>)
      requires Valid()
      modifies this, environment.Repr
      ensures Valid() && environment == old(environment) && runtimeErrors == old(runtimeErrors)
      ensures var r := ExecFrom(numText, old(environment.Scopes()), statements, 0);
              fault == r.fault && environment.Scopes() == r.scopes && output == old(output) + r.printed
      decreases Block(statements), 0, 0
    {
      ghost var output0 := output;
      ghost var goal := ExecFrom(numText, environment.Scopes(), statements, 0);
      fault := None;
      var i := 0;
      while i < |statements|
        invariant 0 <= i <= |statements| && Valid() && environment == old(environment) && fault.None?
        invariant runtimeErrors == old(runtimeErrors)
        invariant var rest := ExecFrom(numText, environment.Scopes(), statements, i);
                  && goal.fault == rest.fault && goal.scopes == rest.scopes
                  && output0 + goal.printed == output + rest.printed
      {
        if statements[i].None? {
          fault := Some(Aborted(NullStatement));
          break;
        }
        ghost var before, printed := environment.Scopes(), output;
        fault := Execute(statements[i].value);
        if fault.Some? {
          break;
        }
        AppendAssoc(printed, Exec(numText, before, statements[i].value).printed, ExecFrom(numText, environment.Scopes(), statements, i + 1).printed);
        i := i + 1;
      }
    }

    /**
     * `interpret`: the statements run up to the first fault; a thrown
     * `RuntimeError` is reported, any other failure escapes.
     */
    method Interpret(statements: seq<Option<Stmt>>) returns (escaped: Option<Abort>)
      requires Valid()
      modifies this, environment.Repr
      ensures Valid() && environment == old(environment)
      ensures var r := InterpretFrom(numText, old(environment.Scopes()), statements, 0);
              && environment.Scopes() == r.scopes
              && output == old(output) + r.printed
              && escaped == (if r.fault.Some? && r.fault.value.Aborted? then Some(r.fault.value.reason) else None)
              && runtimeErrors == old(runtimeErrors) + (if r.fault.Some? && r.fault.value.Thrown? then [r.fault.value.error] else [])
    {
      var fault := InterpretStatements(statements);
      if fault.Some? && fault.value.Thrown? {
        runtimeErrors := runtimeErrors + [fault.value.error];
      }
      escaped := if fault.Some? && fault.value.Aborted? then Some(fault.value.reason) else None;
    }

    /** The `try` body of `interpret`: each non-null statement, up to the first fault. */
    method InterpretStatements(statements: seq<Option<Stmt>>) returns (fault: Option<Fault>)
      requires Valid()
      modifies this, environment.Repr
      ensures Valid() && environment == old(environment) && runtimeErrors == old(runtimeErrors)
      ensures var r := InterpretFrom(numText, old(environment.Scopes()), statements, 0);
              fault == r.fault && environment.Scopes() == r.scopes && output == old(output) + r.printed
    {
      ghost var output0 := output;
      ghost var goal := InterpretFrom(numText, environment.Scopes(), statements, 0);
      fault := None;
      var i := 0;
      while i < |statements|
        invariant 0 <= i <= |statements| && Valid() && environment == old(environment) && fault.None?
        invariant runtimeErrors == old(runtimeErrors)
        invariant var rest := InterpretFrom(numText, environment.Scopes(), statements, i);
                  && goal.fault == rest.fault && goal.scopes == rest.scopes
                  && output0 + goal.printed == output + rest.printed
      {
        if statements[i].Some? {
          ghost var before, printed := environment.Scopes(), output;
          fault := Execute(statements[i].value);
          if fault.Some? {
            break;
          }
          AppendAssoc(printed, Exec(numText, before, statements[i].value).printed, InterpretFrom(numText, environment.Scopes(), statements, i + 1).printed);
        }
        i := i + 1;
      }
    }
  }
}
