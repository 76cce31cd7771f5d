/**
 * Variable scopes. An `Environment` is one scope, a map from names to
 * values, linked to the scope that encloses it; `Scopes()` lists the chain
 * outermost first, innermost last. The three operations are proved against
 * pure functions on such lists, and those functions against a description
 * by index: a name resolves to its innermost binding.
 */
module Environments {
  import opened Wrappers
  import opened Tokens
  import opened ErrorHandling

  type Scope = map<string, Value>

  /** A chain of scopes, outermost first, innermost last. */
  type Scopes = seq<Scope>

  /** The value of `name` in the innermost scope that binds it. */
  function Lookup(scopes: Scopes, name: string): Option<Value>
    decreases |scopes|
  {
    if scopes == [] then None
    else if name in scopes[|scopes| - 1] then Some(scopes[|scopes| - 1][name])
    else Lookup(scopes[..|scopes| - 1], name)
  }

  /** `define`: bind `name` in the innermost scope, replacing any binding there. */
  function DefineIn(scopes: Scopes, name: string, value: Value): Scopes
    requires |scopes| > 0
  {
    scopes[..|scopes| - 1] + [scopes[|scopes| - 1][name := value]]
  }

  /** `assign`: rebind `name` in the innermost scope that binds it; nothing changes when none does. */
  function Reassign(scopes: Scopes, name: string, value: Value): (r: Scopes)
    ensures |r| == |scopes|
    decreases |scopes|
  {
    if scopes == [] then []
    else if name in scopes[|scopes| - 1] then scopes[..|scopes| - 1] + [scopes[|scopes| - 1][name := value]]
    else Reassign(scopes[..|scopes| - 1], name, value) + [scopes[|scopes| - 1]]
  }

  /** The error `get` and `assign` throw for a name that no scope binds. */
  function Undefined(name: Token): RuntimeError {
    RuntimeError(name, UndefinedVariable(name.lexeme))
  }

  /** `i` is the innermost scope binding `name`. */
  predicate InnermostAt(scopes: Scopes, name: string, i: int) {
    0 <= i < |scopes| && name in scopes[i] && forall j :: i < j < |scopes| ==> name !in scopes[j]
  }

  /** Shadowing: `Lookup` finds nothing exactly when no scope binds the name. */
  lemma {:induction false} LookupUnbound(scopes: Scopes, name: string)
    ensures Lookup(scopes, name).None? <==> forall j :: 0 <= j < |scopes| ==> name !in scopes[j]
    decreases |scopes|
  {
    if scopes != [] {
      LookupUnbound(scopes[..|scopes| - 1], name);
    }
  }

  /** Shadowing: `Lookup` returns the innermost binding. */
  lemma {:induction false} LookupInnermost(scopes: Scopes, name: string, i: int)
    requires InnermostAt(scopes, name, i)
    ensures Lookup(scopes, name) == Some(scopes[i][name])
    decreases |scopes|
  {
    if i < |scopes| - 1 {
      var outer := scopes[..|scopes| - 1];
      assert InnermostAt(outer, name, i);
      LookupInnermost(outer, name, i);
    }
  }

  /** Some scope binds a name exactly when there is an innermost one. */
  lemma {:induction false} InnermostExists(scopes: Scopes, name: string)
    requires exists j :: 0 <= j < |scopes| && name in scopes[j]
    ensures exists i :: InnermostAt(scopes, name, i)
    decreases |scopes|
  {
    var last := |scopes| - 1;
    if name !in scopes[last] {
      var outer := scopes[..last];
      var j :| 0 <= j < |scopes| && name in scopes[j];
      assert name in outer[j];
      InnermostExists(outer, name);
      var i :| InnermostAt(outer, name, i);
      assert InnermostAt(scopes, name, i);
    } else {
      assert InnermostAt(scopes, name, last);
    }
  }

  /**
   * `assign` overwrites the binding in the innermost scope that has the
   * name, and changes no other binding of any scope.
   */
  lemma {:induction false} ReassignInnermost(scopes: Scopes, name: string, value: Value, i: int)
    requires InnermostAt(scopes, name, i)
    ensures Reassign(scopes, name, value) == scopes[i := scopes[i][name := value]]
    decreases |scopes|
  {
    var outer := scopes[..|scopes| - 1];
    var last := scopes[|scopes| - 1];
    if i < |scopes| - 1 {
      assert InnermostAt(outer, name, i);
      ReassignInnermost(outer, name, value, i);
      assert outer[i := outer[i][name := value]] + [last] == scopes[i := scopes[i][name := value]];
    } else {
      assert outer + [last[name := value]] == scopes[i := scopes[i][name := value]];
    }
  }

  /** `assign` of a name no scope binds changes nothing. */
  lemma {:induction false} ReassignUnbound(scopes: Scopes, name: string, value: Value)
    requires Lookup(scopes, name).None?
    ensures Reassign(scopes, name, value) == scopes
    decreases |scopes|
  {
    if scopes != [] {
      var outer := scopes[..|scopes| - 1];
      ReassignUnbound(outer, name, value);
      assert outer + [scopes[|scopes| - 1]] == scopes;
    }
  }

  /** `get` right after `define` on the same scope chain returns the defined value. */
  lemma LookupAfterDefine(scopes: Scopes, name: string, value: Value)
    requires |scopes| > 0
    ensures Lookup(DefineIn(scopes, name, value), name) == Some(value)
  {
  }

  /** `define` leaves every other name's value as it was. */
  lemma LookupOtherAfterDefine(scopes: Scopes, name: string, other: string, value: Value)
    requires |scopes| > 0 && other != name
    ensures Lookup(DefineIn(scopes, name, value), other) == Lookup(scopes, other)
  {
    var s := DefineIn(scopes, name, value);
    assert s[..|s| - 1] == scopes[..|scopes| - 1];
  }

  /** After `assign` of a bound name, `get` returns the new value; no other name's value changes. */
  lemma {:induction false} LookupAfterReassign(scopes: Scopes, name: string, other: string, value: Value)
    ensures Lookup(scopes, name).Some? ==> Lookup(Reassign(scopes, name, value), name) == Some(value)
    ensures other != name ==> Lookup(Reassign(scopes, name, value), other) == Lookup(scopes, other)
    decreases |scopes|
  {
    if scopes != [] {
      var s := Reassign(scopes, name, value);
      var outer := scopes[..|scopes| - 1];
      var last := scopes[|scopes| - 1];
      if name in last {
        assert s[..|s| - 1] == outer;
      } else {
        assert s[..|s| - 1] == Reassign(outer, name, value);
        LookupAfterReassign(outer, name, other, value);
      }
    }
  }

  /** `assign` keeps the number of scopes and the names each one binds. */
  lemma {:induction false} ReassignKeepsNames(scopes: Scopes, name: string, value: Value)
    ensures forall i :: 0 <= i < |scopes| ==> Reassign(scopes, name, value)[i].Keys == scopes[i].Keys
    decreases |scopes|
  {
    if scopes != [] {
      ReassignKeepsNames(scopes[..|scopes| - 1], name, value);
    }
  }

  /**
   * One scope: its own bindings and the scope it is nested in. `Repr` is
   * this scope and every scope enclosing it, so lookups only ever follow
   * `enclosing` links.
   */
  class Environment {
    const enclosing: Environment?
    var values: Scope
    ghost const Repr: set<Environment>
    ghost const depth: nat

    ghost predicate Valid()
      decreases depth
    {
      && this in Repr
      && (enclosing == null ==> Repr == {this} && depth == 0)
      && (enclosing != null ==>
            && enclosing.depth < depth
            && Repr == {this} + enclosing.Repr
            && this !in enclosing.Repr
            && enclosing.Valid())
    }

    /** The chain of scopes from the outermost to this one. */
    ghost function Scopes(): (s: Scopes)
      requires Valid()
      reads Repr
      ensures |s| > 0 && s[|s| - 1] == values
      decreases depth
    {
      if enclosing == null then [values] else enclosing.Scopes() + [values]
    }

    /** A new empty scope nested in `enclosing`, or the global scope when there is none. */
    constructor (enclosing: Environment?)
      requires enclosing != null ==> enclosing.Valid()
      ensures Valid() && this.enclosing == enclosing && values == map[]
      ensures Scopes() == (if enclosing == null then [] else enclosing.Scopes()) + [map[]]
      ensures enclosing != null ==> Repr == {this} + enclosing.Repr
    {
      this.enclosing := enclosing;
      values := map[];
      Repr := if enclosing == null then {this} else {this} + enclosing.Repr;
      depth := if enclosing == null then 0 else enclosing.depth + 1;
    }

    /** `define`: only this scope changes. */
    method Define(name: Token, value: Value)
      requires Valid()
      modifies this`values
      ensures values == old(values)[name.lexeme := value]
      ensures Scopes() == DefineIn(old(Scopes()), name.lexeme, value)
    {
      values := values[name.lexeme := value];
    }

    /** `assign`: the innermost binding of the name is overwritten, or `Undefined` is thrown. */
    method Assign(name: Token, value: Value) returns (error: Option<RuntimeError>)
      requires Valid()
      modifies Repr
      ensures error.None? <==> Lookup(old(Scopes()), name.lexeme).Some?
      ensures error.Some? ==> error.value == Undefined(name)
      ensures Scopes() == Reassign(old(Scopes()), name.lexeme, value)
      decreases depth
    {
      if name.lexeme in values {
        values := values[name.lexeme := value];
        return None;
      }
      if enclosing != null {
        error := enclosing.Assign(name, value);
        return;
      }
      return Some(Undefined(name));
    }

    /** `get`: the innermost binding of the name, or `Undefined` thrown. */
    method Get(name: Token) returns (r: Result<Value, RuntimeError>)
      requires Valid()
      ensures r.Success? <==> Lookup(Scopes(), name.lexeme).Some?
      ensures r.Success? ==> Lookup(Scopes(), name.lexeme) == Some(r.value)
      ensures r.Failure? ==> r.error == Undefined(name)
      decreases depth
    {
      if name.lexeme in values {
        return Success(values[name.lexeme]);
      }
      if enclosing != null {
        r := enclosing.Get(name);
        return;
      }
      return Failure(Undefined(name));
    }
  }
}
