/**
 * The token model shared by the scanner and the parser: the token kinds the
 * scanner emits and the parser inspects, the literal values tokens carry, and
 * the token record itself.
 */
module Tokens {
  datatype TokenType =
    // Single-character punctuation.
    | LeftParen | RightParen | LeftBrace | RightBrace
    | Comma | Dot | Minus | Plus | Semicolon | Slash | Star
    | QuestionMark | Colon
    // One- or two-character operators.
    | Bang | BangEqual | Equal | EqualEqual
    | Greater | GreaterEqual | Less | LessEqual
    // Literals.
    | Identifier | String | Number
    // Keywords.
    | And | Class | Else | False | Fun | For | If | Nil | Or
    | Print | Return | Super | This | True | Var | While
    | Eof

  /**
   * A runtime value: the source's `Any?` restricted to what this language
   * produces. Numbers are exact reals standing for the source's doubles.
   */
  datatype Value = NilValue | Bool(b: bool) | Num(n: real) | Str(s: string)

  /** `literal` is `NilValue` where the source stores `null`. */
  datatype Token = Token(kind: TokenType, lexeme: string, literal: Value, line: nat)

  /**
   * A value's `toString()`, with `null` spelled "null"; `numText` stands for
   * the platform's formatting of a double.
   */
  function ValueToString(numText: real -> string, v: Value): string {
    match v
    case NilValue => "null"
    case Bool(b) => if b then "true" else "false"
    case Num(n) => numText(n)
    case Str(s) => s
  }
}
