/**
 * The reports the source writes to standard error, kept as values. Every
 * message the scanner, the parser and the interpreter can report is one
 * constructor of `Message`, and `Text` gives its exact wording; a static
 * error is a (line, place, message) triple, a runtime error names the token
 * it happened at.
 */
module ErrorHandling {
  import opened Tokens

  datatype Message =
    // Scanner.
    | UnexpectedCharacter
    | UnterminatedString
    // Parser.
    | ExpectVariableName
    | ExpectSemicolonAfterVariable
    | ExpectRightBrace
    | ExpectSemicolonAfterValue
    | InvalidAssignmentTarget
    | ExpectColon
    | ExpectRightParen
    | ExpectExpression
    // Interpreter and environment.
    | OperandsMustBeNumbers
    | UndefinedVariable(name: string)

  /** The wording of each message, as the source spells it. */
  function Text(m: Message): string {
    match m
    case UnexpectedCharacter => "Unexpected character."
    case UnterminatedString => "Unterminated string."
    case ExpectVariableName => "Expect the identifier name after the variable name."
    case ExpectSemicolonAfterVariable => "Expect ';' variable declaration."
    case ExpectRightBrace => "Expect '}' after block."
    case ExpectSemicolonAfterValue => "Expect ';' after value."
    case InvalidAssignmentTarget => "Invalid assignment target."
    case ExpectColon => "Expect ':' operator for after then branch"
    case ExpectRightParen => "Expect ')' after expression."
    case ExpectExpression => "Expect expression."
    case OperandsMustBeNumbers => "Operands must be numbers."
    case UndefinedVariable(name) => "Undefined variable '" + name + "'."
  }

  /** Where a static error is placed: at the end, or at a token's lexeme. */
  datatype Place = AtEnd | AtLexeme(lexeme: string)

  /** The `where` text of a report. */
  function PlaceText(p: Place): string {
    match p
    case AtEnd => " at end"
    case AtLexeme(lexeme) => " at '" + lexeme + "'"
  }

  datatype Diagnostic = Diagnostic(line: nat, place: Place, message: Message)

  datatype RuntimeError = RuntimeError(token: Token, message: Message)

  /** A static error reported at a token: "at end" for the end-of-file token, the lexeme otherwise. */
  function TokenError(token: Token, message: Message): (d: Diagnostic)
    ensures d.line == token.line && d.message == message
    ensures d.place == AtEnd <==> token.kind == Eof
    ensures token.kind != Eof ==> PlaceText(d.place) == " at '" + token.lexeme + "'"
  {
    if token.kind == Eof then Diagnostic(token.line, AtEnd, message)
    else Diagnostic(token.line, AtLexeme(token.lexeme), message)
  }

  /** A static error reported at a line only; the source places every such report "at end". */
  function LineError(line: nat, message: Message): (d: Diagnostic)
    ensures d.line == line && d.message == message && PlaceText(d.place) == " at end"
  {
    Diagnostic(line, AtEnd, message)
  }
}
