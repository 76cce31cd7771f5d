/**
 * The scanner's behaviour as pure functions of the source text: one
 * function per `while` loop of the scanner (the index where it stops), one
 * step function for `scanToken`, and `ScanFrom` for the whole `scanTokens`
 * loop. The `Scanning.Scanner` class is proved to compute exactly these.
 */
module Lexical {
  import opened Wrappers
  import opened Tokens
  import opened ErrorHandling

  /** What `peek` returns past the end of the source. */
  const NUL: char := '\0'

  predicate IsDigit(c: char) { '0' <= c <= '9' }

  predicate IsAlpha(c: char) { ('a' <= c <= 'z') || ('A' <= c <= 'Z') || c == '_' }

  predicate IsAlphaNumeric(c: char) { IsAlpha(c) || IsDigit(c) }

  predicate AllDigits(s: string) { forall i :: 0 <= i < |s| ==> IsDigit(s[i]) }

  /** The reserved words and their token kinds. */
  const Keywords: map<string, TokenType> := map[
    "and" := And, "class" := Class, "else" := Else, "false" := False,
    "for" := For, "fun" := Fun, "if" := If, "nil" := Nil,
    "or" := Or, "print" := Print, "return" := Return, "super" := Super,
    "this" := This, "true" := True, "var" := Var, "while" := While
  ]

  /** The character at `i`, or NUL past the end (`peek` at `i`). */
  function PeekAt(source: string, i: nat): char {
    if i >= |source| then NUL else source[i]
  }

  /** The number of newline characters in `source[i..]`. */
  function NewlinesFrom(source: string, i: nat): nat
    decreases |source| - i
  {
    if i >= |source| then 0 else (if source[i] == '\n' then 1 else 0) + NewlinesFrom(source, i + 1)
  }

  /** Skipping a span without newlines leaves the count of newlines ahead unchanged. */
  lemma {:induction false} NoNewlines(source: string, i: nat, j: nat)
    requires i <= j <= |source|
    requires forall k :: i <= k < j && k > i ==> source[k] != '\n'
    requires i < j ==> source[i] != '\n'
    ensures NewlinesFrom(source, i) == NewlinesFrom(source, j)
    decreases j - i
  {
    if i < j {
      NoNewlines(source, i + 1, j);
    }
  }

  /** Where `while (isAlphaNumeric(peek())) advance()` stops: the end of the longest alphanumeric run from `i`. */
  function IdentifierEnd(source: string, i: nat): (j: nat)
    requires i <= |source|
    ensures i <= j <= |source|
    ensures forall k :: i <= k < j ==> IsAlphaNumeric(source[k])
    ensures j == |source| || !IsAlphaNumeric(source[j])
    decreases |source| - i
  {
    if i < |source| && IsAlphaNumeric(source[i]) then IdentifierEnd(source, i + 1) else i
  }

  /** Where `while (isDigit(peek())) advance()` stops: the end of the longest digit run from `i`. */
  function DigitsEnd(source: string, i: nat): (j: nat)
    requires i <= |source|
    ensures i <= j <= |source|
    ensures forall k :: i <= k < j ==> IsDigit(source[k])
    ensures j == |source| || !IsDigit(source[j])
    decreases |source| - i
  {
    if i < |source| && IsDigit(source[i]) then DigitsEnd(source, i + 1) else i
  }

  /** Where a line comment's loop stops: the next newline, which is not consumed, or the end. */
  function CommentEnd(source: string, i: nat): (j: nat)
    requires i <= |source|
    ensures i <= j <= |source|
    ensures forall k :: i <= k < j ==> source[k] != '\n'
    ensures j == |source| || source[j] == '\n'
    decreases |source| - i
  {
    if i < |source| && source[i] != '\n' then CommentEnd(source, i + 1) else i
  }

  /** Where `number()` stops: digits, then a dot and digits only when a digit follows the dot. */
  function NumberEnd(source: string, i: nat): (j: nat)
    requires i <= |source|
    ensures i <= j <= |source|
    ensures forall k :: i <= k < j ==> IsDigit(source[k]) || source[k] == '.'
  {
    var k := DigitsEnd(source, i);
    if PeekAt(source, k) == '.' && IsDigit(PeekAt(source, k + 1)) then DigitsEnd(source, k + 1) else k
  }

  /** The index of the first dot, or the length when there is none. */
  function DotIndex(s: string): (k: nat)
    ensures k <= |s|
    ensures forall i :: 0 <= i < k ==> s[i] != '.'
    ensures k < |s| ==> s[k] == '.'
  {
    if s == [] then 0 else if s[0] == '.' then 0 else 1 + DotIndex(s[1..])
  }

  /** Digits, optionally followed by a dot and at least one digit: what `toDouble` is given. */
  predicate IsNumberText(s: string) {
    var k := DotIndex(s);
    0 < k && AllDigits(s[..k]) && (k < |s| ==> k + 1 < |s| && AllDigits(s[k + 1..]))
  }

  function DigitsValue(s: string): nat
    requires AllDigits(s)
  {
    if s == [] then 0 else 10 * DigitsValue(s[..|s| - 1]) + (s[|s| - 1] as int - '0' as int)
  }

  /** The value of the digits after a decimal point: `0.d1d2...dn`. */
  function FractionValue(s: string): (v: real)
    requires AllDigits(s)
    ensures 0.0 <= v <= 1.0
  {
    if s == [] then 0.0 else ((s[0] as int - '0' as int) as real + FractionValue(s[1..])) / 10.0
  }

  /** The exact decimal value of a number lexeme (the source rounds it to the nearest double). */
  function ToDouble(text: string): real
    requires IsNumberText(text)
  {
    var k := DotIndex(text);
    if k == |text| then DigitsValue(text) as real
    else DigitsValue(text[..k]) as real + FractionValue(text[k + 1..])
  }

  /** The number lexeme from `i` is well-formed numeric text, so `toDouble` accepts it. */
  lemma NumberTextWellFormed(source: string, i: nat)
    requires i < |source| && IsDigit(source[i])
    ensures IsNumberText(source[i..NumberEnd(source, i + 1)])
  {
    var k := DigitsEnd(source, i + 1);
    var j := NumberEnd(source, i + 1);
    var s := source[i..j];
    if j == k {
      assert forall m :: 0 <= m < |s| ==> s[m] == source[i + m] && IsDigit(s[m]);
      DotIndexOfDigits(s);
    } else {
      assert source[k] == '.';
      assert forall m :: 0 <= m < k - i ==> s[m] == source[i + m] && IsDigit(s[m]);
      assert s[k - i] == '.';
      DotIndexAt(s, k - i);
      assert s[..k - i] == source[i..k];
      assert s[k - i + 1..] == source[k + 1..j];
    }
  }

  lemma {:induction false} DotIndexOfDigits(s: string)
    requires AllDigits(s)
    ensures DotIndex(s) == |s|
  {
    if s != [] {
      DotIndexOfDigits(s[1..]);
    }
  }

  lemma {:induction false} DotIndexAt(s: string, k: nat)
    requires k < |s| && s[k] == '.'
    requires forall i :: 0 <= i < k ==> s[i] != '.'
    ensures DotIndex(s) == k
  {
    if k > 0 {
      DotIndexAt(s[1..], k - 1);
    }
  }

  /** The kind of an alphanumeric lexeme: its keyword kind when it is a reserved word. */
  function IdentifierKind(text: string): TokenType {
    if text in Keywords then Keywords[text] else Identifier
  }

  /** The kind for a single-character token that needs no lookahead. */
  function SingleCharKind(c: char): Option<TokenType> {
    match c
    case '(' => Some(LeftParen)
    case ')' => Some(RightParen)
    case '{' => Some(LeftBrace)
    case '}' => Some(RightBrace)
    case ',' => Some(Comma)
    case '.' => Some(Dot)
    case '-' => Some(Minus)
    case '+' => Some(Plus)
    case ';' => Some(Semicolon)
    case '*' => Some(Star)
    case '?' => Some(QuestionMark)
    case ':' => Some(Colon)
    case _ => None
  }

  /** The one- and two-character kinds of an operator character that may be followed by `=`. */
  function OperatorKinds(c: char): Option<(TokenType, TokenType)> {
    match c
    case '!' => Some((Bang, BangEqual))
    case '=' => Some((Equal, EqualEqual))
    case '<' => Some((Less, LessEqual))
    case '>' => Some((Greater, GreaterEqual))
    case _ => None
  }

  /**
   * The outcome of one `scanToken` call: where the cursor ends, the new line
   * number, the token added (if any) and the error reported (if any).
   */
  datatype Lexed = Lexed(next: nat, line: nat, token: Option<Token>, error: Option<Diagnostic>)

  /**
   * What every `scanToken` call guarantees: the cursor moves forward, and a
   * token, when one is added, has the consumed text as its lexeme, is not the
   * end-of-file token, carries the current line, and comes without an error.
   */
  predicate StepOk(source: string, start: nat, r: Lexed)
    requires start < |source|
  {
    && start < r.next <= |source|
    && (r.token.Some? ==>
          && r.error.None?
          && r.token.value.lexeme == source[start..r.next]
          && r.token.value.kind != Eof
          && r.token.value.line == r.line)
  }

  /** `addToken`: the lexeme is the text from the token's start to the cursor. */
  function Emit(source: string, start: nat, next: nat, line: nat, kind: TokenType, literal: Value): (r: Lexed)
    requires start < next <= |source| && kind != Eof
    ensures StepOk(source, start, r)
  {
    Lexed(next, line, Some(Token(kind, source[start..next], literal, line)), None)
  }

  /** An operator that takes `two` when followed by `=` and `one` otherwise. */
  function OperatorStep(source: string, start: nat, line: nat, one: TokenType, two: TokenType): (r: Lexed)
    requires start < |source| && one != Eof && two != Eof
    ensures StepOk(source, start, r)
  {
    var cur := start + 1;
    if cur < |source| && source[cur] == '=' then Emit(source, start, cur + 1, line, two, NilValue)
    else Emit(source, start, cur, line, one, NilValue)
  }

  /** `/`: a comment running to the end of the line, or the slash operator. */
  function SlashStep(source: string, start: nat, line: nat): (r: Lexed)
    requires start < |source| && source[start] == '/'
    ensures StepOk(source, start, r)
  {
    var cur := start + 1;
    if cur < |source| && source[cur] == '/' then Lexed(CommentEnd(source, cur + 1), line, None, None)
    else Emit(source, start, cur, line, Slash, NilValue)
  }

  /** `number()` from the first digit at `start`. */
  function NumberStep(source: string, start: nat, line: nat): (r: Lexed)
    requires start < |source| && IsDigit(source[start])
    ensures StepOk(source, start, r)
  {
    var j := NumberEnd(source, start + 1);
    NumberTextWellFormed(source, start);
    Emit(source, start, j, line, Number, Num(ToDouble(source[start..j])))
  }

  /** `identifier()` from the first letter at `start`. */
  function IdentifierStep(source: string, start: nat, line: nat): (r: Lexed)
    requires start < |source| && IsAlpha(source[start])
    ensures StepOk(source, start, r)
  {
    var j := IdentifierEnd(source, start + 1);
    Emit(source, start, j, line, IdentifierKind(source[start..j]), NilValue)
  }

  /**
   * The loop of `string()` from `i`: where it stops (the next double quote,
   * or the end) and the line counter then, which it bumps at each newline.
   */
  function StringBody(source: string, i: nat, line: nat): (r: (nat, nat))
    requires i <= |source|
    ensures i <= r.0 <= |source|
    ensures r.0 == |source| || source[r.0] == '"'
    decreases |source| - i
  {
    if i < |source| && source[i] != '"' then
      StringBody(source, i + 1, if source[i] == '\n' then line + 1 else line)
    else
      (i, line)
  }

  /** `string()` after the opening quote at `start`. */
  function StringStep(source: string, start: nat, line: nat): (r: Lexed)
    requires start < |source| && source[start] == '"'
    ensures StepOk(source, start, r)
  {
    var (j, line') := StringBody(source, start + 1, line);
    if j == |source| then
      Lexed(j, line', None, Some(LineError(line', UnterminatedString)))
    else
      Lexed(j + 1, line', Some(Token(String, source[start..j + 1], Str(source[start + 1..j]), line')), None)
  }

  /** One `scanToken` call from `start`, with `line` the current line number. */
  function ScanStep(source: string, start: nat, line: nat): (r: Lexed)
    requires start < |source|
    ensures StepOk(source, start, r)
  {
    var c := source[start];
    if SingleCharKind(c).Some? then
      Emit(source, start, start + 1, line, SingleCharKind(c).value, NilValue)
    else if OperatorKinds(c).Some? then
      OperatorStep(source, start, line, OperatorKinds(c).value.0, OperatorKinds(c).value.1)
    else if c == '/' then
      SlashStep(source, start, line)
    else if c == ' ' || c == '\r' || c == '\t' then
      Lexed(start + 1, line, None, None)
    else if c == '\n' then
      Lexed(start + 1, line + 1, None, None)
    else if c == '"' then
      StringStep(source, start, line)
    else if IsDigit(c) then
      NumberStep(source, start, line)
    else if IsAlpha(c) then
      IdentifierStep(source, start, line)
    else
      Lexed(start + 1, line, None, Some(LineError(line, UnexpectedCharacter)))
  }

  /** How `ScanStep` dispatches on punctuation and operator characters. */
  lemma ScanStepPunctuation(source: string, start: nat, line: nat)
    requires start < |source|
    ensures var c := source[start];
            var r := ScanStep(source, start, line);
            && (SingleCharKind(c).Some? ==> r == Emit(source, start, start + 1, line, SingleCharKind(c).value, NilValue))
            && (OperatorKinds(c).Some? ==> r == OperatorStep(source, start, line, OperatorKinds(c).value.0, OperatorKinds(c).value.1))
            && (c == '/' ==> r == SlashStep(source, start, line))
  {
  }

  /** How `ScanStep` dispatches on every other character. */
  lemma ScanStepOther(source: string, start: nat, line: nat)
    requires start < |source|
    ensures var c := source[start];
            var r := ScanStep(source, start, line);
            SingleCharKind(c).None? && OperatorKinds(c).None? && c != '/' ==>
            && (c == ' ' || c == '\r' || c == '\t' ==> r == Lexed(start + 1, line, None, None))
            && (c == '\n' ==> r == Lexed(start + 1, line + 1, None, None))
            && (c == '"' ==> r == StringStep(source, start, line))
            && (IsDigit(c) ==> r == NumberStep(source, start, line))
            && (IsAlpha(c) ==> r == IdentifierStep(source, start, line))
            && (!IsDigit(c) && !IsAlpha(c) && c !in {' ', '\r', '\t', '\n', '"'} ==>
                  r == Lexed(start + 1, line, None, Some(LineError(line, UnexpectedCharacter))))
  {
  }

  /**
   * The line counter plus the newlines still ahead stays the same across a
   * string literal's loop: the loop counts exactly the newlines it passes.
   */
  lemma {:induction false} StringBodyLines(source: string, i: nat, line: nat)
    requires i <= |source|
    ensures var (j, line') := StringBody(source, i, line);
            line' + NewlinesFrom(source, j) == line + NewlinesFrom(source, i)
    decreases |source| - i
  {
    if i < |source| && source[i] != '"' {
      StringBodyLines(source, i + 1, if source[i] == '\n' then line + 1 else line);
    }
  }

  /** Each `scanToken` call advances the line counter by the newlines it consumes. */
  lemma ScanStepLines(source: string, start: nat, line: nat)
    requires start < |source|
    ensures var r := ScanStep(source, start, line);
            r.line + NewlinesFrom(source, r.next) == line + NewlinesFrom(source, start)
  {
    var c := source[start];
    if SingleCharKind(c).Some? {
      NoNewlines(source, start, start + 1);
    } else if OperatorKinds(c).Some? {
      OperatorStepLines(source, start, line, OperatorKinds(c).value.0, OperatorKinds(c).value.1);
    } else if c == '/' {
      SlashStepLines(source, start, line);
    } else if c == ' ' || c == '\r' || c == '\t' {
      NoNewlines(source, start, start + 1);
    } else if c == '\n' {
    } else if c == '"' {
      StringStepLines(source, start, line);
    } else if IsDigit(c) {
      NumberStepLines(source, start, line);
    } else if IsAlpha(c) {
      IdentifierStepLines(source, start, line);
    } else {
      NoNewlines(source, start, start + 1);
    }
  }

  lemma StringStepLines(source: string, start: nat, line: nat)
    requires start < |source| && source[start] == '"'
    ensures var r := StringStep(source, start, line);
            r.line + NewlinesFrom(source, r.next) == line + NewlinesFrom(source, start)
  {
    ClosingQuoteLines(source, start, line);
  }

  /** The lines of a string literal, up to and including its closing quote when there is one. */
  lemma ClosingQuoteLines(source: string, start: nat, line: nat)
    requires start < |source| && source[start] == '"'
    ensures var (j, line') := StringBody(source, start + 1, line);
            var next := if j < |source| then j + 1 else j;
            line' + NewlinesFrom(source, next) == line + NewlinesFrom(source, start)
  {
    var (j, line') := StringBody(source, start + 1, line);
    StringBodyLines(source, start + 1, line);
    assert NewlinesFrom(source, start) == NewlinesFrom(source, start + 1);
    if j < |source| {
      assert NewlinesFrom(source, j) == NewlinesFrom(source, j + 1);
    }
  }

  lemma NumberStepLines(source: string, start: nat, line: nat)
    requires start < |source| && IsDigit(source[start])
    ensures var r := NumberStep(source, start, line);
            r.line + NewlinesFrom(source, r.next) == line + NewlinesFrom(source, start)
  {
    NoNewlines(source, start, NumberEnd(source, start + 1));
  }

  lemma IdentifierStepLines(source: string, start: nat, line: nat)
    requires start < |source| && IsAlpha(source[start])
    ensures var r := IdentifierStep(source, start, line);
            r.line + NewlinesFrom(source, r.next) == line + NewlinesFrom(source, start)
  {
    NoNewlines(source, start, IdentifierEnd(source, start + 1));
  }

  lemma SlashStepLines(source: string, start: nat, line: nat)
    requires start < |source| && source[start] == '/'
    ensures var r := SlashStep(source, start, line);
            r.line + NewlinesFrom(source, r.next) == line + NewlinesFrom(source, start)
  {
    NoNewlines(source, start, SlashStep(source, start, line).next);
  }

  lemma OperatorStepLines(source: string, start: nat, line: nat, one: TokenType, two: TokenType)
    requires start < |source| && source[start] != '\n' && one != Eof && two != Eof
    ensures var r := OperatorStep(source, start, line, one, two);
            r.line + NewlinesFrom(source, r.next) == line + NewlinesFrom(source, start)
  {
    assert NewlinesFrom(source, start) == NewlinesFrom(source, start + 1);
    if start + 1 < |source| && source[start + 1] == '=' {
      assert NewlinesFrom(source, start + 1) == NewlinesFrom(source, start + 2);
    }
  }

  /** The tokens, the errors and the final line counter of the loop of `scanTokens`. */
  datatype Scanned = Scanned(tokens: seq<Token>, errors: seq<Diagnostic>, line: nat)

  /** The loop of `scanTokens` continued from cursor `pos` at line `line`. */
  function ScanFrom(source: string, pos: nat, line: nat): Scanned
    requires pos <= |source|
    decreases |source| - pos
  {
    if pos == |source| then
      Scanned([], [], line)
    else
      var s := ScanStep(source, pos, line);
      var rest := ScanFrom(source, s.next, s.line);
      Scanned(ToSeq(s.token) + rest.tokens, ToSeq(s.error) + rest.errors, rest.line)
  }

  /** The loop ends on the starting line plus the newlines in the rest of the source. */
  lemma {:induction false} ScanFromLine(source: string, pos: nat, line: nat)
    requires pos <= |source|
    ensures ScanFrom(source, pos, line).line == line + NewlinesFrom(source, pos)
    decreases |source| - pos
  {
    if pos < |source| {
      var s := ScanStep(source, pos, line);
      ScanFromLine(source, s.next, s.line);
      ScanStepLines(source, pos, line);
    }
  }

  /** The loop never makes an end-of-file token. */
  lemma {:induction false} ScanFromNoEof(source: string, pos: nat, line: nat)
    requires pos <= |source|
    ensures forall i :: 0 <= i < |ScanFrom(source, pos, line).tokens| ==> ScanFrom(source, pos, line).tokens[i].kind != Eof
    decreases |source| - pos
  {
    if pos < |source| {
      var s := ScanStep(source, pos, line);
      ScanFromNoEof(source, s.next, s.line);
      NoEofBefore(s.token, ScanFrom(source, s.next, s.line).tokens);
    }
  }

  /** A token that is not end-of-file, put before a list without one. */
  lemma NoEofBefore(token: Option<Token>, rest: seq<Token>)
    requires token.Some? ==> token.value.kind != Eof
    requires forall i :: 0 <= i < |rest| ==> rest[i].kind != Eof
    ensures forall i :: 0 <= i < |ToSeq(token) + rest| ==> (ToSeq(token) + rest)[i].kind != Eof
  {
  }

  /**
   * `scanTokens` on a whole source: the loop from line 1, then the
   * end-of-file token, whose lexeme is empty and whose line is one plus the
   * number of newlines in the source. It is the only end-of-file token.
   */
  function Scan(source: string): (r: Scanned)
    ensures |r.tokens| > 0
    ensures r.tokens[|r.tokens| - 1] == Token(Eof, "", NilValue, 1 + NewlinesFrom(source, 0))
    ensures forall i :: 0 <= i < |r.tokens| - 1 ==> r.tokens[i].kind != Eof
  {
    var loop := ScanFrom(source, 0, 1);
    ScanFromLine(source, 0, 1);
    ScanFromNoEof(source, 0, 1);
    Scanned(loop.tokens + [Token(Eof, "", NilValue, loop.line)], loop.errors, loop.line)
  }
}
