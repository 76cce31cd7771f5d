/**
 * The scanner as the source writes it: an object with a cursor (`start`,
 * `current`), a line counter, and a token list it appends to. Every method
 * is proved to do what the matching function of `Lexical` says, and every
 * method keeps `0 <= start <= current <= |source|`.
 */
module Scanning {
  import opened Wrappers
  import opened Tokens
  import opened ErrorHandling
  import opened Lexical

  class Scanner {
    const source: string
    var tokens: seq<Token>
    var start: nat
    var current: nat
    var line: nat
    /** The static errors reported so far, in order. */
    var errors: seq<Diagnostic>

    ghost predicate Valid()
      reads this
    {
      start <= current <= |source|
    }

    constructor (source: string)
      ensures Valid()
      ensures this.source == source && tokens == [] && errors == []
      ensures start == 0 && current == 0 && line == 1
    {
      this.source := source;
      tokens, errors := [], [];
      start, current, line := 0, 0, 1;
    }

    /**
     * Scans the rest of the source and appends the end-of-file token; from a
     * fresh scanner the result is `Scan(source).tokens`.
     */
    method ScanTokens() returns (result: seq<Token>)
      requires Valid()
      modifies this
      ensures Valid() && current == |source|
      ensures line == ScanFrom(source, old(current), old(line)).line
      ensures tokens == old(tokens) + ScanFrom(source, old(current), old(line)).tokens + [Token(Eof, "", NilValue, line)]
      ensures errors == old(errors) + ScanFrom(source, old(current), old(line)).errors
      ensures result == tokens
    {
      ghost var goal := ScanFrom(source, current, line);
      ghost var tokens0, errors0 := tokens, errors;
      while !IsAtEnd()
        invariant Valid()
        invariant goal.line == ScanFrom(source, current, line).line
        invariant tokens0 + goal.tokens == tokens + ScanFrom(source, current, line).tokens
        invariant errors0 + goal.errors == errors + ScanFrom(source, current, line).errors
        decreases |source| - current
      {
        start := current;
        ghost var pos, ln, tokensBefore, errorsBefore := current, line, tokens, errors;
        ScanToken();
        AppendAssoc(tokensBefore, ToSeq(ScanStep(source, pos, ln).token), ScanFrom(source, current, line).tokens);
        AppendAssoc(errorsBefore, ToSeq(ScanStep(source, pos, ln).error), ScanFrom(source, current, line).errors);
      }
      tokens := tokens + [Token(Eof, "", NilValue, line)];
      result := tokens;
    }

    /**
     * The cursor, line and lists are those of one `ScanStep` from `pos` on
     * `line0`, appended to `tokens0` and `errors0`.
     */
    ghost predicate Stepped(pos: nat, line0: nat, tokens0: seq<Token>, errors0: seq<Diagnostic>)
      requires pos < |source|
      reads this
    {
      var r := ScanStep(source, pos, line0);
      current == r.next && line == r.line && tokens == tokens0 + ToSeq(r.token) && errors == errors0 + ToSeq(r.error)
    }

    /** Scans one lexeme starting at `start`, which the caller has set to the cursor. */
    method ScanToken()
      requires Valid() && start == current < |source|
      modifies this
      ensures Valid() && start == old(start)
      ensures current == ScanStep(source, old(current), old(line)).next
      ensures line == ScanStep(source, old(current), old(line)).line
      ensures tokens == old(tokens) + ToSeq(ScanStep(source, old(current), old(line)).token)
      ensures errors == old(errors) + ToSeq(ScanStep(source, old(current), old(line)).error)
    {
      var c := Advance();
      match c
      case '(' => SingleToken(LeftParen);
      case ')' => SingleToken(RightParen);
      case '{' => SingleToken(LeftBrace);
      case '}' => SingleToken(RightBrace);
      case ',' => SingleToken(Comma);
      case '.' => SingleToken(Dot);
      case '-' => SingleToken(Minus);
      case '+' => SingleToken(Plus);
      case ';' => SingleToken(Semicolon);
      case '*' => SingleToken(Star);
      case '?' => SingleToken(QuestionMark);
      case ':' => SingleToken(Colon);
      case '!' => OperatorToken(Bang, BangEqual);
      case '=' => OperatorToken(Equal, EqualEqual);
      case '<' => OperatorToken(Less, LessEqual);
      case '>' => OperatorToken(Greater, GreaterEqual);
      case '/' => SlashToken();
      case ' ' | '\r' | '\t' =>
        ScanStepOther(source, start, line);
      case '\n' =>
        ScanStepOther(source, start, line);
        line := line + 1;
      case '"' =>
        ScanStepOther(source, start, line);
        StringLiteral();
      case _ => OtherToken(c);
    }

    /** The `else` branch of `scanToken`: a number, an identifier or keyword, or an unexpected character. */
    method OtherToken(c: char)
      requires Valid() && current == start + 1 && start < |source| && source[start] == c
      requires SingleCharKind(c).None? && OperatorKinds(c).None? && c !in {'/', ' ', '\r', '\t', '\n', '"'}
      modifies this`current, this`tokens, this`errors
      ensures Valid() && Stepped(start, line, old(tokens), old(errors))
    {
      ScanStepOther(source, start, line);
      if IsDigit(c) {
        NumberLiteral();
      } else if IsAlpha(c) {
        IdentifierLiteral();
      } else {
        errors := errors + [LineError(line, UnexpectedCharacter)];
      }
    }

    /** `addToken` of a one-character token whose character has been consumed. */
    method SingleToken(kind: TokenType)
      requires Valid() && current == start + 1 && start < |source| && SingleCharKind(source[start]) == Some(kind)
      modifies this`tokens
      ensures Valid() && Stepped(start, line, old(tokens), errors)
    {
      ScanStepPunctuation(source, start, line);
      AddToken(kind, NilValue);
    }

    /** `addToken(if (match('=')) two else one)` for an operator whose first character has been consumed. */
    method OperatorToken(one: TokenType, two: TokenType)
      requires Valid() && current == start + 1 && start < |source| && OperatorKinds(source[start]) == Some((one, two))
      modifies this`current, this`tokens
      ensures Valid() && Stepped(start, line, old(tokens), errors)
    {
      ScanStepPunctuation(source, start, line);
      var m := Match('=');
      AddToken(if m then two else one, NilValue);
    }

    /** A `/` that has been consumed: a comment when another `/` follows, the slash operator otherwise. */
    method SlashToken()
      requires Valid() && current == start + 1 && start < |source| && source[start] == '/'
      modifies this`current, this`tokens
      ensures Valid() && Stepped(start, line, old(tokens), errors)
    {
      ScanStepPunctuation(source, start, line);
      var m := Match('/');
      if m {
        SkipComment();
      } else {
        AddToken(Slash, NilValue);
      }
    }

    /** The loop of a `//` comment: up to the end of the line, which it leaves unconsumed. */
    method SkipComment()
      requires current <= |source|
      modifies this`current
      ensures current == CommentEnd(source, old(current))
    {
      while Peek() != '\n' && !IsAtEnd()
        invariant old(current) <= current <= |source|
        invariant CommentEnd(source, current) == CommentEnd(source, old(current))
        decreases |source| - current
      {
        var _ := Advance();
      }
    }

    /** The rest of an identifier or keyword whose first character has been consumed. */
    method IdentifierLiteral()
      requires Valid() && start < current
      modifies this`current, this`tokens
      ensures Valid()
      ensures current == IdentifierEnd(source, old(current))
      ensures tokens == old(tokens) + [Token(IdentifierKind(source[start..current]), source[start..current], NilValue, line)]
    {
      while IsAlphaNumeric(Peek())
        invariant old(current) <= current <= |source|
        invariant IdentifierEnd(source, current) == IdentifierEnd(source, old(current))
        invariant tokens == old(tokens)
        decreases |source| - current
      {
        var _ := Advance();
      }
      var text := source[start..current];
      var kind := if text in Keywords then Keywords[text] else Identifier;
      AddToken(kind, NilValue);
    }

    /** The rest of a number literal whose first digit has been consumed. */
    method NumberLiteral()
      requires Valid() && current == start + 1 && start < |source| && IsDigit(source[start])
      modifies this`current, this`tokens
      ensures Valid()
      ensures current == NumberEnd(source, old(current))
      ensures IsNumberText(source[start..current])
      ensures tokens == old(tokens) + [Token(Number, source[start..current], Num(ToDouble(source[start..current])), line)]
    {
      SkipNumber();
      NumberTextWellFormed(source, start);
      var text := source[start..current];
      AddToken(Number, Num(ToDouble(text)));
    }

    /** The digits of a number, then a dot and more digits when a digit follows the dot. */
    method SkipNumber()
      requires current <= |source|
      modifies this`current
      ensures current == NumberEnd(source, old(current))
    {
      SkipDigits();
      if Peek() == '.' && IsDigit(PeekNext()) {
        // Consume the dot.
        var _ := Advance();
        SkipDigits();
      }
    }

    /** One of the two digit loops of `number()`. */
    method SkipDigits()
      requires current <= |source|
      modifies this`current
      ensures current == DigitsEnd(source, old(current))
    {
      while IsDigit(Peek())
        invariant old(current) <= current <= |source|
        invariant DigitsEnd(source, current) == DigitsEnd(source, old(current))
        decreases |source| - current
      {
        var _ := Advance();
      }
    }

    /** The rest of a string literal whose opening quote has been consumed. */
    method StringLiteral()
      requires Valid() && current == start + 1 && start < |source| && source[start] == '"'
      modifies this`current, this`line, this`tokens, this`errors
      ensures Valid()
      ensures current == StringStep(source, start, old(line)).next
      ensures line == StringStep(source, start, old(line)).line
      ensures tokens == old(tokens) + ToSeq(StringStep(source, start, old(line)).token)
      ensures errors == old(errors) + ToSeq(StringStep(source, start, old(line)).error)
    {
      SkipStringBody();
      if IsAtEnd() {
        errors := errors + [LineError(line, UnterminatedString)];
        return;
      }
      // The closing quote.
      var _ := Advance();
      // Trim the surrounding quotes.
      var value := source[start + 1..current - 1];
      AddToken(String, Str(value));
    }

    /** The loop of `string()`: up to the closing quote, counting the lines inside. */
    method SkipStringBody()
      requires current <= |source|
      modifies this`current, this`line
      ensures (current, line) == StringBody(source, old(current), old(line))
    {
      while Peek() != '"' && !IsAtEnd()
        invariant old(current) <= current <= |source|
        invariant StringBody(source, current, line) == StringBody(source, old(current), old(line))
        decreases |source| - current
      {
        if Peek() == '\n' {
          line := line + 1;
        }
        var _ := Advance();
      }
    }

    /** The character at the cursor, or NUL at the end. */
    function Peek(): char
      reads this
    {
      PeekAt(source, current)
    }

    /** The character after the cursor, or NUL past the end. */
    function PeekNext(): char
      reads this
    {
      PeekAt(source, current + 1)
    }

    predicate IsAtEnd()
      reads this
    {
      current >= |source|
    }

    /** Consumes a character when it is the expected one. */
    method Match(expected: char) returns (matched: bool)
      modifies this`current
      ensures matched <==> old(current) < |source| && source[old(current)] == expected
      ensures current == if matched then old(current) + 1 else old(current)
    {
      if IsAtEnd() {
        return false;
      }
      if source[current] != expected {
        return false;
      }
      current := current + 1;
      return true;
    }

    /** Appends a token whose lexeme is the text from `start` to the cursor. */
    method AddToken(kind: TokenType, literal: Value)
      requires start <= current <= |source|
      modifies this`tokens
      ensures tokens == old(tokens) + [Token(kind, source[start..current], literal, line)]
    {
      var text := source[start..current];
      tokens := tokens + [Token(kind, text, literal, line)];
    }

    /** Consumes and returns the character at the cursor. */
    method Advance() returns (c: char)
      requires current < |source|
      modifies this`current
      ensures c == source[old(current)] && current == old(current) + 1
    {
      c := source[current];
      current := current + 1;
    }
  }
}
