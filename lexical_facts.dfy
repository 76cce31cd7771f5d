/**
 * What one `scanToken` call does for each kind of lexeme, stated on
 * `Lexical.ScanStep` without reference to how it is computed: maximal munch
 * for operators, identifiers and numbers, keywords exactly for reserved
 * words, string values without their quotes, and exactly two kinds of
 * scanner error.
 */
module LexicalFacts {
  import opened Wrappers
  import opened Tokens
  import opened ErrorHandling
  import opened Lexical

  /** `!`, `=`, `<` and `>` take a following `=` into a two-character operator, and only then. */
  lemma OperatorMunch(source: string, start: nat, line: nat)
    requires start < |source| && OperatorKinds(source[start]).Some?
    ensures var r := ScanStep(source, start, line);
            var followed := start + 1 < |source| && source[start + 1] == '=';
            && r.token.Some? && r.error.None? && r.line == line
            && (followed ==> r.next == start + 2 && r.token.value.kind == OperatorKinds(source[start]).value.1)
            && (!followed ==> r.next == start + 1 && r.token.value.kind == OperatorKinds(source[start]).value.0)
  {
    ScanStepPunctuation(source, start, line);
  }

  /**
   * `//` starts a comment: nothing is produced, and the cursor stops at the
   * next newline (left for the next step) or at the end. A lone `/` is the
   * slash operator.
   */
  lemma SlashMunch(source: string, start: nat, line: nat)
    requires start < |source| && source[start] == '/'
    ensures var r := ScanStep(source, start, line);
            var comment := start + 1 < |source| && source[start + 1] == '/';
            && r.error.None? && r.line == line
            && (comment ==>
                  && r.token.None?
                  && (r.next == |source| || source[r.next] == '\n')
                  && forall k :: start <= k < r.next ==> source[k] != '\n')
            && (!comment ==> r.next == start + 1 && r.token == Some(Token(Slash, "/", NilValue, line)))
  {
    ScanStepPunctuation(source, start, line);
    assert source[start..start + 1] == [source[start]];
  }

  /** Blanks produce nothing; a newline also moves to the next line. */
  lemma BlankSkipped(source: string, start: nat, line: nat)
    requires start < |source| && source[start] in {' ', '\r', '\t', '\n'}
    ensures var r := ScanStep(source, start, line);
            && r.token.None? && r.error.None? && r.next == start + 1
            && r.line == if source[start] == '\n' then line + 1 else line
  {
    ScanStepOther(source, start, line);
  }

  /**
   * An identifier is the longest alphanumeric run from a letter or `_`; its
   * kind is the keyword's when the text is a reserved word, and `Identifier`
   * exactly when it is not.
   */
  lemma IdentifierMunch(source: string, start: nat, line: nat)
    requires start < |source| && IsAlpha(source[start])
    ensures var r := ScanStep(source, start, line);
            && r.token.Some? && r.error.None? && r.line == line
            && (r.next == |source| || !IsAlphaNumeric(source[r.next]))
            && (forall k :: start <= k < r.next ==> IsAlphaNumeric(source[k]))
            && r.token.value.literal == NilValue
            && (r.token.value.kind == Identifier <==> r.token.value.lexeme !in Keywords)
            && (r.token.value.lexeme in Keywords ==> r.token.value.kind == Keywords[r.token.value.lexeme])
  {
    ScanStepOther(source, start, line);
    KeywordsAreNotIdentifiers();
  }

  /** No reserved word maps to `Identifier`. */
  lemma KeywordsAreNotIdentifiers()
    ensures forall w :: w in Keywords ==> Keywords[w] != Identifier
  {
  }

  /**
   * A number is the longest run of digits, followed by a dot and more
   * digits exactly when a digit follows the dot: it never ends in a dot, a
   * number without a fraction is not followed by one, and its value is the
   * decimal value of its text.
   */
  lemma NumberMunch(source: string, start: nat, line: nat)
    requires start < |source| && IsDigit(source[start])
    ensures var r := ScanStep(source, start, line);
            && r.token.Some? && r.error.None? && r.line == line
            && r.token.value.kind == Number
            && IsNumberText(r.token.value.lexeme)
            && IsDigit(source[r.next - 1])
            && (r.next == |source| || !IsDigit(source[r.next]))
            && r.token.value.literal == Num(ToDouble(r.token.value.lexeme))
            && (DotIndex(r.token.value.lexeme) == |r.token.value.lexeme| ==>
                  !(PeekAt(source, r.next) == '.' && IsDigit(PeekAt(source, r.next + 1))))
  {
    ScanStepOther(source, start, line);
    NumberTextWellFormed(source, start);
    NumberEndFraction(source, start);
  }

  /** A number lexeme without a dot stops where no dot and digit follow. */
  lemma NumberEndFraction(source: string, start: nat)
    requires start < |source| && IsDigit(source[start])
    ensures var j := NumberEnd(source, start + 1);
            DotIndex(source[start..j]) == j - start ==> !(PeekAt(source, j) == '.' && IsDigit(PeekAt(source, j + 1)))
  {
    var k := DigitsEnd(source, start + 1);
    if PeekAt(source, k) == '.' && IsDigit(PeekAt(source, k + 1)) {
      DotIndexAt(source[start..NumberEnd(source, start + 1)], k - start);
    }
  }

  /** The string loop passes no double quote. */
  lemma {:induction false} StringBodyNoQuote(source: string, i: nat, line: nat)
    requires i <= |source|
    ensures forall k :: i <= k < StringBody(source, i, line).0 ==> source[k] != '"'
    decreases |source| - i
  {
    if i < |source| && source[i] != '"' {
      StringBodyNoQuote(source, i + 1, if source[i] == '\n' then line + 1 else line);
    }
  }

  /**
   * A string runs to the next double quote; its value is the text between
   * the quotes. Without a closing quote the rest of the source is consumed
   * and "Unterminated string." is reported on the line where it ends.
   */
  lemma StringMunch(source: string, start: nat, line: nat)
    requires start < |source| && source[start] == '"'
    ensures var r := ScanStep(source, start, line);
            && (r.token.Some? <==> r.error.None?)
            && (r.token.Some? ==>
                  && r.token.value.kind == String
                  && start + 2 <= r.next && source[r.next - 1] == '"'
                  && r.token.value.literal == Str(source[start + 1..r.next - 1])
                  && forall k :: start < k < r.next - 1 ==> source[k] != '"')
            && (r.error.Some? ==>
                  && r.next == |source|
                  && r.error.value == LineError(r.line, UnterminatedString)
                  && forall k :: start < k < |source| ==> source[k] != '"')
  {
    ScanStepOther(source, start, line);
    StringBodyNoQuote(source, start + 1, line);
  }

  /** A character that no rule of `scanToken` accepts. */
  predicate Unexpected(c: char) {
    && SingleCharKind(c).None? && OperatorKinds(c).None?
    && c !in {'/', ' ', '\r', '\t', '\n', '"'}
    && !IsDigit(c) && !IsAlpha(c)
  }

  /**
   * A step reports an error exactly for an unexpected character (which is
   * consumed) or an unterminated string; either way no token is produced.
   */
  lemma ScanStepErrors(source: string, start: nat, line: nat)
    requires start < |source|
    ensures var r := ScanStep(source, start, line);
            && (r.error.Some? <==>
                  || Unexpected(source[start])
                  || (source[start] == '"' && StringBody(source, start + 1, line).0 == |source|))
            && (Unexpected(source[start]) ==>
                  r == Lexed(start + 1, line, None, Some(LineError(line, UnexpectedCharacter))))
  {
    ScanStepPunctuation(source, start, line);
    ScanStepOther(source, start, line);
  }

  /** `x` times ten to the power `n`, as `n` shifts of the decimal point to the right. */
  function ScaleUp(x: real, n: nat): real {
    if n == 0 then x else 10.0 * ScaleUp(x, n - 1)
  }

  lemma {:induction false} ScaleUpAdd(t: real, x: real, y: real, n: nat)
    requires t == x + y
    ensures ScaleUp(t, n) == ScaleUp(x, n) + ScaleUp(y, n)
  {
    if n > 0 {
      ScaleUpAdd(t, x, y, n - 1);
    }
  }

  lemma {:induction false} ScaleUpTenth(x: real, n: nat)
    ensures ScaleUp(x / 10.0, n + 1) == ScaleUp(x, n)
  {
    if n > 0 {
      ScaleUpTenth(x, n - 1);
    }
  }

  /** Reading digits `a` then `b` shifts the value of `a` left by the length of `b`. */
  lemma {:induction false} DigitsValueAppend(a: string, b: string)
    requires AllDigits(a) && AllDigits(b)
    ensures AllDigits(a + b)
    ensures DigitsValue(a + b) as real == ScaleUp(DigitsValue(a) as real, |b|) + DigitsValue(b) as real
    decreases |b|
  {
    assert AllDigits(a + b) by {
      forall i | 0 <= i < |a + b| ensures IsDigit((a + b)[i]) {
        if i >= |a| { assert (a + b)[i] == b[i - |a|]; }
      }
    }
    if b == [] {
      assert a + b == a;
    } else {
      var b' := b[..|b| - 1];
      assert (a + b)[..|a + b| - 1] == a + b';
      assert (a + b)[|a + b| - 1] == b[|b| - 1];
      assert AllDigits(b');
      DigitsValueAppend(a, b');
    }
  }

  /** The digits after a dot, shifted left by their count, read as an integer. */
  lemma {:induction false} FractionValueScaled(s: string)
    requires AllDigits(s)
    ensures ScaleUp(FractionValue(s), |s|) == DigitsValue(s) as real
    decreases |s|
  {
    if s != [] {
      var d := (s[0] as int - '0' as int) as real;
      var rest := s[1..];
      assert AllDigits(rest);
      FractionValueScaled(rest);
      ScaleUpTenth(d + FractionValue(rest), |rest|);
      ScaleUpAdd(d + FractionValue(rest), d, FractionValue(rest), |rest|);
      assert s == [s[0]] + rest;
      DigitsValueAppend([s[0]], rest);
      assert [s[0]][..0] == [];
    }
  }

  /**
   * A number with a fraction, with its decimal point shifted right past all
   * the fraction digits, is the integer its digits spell without the dot.
   */
  lemma ToDoubleScaled(text: string)
    requires IsNumberText(text) && DotIndex(text) < |text|
    ensures var k := DotIndex(text);
            AllDigits(text[..k] + text[k + 1..])
            && ScaleUp(ToDouble(text), |text| - k - 1) == DigitsValue(text[..k] + text[k + 1..]) as real
  {
    var k := DotIndex(text);
    var whole, fraction := text[..k], text[k + 1..];
    assert AllDigits(whole) && AllDigits(fraction);
    assert ToDouble(text) == DigitsValue(whole) as real + FractionValue(fraction);
    assert |fraction| == |text| - k - 1;
    DigitsValueAppend(whole, fraction);
    FractionValueScaled(fraction);
    ScaleUpAdd(ToDouble(text), DigitsValue(whole) as real, FractionValue(fraction), |fraction|);
  }
}
