# Lox front end and tree-walking interpreter

This project models the core of a Kotlin implementation of Lox, from
*Crafting Interpreters*. The modelled language has expressions with a comma
operator and a `?:` ternary, `print`, `var` and block statements, and nested
scopes. The model covers five parts.

- **Scanner** (`Lexical`, `LexicalFacts`, `Scanning`). The text is turned
  into tokens, and scanner errors are reported by line. `Scanning.Scanner`
  is a class with the source's cursor fields (`start`, `current`, `line`)
  and its token list. Each of its methods is proved to compute a pure
  function of `Lexical`:
  - `ScanStep` for one `scanToken` call;
  - `ScanFrom` and `Scan` for `scanTokens`;
  - one function per inner `while` loop.

  `LexicalFacts` then states what those functions mean without saying how
  they compute it:
  - maximal munch for operators, identifiers and numbers;
  - keywords exactly for reserved words;
  - string values without their quotes;
  - exactly two scanner errors.

  `Lexical` also proves that the line counter counts the newlines consumed.
- **Parser** (`Grammar`, `ParseTrees`, `Parsing`). This is recursive descent
  with error recovery. `Parsing.Parser` is a class over the token list with
  the `current` index and the reported errors. Each method is proved to
  leave the parser exactly where the matching `Grammar` function does,
  with the same result. A thrown `ParseError` is a `None` result, or `Err`
  in `Grammar`.

  `ParseTrees` gives a separate grammar as a predicate on trees. It proves
  that every tree the parser returns derives from the rule of the method
  that built it, and that precedence and left associativity follow from
  the rules. `Grammar` proves these properties:
  - `declaration()` never throws;
  - `synchronize()` stops where the source says;
  - a parse with no errors leaves no holes (`null` statements).
- **Environments** (`Environments`). A scope is an `Environment` object with
  a `values` map and an `enclosing` link. `define`, `assign` and `get` are
  proved against pure functions on the chain of scopes, innermost last.
  Those functions are proved against an index-based description of
  shadowing.
- **Interpreter** (`Semantics`, `Interpreting`). `Interpreting.Interpreter`
  holds the current environment, the lines printed so far and the runtime
  errors reported. Its methods are proved to compute `Semantics.Eval`,
  `Exec`, `ExecFrom` and `InterpretFrom`. Those functions have their own
  lemmas:
  - operand order and eagerness: no short circuit, and a ternary evaluates
    all three operands;
  - the operator rules, including when a "must be numbers" error is thrown;
  - names are never created outside the innermost scope;
  - a block restores its environment whether it completes or fails;
  - the top-level loop skips the statements the parser dropped and runs
    the rest exactly as a block runs its statements.
- **Debug printers** (`AstPrinting`, `RpnPrinting`, `Samples`). These are the
  sandbox's two expression printers.
  - **Parenthesized printer.** Its `parenthesize` loops are methods proved
    against `Show`. With plain atoms, each printed `Variable` node leaves
    exactly one unmatched `)`. The source's string overload of
    `parenthesize` writes no opening parenthesis, so a variable prints as
    ` variable x)`. Every other node prints matched parentheses.
  - **Postfix printer.** It is proved to spell a sequence of postfix
    items. A stack machine rebuilds the tree from those items, up to
    groupings.
  - **Sample.** The sandbox sample `(1 + 2) * (4 - 2)` is proved to print
    as `1 2 + 4 2 - *` and as `(* (group (+ 1 2)) (group (- 4 2)))`.

In three places the code behaves differently from what a reader of
*Crafting Interpreters* might expect; the model follows the code:

- **Comma yields `nil`.** `visitBinaryExpr` has no case for the comma
  operator, so `a, b` yields `nil` rather than `b`.
  `Semantics.OtherOperatorsNil` states this.
- **Logical operators yield `nil`.** `and` and `or` also reach the default
  branch without short-circuiting, so they give `nil` after evaluating both
  operands (`Semantics.NoShortCircuit`).
- **Invalid assignment target.** The error is reported without being
  thrown. The target expression is kept and the assigned value dropped
  (`Grammar.AssignTo`).

Common conventions:

- **Numbers.** Lox numbers are Dafny `real`s.
- **`numText`.** A parameter `numText: real -> string` stands for Kotlin's
  `Double.toString`, which the model does not define.
- **Diagnostics.** Reports written to standard error are kept as
  `Diagnostic` and `RuntimeError` values. Their wording is
  `ErrorHandling.Text`.
- **Output.** The lines `println` writes are the `output` sequence.

## Model

| member | source | states |
|---|---|---|
| ErrorHandling.TokenError | src/main/kotlin/com/craftinginterpreters/lox/ErrorHandling.kt:12-18 | a report at a token is placed "at end" exactly for the end-of-file token, and at `'lexeme'` otherwise, on the token's line |
| ErrorHandling.LineError | src/main/kotlin/com/craftinginterpreters/lox/ErrorHandling.kt:20-22 | a report at a line is always placed " at end" |
| Lexical.IdentifierEnd | src/main/kotlin/com/craftinginterpreters/lox/Scanner.kt:92 | the identifier loop stops at the end of the longest alphanumeric run |
| Lexical.DigitsEnd | src/main/kotlin/com/craftinginterpreters/lox/Scanner.kt:100 | a digit loop stops at the end of the longest digit run |
| Lexical.CommentEnd | src/main/kotlin/com/craftinginterpreters/lox/Scanner.kt:64 | a comment runs to the next newline, which it leaves unconsumed, or to the end |
| Lexical.NumberEnd | src/main/kotlin/com/craftinginterpreters/lox/Scanner.kt:99-107 | `number()` passes only digits and a dot |
| Lexical.NumberTextWellFormed | src/main/kotlin/com/craftinginterpreters/lox/Scanner.kt:99-109 | the lexeme `number()` passes to `toDouble` is digits, optionally followed by a dot and at least one digit |
| Lexical.Emit | src/main/kotlin/com/craftinginterpreters/lox/Scanner.kt:148-151 | `addToken` makes a token whose lexeme is the consumed text, on the current line |
| Lexical.OperatorStep | src/main/kotlin/com/craftinginterpreters/lox/Scanner.kt:57-60 | an operator step moves forward and adds a well-formed token |
| Lexical.SlashStep | src/main/kotlin/com/craftinginterpreters/lox/Scanner.kt:62-65 | a slash step moves forward; any token it adds is well formed |
| Lexical.NumberStep | src/main/kotlin/com/craftinginterpreters/lox/Scanner.kt:99-110 | a number step moves forward and adds a well-formed token |
| Lexical.IdentifierStep | src/main/kotlin/com/craftinginterpreters/lox/Scanner.kt:91-97 | an identifier step moves forward and adds a well-formed token |
| Lexical.StringBody | src/main/kotlin/com/craftinginterpreters/lox/Scanner.kt:113-116 | the string loop stops at the next double quote or at the end |
| Lexical.StringStep | src/main/kotlin/com/craftinginterpreters/lox/Scanner.kt:112-128 | a string step moves forward and adds a well-formed token or an error |
| Lexical.ScanStep | src/main/kotlin/com/craftinginterpreters/lox/Scanner.kt:41-80 | each `scanToken` call moves forward; a token it adds has the consumed text as lexeme, is not end-of-file, is on the current line and comes without an error |
| Lexical.StringBodyLines | src/main/kotlin/com/craftinginterpreters/lox/Scanner.kt:113-116 | the string loop bumps the line counter once per newline it passes |
| Lexical.ScanStepLines | src/main/kotlin/com/craftinginterpreters/lox/Scanner.kt:41-80 | the line counter grows by exactly the newlines each step consumes |
| Lexical.StringStepLines | src/main/kotlin/com/craftinginterpreters/lox/Scanner.kt:112-128 | a string literal advances the line counter by the newlines inside it |
| Lexical.ClosingQuoteLines | src/main/kotlin/com/craftinginterpreters/lox/Scanner.kt:117-123 | the line count holds whether or not the closing quote is found |
| Lexical.NumberStepLines | src/main/kotlin/com/craftinginterpreters/lox/Scanner.kt:99-110 | a number leaves the line counter unchanged |
| Lexical.IdentifierStepLines | src/main/kotlin/com/craftinginterpreters/lox/Scanner.kt:91-97 | an identifier leaves the line counter unchanged |
| Lexical.SlashStepLines | src/main/kotlin/com/craftinginterpreters/lox/Scanner.kt:62-65 | a slash or a comment leaves the line counter unchanged and passes no newline |
| Lexical.OperatorStepLines | src/main/kotlin/com/craftinginterpreters/lox/Scanner.kt:57-60 | an operator leaves the line counter unchanged |
| Lexical.ScanFromLine | src/main/kotlin/com/craftinginterpreters/lox/Scanner.kt:32-36 | the scan loop ends on the starting line plus the newlines of the rest of the source |
| Lexical.ScanFromNoEof | src/main/kotlin/com/craftinginterpreters/lox/Scanner.kt:32-36 | the scan loop never makes an end-of-file token |
| Lexical.Scan | src/main/kotlin/com/craftinginterpreters/lox/Scanner.kt:32-39 | `scanTokens` ends with the one end-of-file token, which has an empty lexeme, a nil literal and line 1 plus the number of newlines |
| LexicalFacts.OperatorMunch | src/main/kotlin/com/craftinginterpreters/lox/Scanner.kt:57-60 | `!`, `=`, `<`, `>` take a following `=` into the two-character kind, and only then |
| LexicalFacts.SlashMunch | src/main/kotlin/com/craftinginterpreters/lox/Scanner.kt:62-65 | `//` produces nothing and stops at the next newline or the end; a lone `/` is the slash token |
| LexicalFacts.BlankSkipped | src/main/kotlin/com/craftinginterpreters/lox/Scanner.kt:67-69 | blanks produce nothing; a newline also counts a line |
| LexicalFacts.IdentifierMunch | src/main/kotlin/com/craftinginterpreters/lox/Scanner.kt:91-97 | an identifier is the longest alphanumeric run; its kind is the keyword's for a reserved word and `Identifier` exactly otherwise |
| LexicalFacts.KeywordsAreNotIdentifiers | src/main/kotlin/com/craftinginterpreters/lox/Scanner.kt:13-30 | no reserved word has the kind `Identifier` |
| LexicalFacts.NumberMunch | src/main/kotlin/com/craftinginterpreters/lox/Scanner.kt:99-110 | a number is the longest digit run, followed by the fraction exactly when a digit follows the dot; it never ends in a dot, and its literal is the value of its text |
| LexicalFacts.NumberEndFraction | src/main/kotlin/com/craftinginterpreters/lox/Scanner.kt:102-107 | a number read without a fraction is not followed by a dot and a digit |
| LexicalFacts.StringBodyNoQuote | src/main/kotlin/com/craftinginterpreters/lox/Scanner.kt:113-116 | the string loop passes no double quote |
| LexicalFacts.StringMunch | src/main/kotlin/com/craftinginterpreters/lox/Scanner.kt:112-128 | a string's value is the text between its quotes; without a closing quote the rest is consumed and "Unterminated string." is reported instead of a token |
| LexicalFacts.ScanStepErrors | src/main/kotlin/com/craftinginterpreters/lox/Scanner.kt:41-128 | a step reports an error exactly for an unexpected character or an unterminated string |
| LexicalFacts.ToDoubleScaled | src/main/kotlin/com/craftinginterpreters/lox/Scanner.kt:109 | a number's value, scaled by ten per fraction digit, is the integer its digits spell without the dot |
| Scanning.Scanner.constructor | src/main/kotlin/com/craftinginterpreters/lox/Scanner.kt:6-11 | a new scanner has no tokens, both cursors at 0 and line 1 |
| Scanning.Scanner.ScanTokens | src/main/kotlin/com/craftinginterpreters/lox/Scanner.kt:32-39 | the tokens, errors and line are those of `ScanFrom`, followed by the end-of-file token |
| Scanning.Scanner.ScanToken | src/main/kotlin/com/craftinginterpreters/lox/Scanner.kt:41-80 | the cursor, line, tokens and errors after one call are those of `ScanStep` |
| Scanning.Scanner.OtherToken | src/main/kotlin/com/craftinginterpreters/lox/Scanner.kt:73-78 | the `else` branch does what `ScanStep` does for such a character |
| Scanning.Scanner.SingleToken | src/main/kotlin/com/craftinginterpreters/lox/Scanner.kt:43-55 | a one-character token is added as `ScanStep` says |
| Scanning.Scanner.OperatorToken | src/main/kotlin/com/craftinginterpreters/lox/Scanner.kt:57-60 | an operator with an optional `=` is added as `ScanStep` says |
| Scanning.Scanner.SlashToken | src/main/kotlin/com/craftinginterpreters/lox/Scanner.kt:62-65 | a slash or comment is handled as `ScanStep` says |
| Scanning.Scanner.SkipComment | src/main/kotlin/com/craftinginterpreters/lox/Scanner.kt:64 | the comment loop stops at `CommentEnd` |
| Scanning.Scanner.IdentifierLiteral | src/main/kotlin/com/craftinginterpreters/lox/Scanner.kt:91-97 | the cursor stops at `IdentifierEnd` and one token of the keyword or identifier kind is appended |
| Scanning.Scanner.NumberLiteral | src/main/kotlin/com/craftinginterpreters/lox/Scanner.kt:99-110 | the cursor stops at `NumberEnd` and one number token with the text's value is appended |
| Scanning.Scanner.SkipNumber | src/main/kotlin/com/craftinginterpreters/lox/Scanner.kt:100-107 | the digit, dot and digit loops stop at `NumberEnd` |
| Scanning.Scanner.SkipDigits | src/main/kotlin/com/craftinginterpreters/lox/Scanner.kt:100 | a digit loop stops at `DigitsEnd` |
| Scanning.Scanner.StringLiteral | src/main/kotlin/com/craftinginterpreters/lox/Scanner.kt:112-128 | the cursor, line, tokens and errors are those of `StringStep` |
| Scanning.Scanner.SkipStringBody | src/main/kotlin/com/craftinginterpreters/lox/Scanner.kt:113-116 | the string loop's cursor and line are those of `StringBody` |
| Scanning.Scanner.Match | src/main/kotlin/com/craftinginterpreters/lox/Scanner.kt:136-142 | consumes one character exactly when it is the expected one |
| Scanning.Scanner.AddToken | src/main/kotlin/com/craftinginterpreters/lox/Scanner.kt:148-151 | appends one token whose lexeme is `source[start..current]`, on the current line |
| Scanning.Scanner.Advance | src/main/kotlin/com/craftinginterpreters/lox/Scanner.kt:153-155 | returns the character at the cursor and moves past it |
| Grammar.Fail | src/main/kotlin/com/craftinginterpreters/lox/Parser.kt:246-249 | a thrown error leaves the cursor in place and adds one report at the current token |
| Grammar.Consume | src/main/kotlin/com/craftinginterpreters/lox/Parser.kt:241-244 | succeeds exactly when the current token has the kind, returning it and moving one on; otherwise reports the message at it |
| Grammar.Expression | src/main/kotlin/com/craftinginterpreters/lox/Parser.kt:70 | moves forward, keeps the earlier reports as a prefix of the new ones, consumes a token on success, and a failure is reported where it stopped |
| Grammar.Assignment | src/main/kotlin/com/craftinginterpreters/lox/Parser.kt:72-85 | the same progress and reporting guarantees as `Expression`: earlier reports are kept as a prefix, and a failure is reported where it stopped |
| Grammar.AssignValue | src/main/kotlin/com/craftinginterpreters/lox/Parser.kt:74-84 | without `=` the target is returned unchanged; after `=` a variable target becomes an assignment to that name, and any other target is returned unchanged with "Invalid assignment target." reported at the `=` |
| Grammar.AssignTo | src/main/kotlin/com/craftinginterpreters/lox/Parser.kt:77-83 | never throws; a variable target gives `Assign(name, value)` with no report; any other target is kept, the value dropped, and exactly one report "Invalid assignment target." at the `=` is added |
| Grammar.BinaryLevel | src/main/kotlin/com/craftinginterpreters/lox/Parser.kt:87-170 | a binary level stops only at a token that is not one of its operators |
| Grammar.BinaryTail | src/main/kotlin/com/craftinginterpreters/lox/Parser.kt:90-94 | the operator loop stops only at a token that is not one of the level's operators |
| Grammar.BinaryStep | src/main/kotlin/com/craftinginterpreters/lox/Parser.kt:90-94 | one turn folds an operator and operand onto the tree and consumes input; no turn happens exactly when no operator follows |
| Grammar.Operand | src/main/kotlin/com/craftinginterpreters/lox/Parser.kt:87-170 | a level's operand parser makes progress and reports its failures |
| Grammar.Ternary | src/main/kotlin/com/craftinginterpreters/lox/Parser.kt:99-110 | `ternary()` never stops in front of a `?` |
| Grammar.TernaryTail | src/main/kotlin/com/craftinginterpreters/lox/Parser.kt:102-107 | the `?` loop stops only at a token that is not `?` |
| Grammar.TernaryStep | src/main/kotlin/com/craftinginterpreters/lox/Parser.kt:102-107 | one turn consumes input; no turn happens exactly when no `?` follows |
| Grammar.TernaryBranches | src/main/kotlin/com/craftinginterpreters/lox/Parser.kt:103-106 | the result is a ternary whose condition is the tree parsed before `?` |
| Grammar.Unary | src/main/kotlin/com/craftinginterpreters/lox/Parser.kt:172-178 | `unary()` makes progress and reports its failures |
| Grammar.Primary | src/main/kotlin/com/craftinginterpreters/lox/Parser.kt:180-194 | `primary()` makes progress; anything but a primary is "Expect expression." at the current token |
| Grammar.LiteralAt | src/main/kotlin/com/craftinginterpreters/lox/Parser.kt:183-186 | a literal is never the end-of-file token |
| Grammar.Group | src/main/kotlin/com/craftinginterpreters/lox/Parser.kt:187-191 | a group is a `Grouping` node ending at a `)` |
| Grammar.Synchronize | src/main/kotlin/com/craftinginterpreters/lox/Parser.kt:223-239 | skips the offending token, then stops just after the first `;`, before the first statement keyword, or at the end, and passes nothing that would stop it |
| Grammar.SyncLoop | src/main/kotlin/com/craftinginterpreters/lox/Parser.kt:225-238 | the loop stops at the first position it may not pass |
| Grammar.Declaration | src/main/kotlin/com/craftinginterpreters/lox/Parser.kt:22-30 | never throws; consumes a token unless at the end; the result is a hole exactly when the `try` block threw, and then the cursor is where `synchronize()` leaves it with the thrown error's reports kept; otherwise it is the `try` block's statement and state; without a new report the statement has no holes |
| Grammar.Attempt | src/main/kotlin/com/craftinginterpreters/lox/Parser.kt:23-25 | without a new report the statement has no holes |
| Grammar.Recover | src/main/kotlin/com/craftinginterpreters/lox/Parser.kt:26-28 | recovery keeps the reports, lands where `synchronize()` stops, and consumes a token unless at the end |
| Grammar.VarDeclaration | src/main/kotlin/com/craftinginterpreters/lox/Parser.kt:32-42 | a variable declaration ends at its `;` |
| Grammar.VarRest | src/main/kotlin/com/craftinginterpreters/lox/Parser.kt:35-41 | the declaration carries the name parsed before it and ends at `;` |
| Grammar.Terminate | src/main/kotlin/com/craftinginterpreters/lox/Parser.kt:60 | succeeds exactly when a `;` follows, consuming only it |
| Grammar.Initializer | src/main/kotlin/com/craftinginterpreters/lox/Parser.kt:35-38 | there is no initializer exactly when nothing is consumed |
| Grammar.Statement | src/main/kotlin/com/craftinginterpreters/lox/Parser.kt:44-47 | without a new report the statement has no holes |
| Grammar.BlockOrExprStmt | src/main/kotlin/com/craftinginterpreters/lox/Parser.kt:46 | without a new report the statement has no holes |
| Grammar.BlockStmt | src/main/kotlin/com/craftinginterpreters/lox/Parser.kt:46 | the result is a block; without a new report it has no holes |
| Grammar.Block | src/main/kotlin/com/craftinginterpreters/lox/Parser.kt:49-56 | a block ends at `}`; without a new report it has no holes |
| Grammar.BlockLoop | src/main/kotlin/com/craftinginterpreters/lox/Parser.kt:51-54 | the loop ends with the required `}`, and adds no holes without a new report |
| Grammar.CloseBlock | src/main/kotlin/com/craftinginterpreters/lox/Parser.kt:54 | succeeds exactly when a `}` follows, returning the statements gathered |
| Grammar.PrintStmt | src/main/kotlin/com/craftinginterpreters/lox/Parser.kt:58-62 | a print statement ending at `;` |
| Grammar.ExprStmt | src/main/kotlin/com/craftinginterpreters/lox/Parser.kt:64-68 | an expression statement ending at `;` |
| Grammar.ParseLoop | src/main/kotlin/com/craftinginterpreters/lox/Parser.kt:11-18 | the loop never fails and stops at the end-of-file token; the statements gathered so far are kept as a prefix, each turn adds at least one entry, and without a new report no holes are added |
| Grammar.Parse | src/main/kotlin/com/craftinginterpreters/lox/Parser.kt:9-20 | `parse()` always returns, at the end of the tokens; with no report there is no hole |
| ParseTrees.OperandRule | src/main/kotlin/com/craftinginterpreters/lox/Parser.kt:87-170 | each level's operands come from a tighter rule |
| ParseTrees.VariableDerives | src/main/kotlin/com/craftinginterpreters/lox/Parser.kt:182 | every variable node the grammar derives names an identifier token |
| ParseTrees.AllDeriveAppend | src/main/kotlin/com/craftinginterpreters/lox/Parser.kt:49-56 | appending a derivable statement or a hole keeps a list derivable |
| ParseTrees.OperatorsDisjoint | src/main/kotlin/com/craftinginterpreters/lox/Parser.kt:87-170 | no operator belongs to two levels |
| ParseTrees.TighterOperands | src/main/kotlin/com/craftinginterpreters/lox/Parser.kt:87-178 | precedence: a tree of a tighter rule is never a bare node of a looser level's operator |
| ParseTrees.LeftAssociative | src/main/kotlin/com/craftinginterpreters/lox/Parser.kt:112-170 | left associativity: the right operand of a level's operator is never a bare node of that level |
| ParseTrees.VariableFactor | src/main/kotlin/com/craftinginterpreters/lox/Parser.kt:160-170 | `factor()` at an identifier not followed by `*` or `/` returns that variable and stops after it |
| ParseTrees.SubtractionGroupsLeft | src/main/kotlin/com/craftinginterpreters/lox/Parser.kt:148-158 | `term()` on the tokens `a - b - c` returns `(a - b) - c` and stops at the end of file |
| ParseTrees.ExpressionDerives | src/main/kotlin/com/craftinginterpreters/lox/Parser.kt:70 | every tree `expression()` returns derives from `assignment` |
| ParseTrees.AssignmentDerives | src/main/kotlin/com/craftinginterpreters/lox/Parser.kt:72-85 | every tree `assignment()` returns derives from `assignment` |
| ParseTrees.AssignValueDerives | src/main/kotlin/com/craftinginterpreters/lox/Parser.kt:74-84 | an `Assign` targets an identifier and its value derives from `assignment` |
| ParseTrees.BinaryLevelDerives | src/main/kotlin/com/craftinginterpreters/lox/Parser.kt:87-170 | every tree a binary level returns derives from its rule |
| ParseTrees.BinaryTailDerives | src/main/kotlin/com/craftinginterpreters/lox/Parser.kt:90-94 | the loop keeps the tree so far derivable from the level's rule |
| ParseTrees.BinaryStepDerives | src/main/kotlin/com/craftinginterpreters/lox/Parser.kt:90-94 | one fold keeps the tree derivable from the level's rule |
| ParseTrees.OperandDerives | src/main/kotlin/com/craftinginterpreters/lox/Parser.kt:87-170 | an operand derives from the next-tighter rule |
| ParseTrees.TernaryDerives | src/main/kotlin/com/craftinginterpreters/lox/Parser.kt:99-110 | every tree `ternary()` returns derives from `ternary` |
| ParseTrees.TernaryTailDerives | src/main/kotlin/com/craftinginterpreters/lox/Parser.kt:102-107 | the `?` loop keeps the tree derivable from `ternary` |
| ParseTrees.TernaryStepDerives | src/main/kotlin/com/craftinginterpreters/lox/Parser.kt:102-107 | one turn keeps the tree derivable from `ternary` |
| ParseTrees.TernaryBranchesDerives | src/main/kotlin/com/craftinginterpreters/lox/Parser.kt:103-106 | the then branch derives from `assignment`, the else branch from `ternary` |
| ParseTrees.UnaryDerives | src/main/kotlin/com/craftinginterpreters/lox/Parser.kt:172-178 | every tree `unary()` returns derives from `unary` |
| ParseTrees.PrimaryDerives | src/main/kotlin/com/craftinginterpreters/lox/Parser.kt:180-194 | every tree `primary()` returns derives from `primary` |
| ParseTrees.GroupDerives | src/main/kotlin/com/craftinginterpreters/lox/Parser.kt:187-191 | a group derives from `primary` |
| ParseTrees.DeclarationDerives | src/main/kotlin/com/craftinginterpreters/lox/Parser.kt:22-30 | every statement `declaration()` returns is a tree of the grammar |
| ParseTrees.AttemptDerives | src/main/kotlin/com/craftinginterpreters/lox/Parser.kt:23-25 | every statement the `try` block returns is a tree of the grammar |
| ParseTrees.VarDeclarationDerives | src/main/kotlin/com/craftinginterpreters/lox/Parser.kt:32-42 | the declared name is the identifier token after `var` |
| ParseTrees.VarRestDerives | src/main/kotlin/com/craftinginterpreters/lox/Parser.kt:35-41 | an initializer derives from `assignment` |
| ParseTrees.StatementDerives | src/main/kotlin/com/craftinginterpreters/lox/Parser.kt:44-47 | every statement `statement()` returns is a tree of the grammar |
| ParseTrees.BlockOrExprStmtDerives | src/main/kotlin/com/craftinginterpreters/lox/Parser.kt:46 | blocks and expression statements are trees of the grammar |
| ParseTrees.BlockDerives | src/main/kotlin/com/craftinginterpreters/lox/Parser.kt:49-56 | every statement of a block is a tree of the grammar |
| ParseTrees.BlockLoopDerives | src/main/kotlin/com/craftinginterpreters/lox/Parser.kt:51-54 | the block loop only adds trees of the grammar |
| ParseTrees.ParseLoopDerives | src/main/kotlin/com/craftinginterpreters/lox/Parser.kt:11-18 | the parse loop only adds trees of the grammar |
| ParseTrees.ParseDerives | src/main/kotlin/com/craftinginterpreters/lox/Parser.kt:9-20 | every statement `parse()` returns is a tree of the grammar |
| Parsing.Parser.constructor | src/main/kotlin/com/craftinginterpreters/lox/Parser.kt:4-7 | a new parser starts at the first token with no reports |
| Parsing.Parser.Parse | src/main/kotlin/com/craftinginterpreters/lox/Parser.kt:9-20 | the position, reports and statements are those of `Grammar.ParseLoop`, and of `Grammar.Parse` on a fresh parser |
| Parsing.Parser.Declaration | src/main/kotlin/com/craftinginterpreters/lox/Parser.kt:22-30 | the state and result are those of `Grammar.Declaration` |
| Parsing.Parser.Attempt | src/main/kotlin/com/craftinginterpreters/lox/Parser.kt:23-25 | the state and result are those of `Grammar.Attempt` |
| Parsing.Parser.VarDeclaration | src/main/kotlin/com/craftinginterpreters/lox/Parser.kt:32-42 | the state and result are those of `Grammar.VarDeclaration` |
| Parsing.Parser.Statement | src/main/kotlin/com/craftinginterpreters/lox/Parser.kt:44-47 | the state and result are those of `Grammar.Statement` |
| Parsing.Parser.BlockOrExprStmt | src/main/kotlin/com/craftinginterpreters/lox/Parser.kt:46 | the state and result are those of `Grammar.BlockOrExprStmt` |
| Parsing.Parser.BlockStmt | src/main/kotlin/com/craftinginterpreters/lox/Parser.kt:46 | the state and result are those of `Grammar.BlockStmt` |
| Parsing.Parser.Block | src/main/kotlin/com/craftinginterpreters/lox/Parser.kt:49-56 | the state and result are those of `Grammar.Block` |
| Parsing.Parser.PrintStmt | src/main/kotlin/com/craftinginterpreters/lox/Parser.kt:58-62 | the state and result are those of `Grammar.PrintStmt` |
| Parsing.Parser.ExprStmt | src/main/kotlin/com/craftinginterpreters/lox/Parser.kt:64-68 | the state and result are those of `Grammar.ExprStmt` |
| Parsing.Parser.Expression | src/main/kotlin/com/craftinginterpreters/lox/Parser.kt:70 | the state and result are those of `Grammar.Expression` |
| Parsing.Parser.Assignment | src/main/kotlin/com/craftinginterpreters/lox/Parser.kt:72-85 | the state and result are those of `Grammar.Assignment` |
| Parsing.Parser.AssignValue | src/main/kotlin/com/craftinginterpreters/lox/Parser.kt:74-84 | the state and result are those of `Grammar.AssignValue` |
| Parsing.Parser.AssignTo | src/main/kotlin/com/craftinginterpreters/lox/Parser.kt:77-83 | the reports and result are those of `Grammar.AssignTo` |
| Parsing.Parser.BinaryLevel | src/main/kotlin/com/craftinginterpreters/lox/Parser.kt:87-170 | the state and result of `comma()` through `factor()` are those of `Grammar.BinaryLevel` |
| Parsing.Parser.BinaryTail | src/main/kotlin/com/craftinginterpreters/lox/Parser.kt:90-94 | the state and result are those of `Grammar.BinaryTail` |
| Parsing.Parser.BinaryStep | src/main/kotlin/com/craftinginterpreters/lox/Parser.kt:90-94 | the state and result are those of `Grammar.BinaryStep` |
| Parsing.Parser.Operand | src/main/kotlin/com/craftinginterpreters/lox/Parser.kt:87-170 | the state and result are those of `Grammar.Operand` |
| Parsing.Parser.Ternary | src/main/kotlin/com/craftinginterpreters/lox/Parser.kt:99-110 | the state and result are those of `Grammar.Ternary` |
| Parsing.Parser.TernaryTail | src/main/kotlin/com/craftinginterpreters/lox/Parser.kt:102-107 | the state and result are those of `Grammar.TernaryTail` |
| Parsing.Parser.TernaryStep | src/main/kotlin/com/craftinginterpreters/lox/Parser.kt:102-107 | the state and result are those of `Grammar.TernaryStep` |
| Parsing.Parser.TernaryBranches | src/main/kotlin/com/craftinginterpreters/lox/Parser.kt:103-106 | the state and result are those of `Grammar.TernaryBranches` |
| Parsing.Parser.Unary | src/main/kotlin/com/craftinginterpreters/lox/Parser.kt:172-178 | the state and result are those of `Grammar.Unary` |
| Parsing.Parser.Primary | src/main/kotlin/com/craftinginterpreters/lox/Parser.kt:180-194 | the state and result are those of `Grammar.Primary` |
| Parsing.Parser.MatchLiteral | src/main/kotlin/com/craftinginterpreters/lox/Parser.kt:183-186 | the literal cases consume one token exactly when `LiteralAt` gives a value, and return it |
| Parsing.Parser.MatchValue | src/main/kotlin/com/craftinginterpreters/lox/Parser.kt:185-186 | the `nil`, string and number cases consume one token exactly when `LiteralAt` gives a value |
| Parsing.Parser.Group | src/main/kotlin/com/craftinginterpreters/lox/Parser.kt:187-191 | the state and result are those of `Grammar.Group` |
| Parsing.Parser.Advance | src/main/kotlin/com/craftinginterpreters/lox/Parser.kt:196-199 | moves one on unless at the end and returns the token just passed |
| Parsing.Parser.MatchOne | src/main/kotlin/com/craftinginterpreters/lox/Parser.kt:213-221 | consumes the current token exactly when `check` holds for the kind |
| Parsing.Parser.Match | src/main/kotlin/com/craftinginterpreters/lox/Parser.kt:213-221 | consumes the current token exactly when `check` holds for one of the kinds |
| Parsing.Parser.Synchronize | src/main/kotlin/com/craftinginterpreters/lox/Parser.kt:223-239 | the cursor ends at `Grammar.Synchronize` |
| Parsing.Parser.Consume | src/main/kotlin/com/craftinginterpreters/lox/Parser.kt:241-244 | the state and result are those of `Grammar.Consume` |
| Parsing.Parser.Error | src/main/kotlin/com/craftinginterpreters/lox/Parser.kt:246-249 | appends exactly one report at the token |
| Environments.Reassign | src/main/kotlin/com/craftinginterpreters/lox/Environment.kt:12-25 | `assign` keeps the number of scopes |
| Environments.LookupUnbound | src/main/kotlin/com/craftinginterpreters/lox/Environment.kt:27-37 | a lookup finds nothing exactly when no scope binds the name |
| Environments.LookupInnermost | src/main/kotlin/com/craftinginterpreters/lox/Environment.kt:27-37 | a lookup returns the binding of the innermost scope that has the name |
| Environments.InnermostExists | src/main/kotlin/com/craftinginterpreters/lox/Environment.kt:27-37 | when some scope binds a name, an innermost one does |
| Environments.ReassignInnermost | src/main/kotlin/com/craftinginterpreters/lox/Environment.kt:12-25 | `assign` overwrites only the innermost binding of the name |
| Environments.ReassignUnbound | src/main/kotlin/com/craftinginterpreters/lox/Environment.kt:12-25 | `assign` of an unbound name changes nothing |
| Environments.LookupAfterDefine | src/main/kotlin/com/craftinginterpreters/lox/Environment.kt:8-10 | `get` after `define` returns the defined value |
| Environments.LookupOtherAfterDefine | src/main/kotlin/com/craftinginterpreters/lox/Environment.kt:8-10 | `define` changes no other name's value |
| Environments.LookupAfterReassign | src/main/kotlin/com/craftinginterpreters/lox/Environment.kt:12-25 | after `assign` of a bound name `get` returns the new value; other names are unchanged |
| Environments.ReassignKeepsNames | src/main/kotlin/com/craftinginterpreters/lox/Environment.kt:12-25 | `assign` never adds or removes a binding |
| Environments.Environment.Scopes | src/main/kotlin/com/craftinginterpreters/lox/Environment.kt:3-6 | the chain of scopes is nonempty and ends with this scope's own map |
| Environments.Environment.constructor | src/main/kotlin/com/craftinginterpreters/lox/Environment.kt:3-6 | a new scope is empty and nested in the given one |
| Environments.Environment.Define | src/main/kotlin/com/craftinginterpreters/lox/Environment.kt:8-10 | only this scope's map changes, binding the name |
| Environments.Environment.Assign | src/main/kotlin/com/craftinginterpreters/lox/Environment.kt:12-25 | throws "Undefined variable" exactly when no scope binds the name; the scopes become `Reassign`'s |
| Environments.Environment.Get | src/main/kotlin/com/craftinginterpreters/lox/Environment.kt:27-37 | returns the innermost binding, or throws "Undefined variable" exactly when there is none |
| Semantics.IsTruthy | src/main/kotlin/com/craftinginterpreters/lox/Interpreter.kt:158-163 | only `nil` and `false` are false |
| Semantics.IsEqual | src/main/kotlin/com/craftinginterpreters/lox/Interpreter.kt:165-167 | equal values have the same kind; `nil` equals `nil`; booleans, numbers and strings are equal exactly when their contents are |
| Semantics.PlusCases | src/main/kotlin/com/craftinginterpreters/lox/Interpreter.kt:42-50 | `+` adds numbers, joins strings, is `nil` for any other pair, and never fails |
| Semantics.NumberOperands | src/main/kotlin/com/craftinginterpreters/lox/Interpreter.kt:25-79 | "Operands must be numbers." is thrown at the operator exactly for a numeric operator with a non-number operand |
| Semantics.OtherOperatorsNil | src/main/kotlin/com/craftinginterpreters/lox/Interpreter.kt:75-77 | operators without a case, `and`, `or` and `,` among them, give `nil` |
| Semantics.Stringify | src/main/kotlin/com/craftinginterpreters/lox/Interpreter.kt:176-186 | `nil` prints "nil", a boolean prints "true" or "false", a string prints itself, a number prints its text without a trailing ".0" |
| Semantics.Eval | src/main/kotlin/com/craftinginterpreters/lox/Interpreter.kt:8-101 | evaluation keeps the number of scopes and never fails on a null statement |
| Semantics.EvalKeepsNames | src/main/kotlin/com/craftinginterpreters/lox/Interpreter.kt:85-93 | evaluation never creates or removes a binding |
| Semantics.AssignFreeKeepsScopes | src/main/kotlin/com/craftinginterpreters/lox/Interpreter.kt:8-101 | an expression without assignment leaves the scopes unchanged |
| Semantics.AssignReturnsValue | src/main/kotlin/com/craftinginterpreters/lox/Interpreter.kt:85-93 | an assignment yields the assigned value, which the variable then holds |
| Semantics.TernaryEager | src/main/kotlin/com/craftinginterpreters/lox/Interpreter.kt:95-101 | all three operands are evaluated in order; the second's value is chosen exactly when the first is truthy |
| Semantics.NoShortCircuit | src/main/kotlin/com/craftinginterpreters/lox/Interpreter.kt:25-79 | `and`, `or` and `,` evaluate both operands and yield `nil` |
| Semantics.Exec | src/main/kotlin/com/craftinginterpreters/lox/Interpreter.kt:103-124 | a statement keeps the number of scopes; a block's own scope is dropped afterwards |
| Semantics.ExecFrom | src/main/kotlin/com/craftinginterpreters/lox/Interpreter.kt:126-139 | the block loop keeps the number of scopes |
| Semantics.InterpretFrom | src/main/kotlin/com/craftinginterpreters/lox/Interpreter.kt:141-149 | the top-level loop keeps the number of scopes |
| Semantics.InterpretSkipsHoles | src/main/kotlin/com/craftinginterpreters/lox/Interpreter.kt:141-149 | the top-level loop skips the statements the parser dropped and runs the others exactly as the block loop runs them |
| Semantics.ExecFromDrop | src/main/kotlin/com/craftinginterpreters/lox/Interpreter.kt:132-135 | running a block from position `i` is running its tail from `i - 1` |
| Semantics.ExecKeepsOuterNames | src/main/kotlin/com/craftinginterpreters/lox/Interpreter.kt:112-139 | only `var` adds names, and only to the innermost scope; a block leaves no binding behind |
| Semantics.ExecFromKeepsOuterNames | src/main/kotlin/com/craftinginterpreters/lox/Interpreter.kt:126-139 | the block loop adds names only to its own scope |
| Semantics.VarWithoutInitializer | src/main/kotlin/com/craftinginterpreters/lox/Interpreter.kt:112-120 | `var x;` binds `x` to `nil` in the innermost scope |
| Semantics.NoHolesNoNull | src/main/kotlin/com/craftinginterpreters/lox/Interpreter.kt:126-139 | a statement without holes never fails on `statement!!` |
| Semantics.NoHolesFromNoNull | src/main/kotlin/com/craftinginterpreters/lox/Interpreter.kt:126-139 | a list without holes never fails on `statement!!` |
| Semantics.InterpretAsBlockLoop | src/main/kotlin/com/craftinginterpreters/lox/Interpreter.kt:141-149 | on a list without holes, the top-level loop and the block loop agree |
| Interpreting.Interpreter.constructor | src/main/kotlin/com/craftinginterpreters/lox/Interpreter.kt:6 | a new interpreter has one empty global scope and no output |
| Interpreting.Interpreter.Evaluate | src/main/kotlin/com/craftinginterpreters/lox/Interpreter.kt:155-156 | the value or fault and the new scopes are those of `Eval` |
| Interpreting.Interpreter.EvaluateTernary | src/main/kotlin/com/craftinginterpreters/lox/Interpreter.kt:95-101 | the value or fault and the new scopes are those of `Eval` on the ternary |
| Interpreting.Interpreter.Execute | src/main/kotlin/com/craftinginterpreters/lox/Interpreter.kt:151-153 | the fault, scopes and printed lines are those of `Exec`; the current environment is the same object afterwards |
| Interpreting.Interpreter.ExecuteVarDecl | src/main/kotlin/com/craftinginterpreters/lox/Interpreter.kt:112-120 | the fault and scopes are those of `Exec` on the declaration, and nothing is printed |
| Interpreting.Interpreter.ExecuteBlock | src/main/kotlin/com/craftinginterpreters/lox/Interpreter.kt:126-139 | runs `ExecFrom` in the new scope and restores the previous environment, whether the block completed or failed |
| Interpreting.Interpreter.ExecuteStatements | src/main/kotlin/com/craftinginterpreters/lox/Interpreter.kt:132-135 | the block's loop computes `ExecFrom` |
| Interpreting.Interpreter.Interpret | src/main/kotlin/com/craftinginterpreters/lox/Interpreter.kt:141-149 | computes `InterpretFrom`; a thrown runtime error is reported, any other failure escapes |
| Interpreting.Interpreter.InterpretStatements | src/main/kotlin/com/craftinginterpreters/lox/Interpreter.kt:142-145 | the top-level loop computes `InterpretFrom` |
| AstPrinting.ShowAll | src/main/kotlin/com/craftinginterpreters/lox/sandbox/Astrinter.kt:35-38 | one text per child |
| AstPrinting.Print | src/main/kotlin/com/craftinginterpreters/lox/sandbox/Astrinter.kt:7-9 | `print` returns `Show` |
| AstPrinting.Parenthesize | src/main/kotlin/com/craftinginterpreters/lox/sandbox/Astrinter.kt:32-41 | the builder's text is `(`, the name, each child's text after a space, then `)` |
| AstPrinting.ParenthesizeTexts | src/main/kotlin/com/craftinginterpreters/lox/sandbox/Astrinter.kt:43-51 | each string after a space, then `)`, with no opening parenthesis |
| AstPrinting.WrapSpelled | src/main/kotlin/com/craftinginterpreters/lox/sandbox/Astrinter.kt:32-41 | `parenthesize` with one, two or three children, spelled out |
| AstPrinting.ShowOperatorShapes | src/main/kotlin/com/craftinginterpreters/lox/sandbox/Astrinter.kt:11-30 | unary prints `(op right)`, binary `(op left right)` |
| AstPrinting.ShowLabelShapes | src/main/kotlin/com/craftinginterpreters/lox/sandbox/Astrinter.kt:15-60 | a grouping prints `(group e)`, a ternary `(ternary a b c)` |
| AstPrinting.ShowVariableShape | src/main/kotlin/com/craftinginterpreters/lox/sandbox/Astrinter.kt:62-64 | a variable prints ` variable name)` |
| AstPrinting.WrapBalanced | src/main/kotlin/com/craftinginterpreters/lox/sandbox/Astrinter.kt:32-41 | `parenthesize` with a plain name around balanced children is balanced |
| AstPrinting.VariableNet | src/main/kotlin/com/craftinginterpreters/lox/sandbox/Astrinter.kt:62-64 | a variable leaves one unmatched closing parenthesis |
| AstPrinting.CompoundNet | src/main/kotlin/com/craftinginterpreters/lox/sandbox/Astrinter.kt:11-60 | an operator or labelled node opens as many parentheses as it closes around its children |
| AstPrinting.LiteralNet | src/main/kotlin/com/craftinginterpreters/lox/sandbox/Astrinter.kt:19-22 | a literal with a plain text prints no parenthesis |
| AstPrinting.ShowNet | src/main/kotlin/com/craftinginterpreters/lox/sandbox/Astrinter.kt:7-64 | with plain atoms, closing minus opening parentheses is the number of variables |
| AstPrinting.CompoundBalanced | src/main/kotlin/com/craftinginterpreters/lox/sandbox/Astrinter.kt:11-60 | an operator or labelled node around balanced children prints balanced |
| AstPrinting.ShowBalanced | src/main/kotlin/com/craftinginterpreters/lox/sandbox/Astrinter.kt:7-60 | with plain atoms and no variable, every parenthesis is matched |
| RpnPrinting.Postfix | src/main/kotlin/com/craftinginterpreters/lox/sandbox/RPNExprVisitor.kt:9-23 | every tree has at least one postfix item |
| RpnPrinting.RpnSpellsPostfix | src/main/kotlin/com/craftinginterpreters/lox/sandbox/RPNExprVisitor.kt:7-23 | the printed text is the postfix items joined by single spaces |
| RpnPrinting.RunPostfix | src/main/kotlin/com/craftinginterpreters/lox/sandbox/RPNExprVisitor.kt:9-23 | reading a tree's items pushes exactly the ungrouped tree, whatever is below or follows |
| RpnPrinting.PostfixRebuilds | src/main/kotlin/com/craftinginterpreters/lox/sandbox/RPNExprVisitor.kt:9-23 | the postfix items rebuild the tree up to its groupings |
| RpnPrinting.PostfixDeterminesTree | src/main/kotlin/com/craftinginterpreters/lox/sandbox/RPNExprVisitor.kt:9-23 | two trees with the same items differ at most in groupings |
| RpnPrinting.RpnIgnoresGrouping | src/main/kotlin/com/craftinginterpreters/lox/sandbox/RPNExprVisitor.kt:13-15 | a tree prints as its ungrouped form does |
| Samples.SamplePostfix | src/main/kotlin/com/craftinginterpreters/lox/sandbox/RPNExprVisitor.kt:40-64 | the sample prints as `1 2 + 4 2 - *` |
| Samples.SampleParenthesized | src/main/kotlin/com/craftinginterpreters/lox/sandbox/RPNExprVisitor.kt:40-64 | the sample prints as `(* (group (+ 1 2)) (group (- 4 2)))` |

## Left out

- Numbers are exact reals, not IEEE doubles:
  - `toDouble` rounding is not modelled.
  - Negative zero and NaN are not modelled.
  - A quotient by zero, whose IEEE value is an infinity or NaN, ends evaluation as `Aborted(NonFiniteQuotient)`.
- `Double.toString` and the platform `toString` of a double are the `numText` parameter, because their formatting is not modelled.
- Characters are Unicode scalar values, not UTF-16 code units, and Kotlin `Int` overflow of line counters and indices is not modelled.
- Lexical.IsDigit: accepts only `0`-`9`. The source's `Character.isDigit` also accepts other Unicode decimal digits:
  - such digits could appear inside identifiers;
  - a number starting with one would make `toDouble` throw;
  - the model treats them as unexpected characters.
- The driver and the REPL (`Lox.kt`) are not part of this model:
  - file and console reading;
  - the `hadError` and `hadRuntimeError` flags;
  - exit codes.

  `Parse` proves that a parse without reports leaves no holes. That is why the driver's `hadError` guard keeps null statements away from the interpreter.
- Standard error output is kept as values instead of printed text. These are `Diagnostic` for static errors and `RuntimeError` for runtime errors. `println` output is the `output` sequence of the interpreter.
- Parsing.Parser.Match: the kinds are a set, not an ordered vararg list. The current token has one kind, so at most one try can succeed and the order cannot matter.
- Parsing.Parser.Parse: the `catch` of `parse()` is not modelled, because `declaration()` never throws (`Grammar.Declaration`).
- Parsing.Parser.constructor: requires a nonempty token list ending in the end-of-file token. That is what `scanTokens` always returns (`Lexical.Scan`). On any other list the source indexes out of range.
- Parsing.Parser.Declaration: requires the cursor not to be at the end, as both callers (`parse()` and `block()`) check. At the end, recovery from the first token would read `previous()` before the list.
- JVM exceptions that the interpreter does not catch become `Aborted` faults:
  - a unary minus on a non-number, a `ClassCastException`, is `NotADouble`;
  - a hole in a block, a `NullPointerException` from `statement!!`, is `NullStatement`.
- Kotlin `==` on values is modelled as equality of `Value`s (`Semantics.IsEqual`). Boxed-double identity and NaN are not modelled.
- AstPrinting.Show: requires an assignment-free tree. The source's `visitAssignExpr` only throws `NotImplementedError`.
- RpnPrinting.Rpn: requires a tree of unary, grouping, literal and binary nodes. The other visits only throw `NotImplementedError`.
- AstPrinting.Parenthesize: children are never null here. The `null` text that the source's `expr?.accept` would print cannot occur.
- Samples.SamplePostfix and Samples.SampleParenthesized: the sandbox sample's literals are Kotlin integers, whose `toString` has no fraction. The lemmas therefore require `numText` to print 1, 2 and 4 as `1`, `2` and `4`. The `println` calls of the sample driver are not modelled.
