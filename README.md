# Screener-expression compiler, modelled in Dafny

This project models `yscreener/screener_expr.py`. That file compiles a stock-screener filter such as
`region == "kr" && intradaymarketcap > 300B` into a canonical nested value of the form
`{"operator": ..., "operands": [...]}`. The compiler has three stages, and the model keeps them apart.

- **Scanner** (`Lexer`).
  - The `Scanner` class keeps the text and a cursor `pos`. Its methods advance the cursor in `while` loops, just as
    `scan_tokens`, `scan_number`, `scan_string` and `scan_identifier` do.
  - Each method is proved against a specification function: `ScanFrom`, `LexemeAt`, `NumberAt`, `StringAt` or
    `IdentifierAt`.
  - Two helper methods are split out of the long `if` chain of `scan_tokens`: `ScanLexeme` dispatches on the first
    character, and `ScanSymbol` reads the operators and punctuation.
  - The scanner's exceptions become `Err` values of one `Error` datatype (`Errors`). A number that Python's `float()`
    rejects, such as `.` or `1.2.3`, is the error `InvalidNumber`.
- **Parser** (`Grammar`, `Parsing`).
  - `Grammar` states the recursive descent as functions from a token list and a position to the expression read
    there and the position after it.
  - The `Parser` class keeps the token list and the cursor `current`. Its methods (`Peek`, `Previous`, `Check`,
    `Advance`, `Match`, `Consume`, and the five levels `OrExpr` … `Primary`) mutate the cursor as the source does.
  - Each of those methods is proved to compute exactly the grammar function.
  - `Valid()` is the class invariant: the token list ends with EOF, and the cursor stays on the list.
- **Serialiser** (`Canonical`).
  - `ToDict` maps the tree (`Ast.Expr`: `Num | Str | Ident | Bin | Btwn`) to the `Canonical` datatype.
  - An empty string or identifier is the error `EmptyStringIndex`. This mirrors `expr[0]` failing on `""`.
  - The strip-the-quotes branch is modelled as written, and is proved never to fire on what the scanner produces.
- **Entry point** (`ScreenerExpr`). The method `ParseScreenerExpr` runs the two classes one after the other. It is
  proved equal to the function `Compile`.

Numbers are exact decimals (`Numbers.Decimal`: mantissa times a power of ten), not IEEE doubles. A suffix `K`, `M`, `B`
or `T` (either case) adds 3, 6, 9 or 12 to the exponent.

The properties proved about the model:

- **Scanner output**
  - Scanned token lists end with exactly one EOF token, whose text is empty.
  - White space produces no token.
  - A number lexeme is read exactly when its run of digits and dots is a valid numeral; it is greedy, and its value is exact.
  - Every operator and punctuation text is read as its token.
  - String tokens never contain a quote.
  - Each of the scanner's failures names its cause, wherever in the text the scan meets it.
- **Parser behaviour**
  - A printer (`GrammarFacts.Print`) writes a tree with the fewest parentheses. The parser reads every printed tree
    back when the next token cannot continue it, which covers EOF, `)`, `:` and `]` (`PrintThenParse`, `PrintedRoundTrip`). Precedence, left folding, grouping and the
    range form all follow from this.
  - The behaviours of the source are reproduced: trailing tokens are ignored, and chained comparisons are accepted.
  - Each of the parser's error messages is reached by a described input.
- **Serialiser**
  - The serialiser's output is well shaped: binary nodes have two operands, and `btwn` nodes have three.
  - `FromDict` reads the output back to the tree, up to the string/identifier distinction.

## Model

| member | source | states |
|---|---|---|
| Tokens.Symbol | yscreener/screener_expr.py:3-19 | exactly the operator and punctuation kinds have a fixed text, one or two characters long; numbers, strings, identifiers and EOF do not |
| Lexer.IsScaleSuffix | yscreener/screener_expr.py:87 | a character is a suffix exactly when its upper case is K, M, B or T, that is when it is one of `kKmMbBtT` |
| Lexer.SuffixExponent | yscreener/screener_expr.py:87-103 | the suffix letters k/K, m/M, b/B, t/T scale by 10^3, 10^6, 10^9, 10^12 respectively, and by nothing else |
| Lexer.RunEnd | yscreener/screener_expr.py:83-84 | the cursor loop stops at the first character outside the class, or at the end; every character it passed is in the class |
| Lexer.NumberAt | yscreener/screener_expr.py:81-105 | a number lexeme is a NUMBER token that ends right after the greedy run of digits and dots, or one character later when a suffix letter follows; when `float()` rejects the run, the error names that run |
| Lexer.StringAt | yscreener/screener_expr.py:107-116 | a string is read iff a closing quote follows; the token holds exactly the characters strictly between the two quotes, which contain no quote; otherwise "Unterminated string" |
| Lexer.IdentifierAt | yscreener/screener_expr.py:118-122 | an identifier is the longest run of letters, digits and `_` from the cursor, and its token holds that text |
| Lexer.LexemeAt | yscreener/screener_expr.py:40-77 | a lexeme consumes at least one character and is never EOF; its literal fits its kind and holds no quote; a token without literal is an operator or punctuation whose text is exactly what it consumed; a failure on a character that starts neither a number nor a string is an unexpected character naming it |
| Lexer.ScanFrom | yscreener/screener_expr.py:34-79 | a scan yields a list that ends with the EOF token (empty text), has no EOF before it, and has literals of the right type and free of quotes |
| Lexer.Scan | yscreener/screener_expr.py:34-79 | a scan from the start yields a well-formed, quote-free token list |
| Lexer.ScanStep | yscreener/screener_expr.py:40-45 | a non-space lexeme is followed by the scan of the rest of the text |
| Lexer.Scanner.constructor | yscreener/screener_expr.py:30-32 | the cursor starts at 0 |
| Lexer.Scanner.ScanTokens | yscreener/screener_expr.py:34-79 | the loop returns exactly the specified scan from the cursor, or its first error; after a successful scan the cursor is at the end of the text |
| Lexer.Scanner.ScanLexeme | yscreener/screener_expr.py:40-77 | one pass through the if-chain reads the specified lexeme and leaves the cursor after it |
| Lexer.Scanner.ScanNumber | yscreener/screener_expr.py:81-105 | the method returns the specified number lexeme (or its error), with the cursor after the digits and the suffix |
| Lexer.Scanner.ScanString | yscreener/screener_expr.py:107-116 | the method returns the specified string lexeme, with the cursor after the closing quote, or "Unterminated string" |
| Lexer.Scanner.ScanIdentifier | yscreener/screener_expr.py:118-122 | the method returns the specified identifier, with the cursor after it |
| Lexer.Scanner.ScanSymbol | yscreener/screener_expr.py:46-77 | the operators and punctuation are tried in the source's order (`&&`, the OR operator, `[`, `]`, `:`, `==`, `<`, `>`, `(`, `)`), and the method returns exactly the specified lexeme; anything else is an unexpected character |
| LexerFacts.SpacesSkipped | yscreener/screener_expr.py:37-39 | white space contributes no token: scanning from before blanks equals scanning from after them |
| LexerFacts.BlankText | yscreener/screener_expr.py:36-79 | a text of white space alone scans to the EOF token alone |
| LexerFacts.TokenCountBound | yscreener/screener_expr.py:36-78 | every token except EOF consumes a character, so a scan yields at most one token more than there are characters |
| LexerFacts.NumberRead | yscreener/screener_expr.py:81-93 | a number is read exactly when its run of digits and dots is a numeral `float()` accepts: at least one digit and at most one point |
| LexerFacts.LexemeRead | yscreener/screener_expr.py:40-77 | a digit or `.` starts a number, a quote a string and a letter an identifier, each read as `NumberAt`, `StringAt` and `IdentifierAt` say; any other character is read exactly when `&&`, the OR operator or `==` starts there or it is one of `[ ] : < > ( )`, and then gives a token without a literal |
| LexerFacts.ScanThrough | yscreener/screener_expr.py:36-75 | the tokens read on the way from one position to another come first in the scan from the first position |
| LexerFacts.LexemeFails | yscreener/screener_expr.py:36-77 | wherever the scan reaches a lexeme that fails, after any tokens read before it, that failure is the error of the whole scan |
| LexerFacts.UnexpectedCharacterFails | yscreener/screener_expr.py:76-77 | wherever the scan reaches it, a character that starts no lexeme (a lone ampersand, a lone bar, a single `=`, or any character outside the lexeme classes) fails the scan with "Unexpected character" naming it |
| LexerFacts.SingleEqualsFails | yscreener/screener_expr.py:61-77 | `=1` is rejected at the `=` |
| LexerFacts.LoneConnectiveFails | yscreener/screener_expr.py:46-51 | a lone ampersand or bar as the last character, when the scan reaches it, fails the whole scan as an unexpected character naming it |
| LexerFacts.BlankConnectiveFails | yscreener/screener_expr.py:46-51 | the texts ` &` and ` |` (a blank, then a lone ampersand or bar) are rejected as an unexpected character |
| LexerFacts.UnterminatedStringFails | yscreener/screener_expr.py:110-113 | wherever the scan reaches it, an opening quote with no closing quote after it fails the scan with "Unterminated string" |
| LexerFacts.DollarFails | yscreener/screener_expr.py:76-77 | `x $ 1` is rejected at the `$`, after `x` has been read |
| LexerFacts.OpenQuoteFails | yscreener/screener_expr.py:110-113 | `x=="abc` is rejected as an unterminated string, after `x` and `==` have been read |
| LexerFacts.SymbolRead | yscreener/screener_expr.py:46-75 | every operator or punctuation text, whatever follows it, is read as the token of its kind and consumes exactly that text, as `Tokens.Symbol` gives it |
| LexerFacts.ScaledNumberValue | yscreener/screener_expr.py:86-103 | a valid numeral with a suffix is read, and its literal is the numeral's exact decimal scaled by the suffix's power of ten |
| LexerFacts.PlainNumberValue | yscreener/screener_expr.py:92-93 | a valid numeral without a suffix is read, and the literal's value is exactly the numeral's value |
| LexerFacts.OnePointFive | yscreener/screener_expr.py:93 | `1.5` converts to the decimal 15 times 10^-1 |
| LexerFacts.MillionsRead | yscreener/screener_expr.py:81-105 | `1.5M` is read whole, as one NUMBER token worth 15 times 10^5 |
| Numbers.ParseNumeral | yscreener/screener_expr.py:93 | a run of digits and dots converts iff it has a digit and at most one point; the exponent is minus the number of fraction digits |
| Numbers.ParseNumeralValue | yscreener/screener_expr.py:93 | the converted decimal's value is the integer digits plus the fraction digits over 10^(their count) |
| Numbers.ScaleValue | yscreener/screener_expr.py:96-103 | scaling by k multiplies the value by 10^k |
| Numbers.DigitsValueConcat | yscreener/screener_expr.py:93 | the value of concatenated digit strings is the left value shifted by the right length plus the right value |
| Grammar.OrExpr | yscreener/screener_expr.py:164-169 | a successful `or_expr` consumes at least one token and stops before the end of the list |
| Grammar.OrRest | yscreener/screener_expr.py:166-168 | the loop over the OR operator never moves back and stops before the end |
| Grammar.AndExpr | yscreener/screener_expr.py:171-176 | a successful `and_expr` consumes at least one token and stops before the end |
| Grammar.AndRest | yscreener/screener_expr.py:173-175 | the `&&` loop never moves back and stops before the end |
| Grammar.CmpOf | yscreener/screener_expr.py:180-181 | exactly `==`, `<` and `>` are comparisons |
| Grammar.CmpExpr | yscreener/screener_expr.py:178-184 | a successful `comparison_expr` consumes at least one token and stops before the end |
| Grammar.ComparisonTokens | yscreener/screener_expr.py:180 | the comparison loop continues on exactly the tokens that name a comparison operator (`==`, `<`, `>`) |
| Grammar.CmpRest | yscreener/screener_expr.py:180-183 | the comparison loop never moves back and stops before the end |
| Grammar.BetweenExpr | yscreener/screener_expr.py:186-195 | a successful `between_expr` consumes at least one token and stops before the end |
| Grammar.Primary | yscreener/screener_expr.py:197-208 | a successful `primary` consumes at least one token and stops before the end |
| Grammar.ParseLeaves | yscreener/screener_expr.py:199-203 | every string or name in a parsed tree is the literal of a STRING or IDENTIFIER token of the input |
| Grammar.OrLeaves | yscreener/screener_expr.py:164-169 | the leaves of an `or_expr` come from the tokens |
| Grammar.BetweenLeaves | yscreener/screener_expr.py:186-195 | the leaves of a range come from the tokens |
| Parsing.Parser.constructor | yscreener/screener_expr.py:126-128 | the cursor starts at 0 on a list that ends with EOF |
| Parsing.Parser.Peek | yscreener/screener_expr.py:233-234 | peek is the token at the cursor |
| Parsing.Parser.Previous | yscreener/screener_expr.py:236-237 | previous is the token before the cursor, or the last token when the cursor is 0 (Python's index -1) |
| Grammar.EofMatchesNothing | yscreener/screener_expr.py:220-223 | on the EOF token no kind matches; on any other token a kind matches exactly itself |
| Parsing.Parser.IsAtEnd | yscreener/screener_expr.py:230-231 | the cursor on the last token, which is EOF, is at the end; at the end no kind matches |
| Parsing.Parser.Check | yscreener/screener_expr.py:220-223 | check holds iff the current token has the kind and is not EOF |
| Parsing.Parser.Advance | yscreener/screener_expr.py:225-228 | the cursor moves by one unless it is on EOF, and the token just passed is returned |
| Parsing.Parser.Match | yscreener/screener_expr.py:210-218 | match succeeds iff the current token has one of the kinds, and then it advances by exactly one |
| Parsing.Parser.Consume | yscreener/screener_expr.py:239-242 | consume succeeds iff the current token has the kind, and returns it and advances; otherwise it fails with the given message |
| Parsing.Parser.OrExpr | yscreener/screener_expr.py:164-169 | the method's result and final cursor are exactly the grammar's `or_expr` |
| Parsing.Parser.AndExpr | yscreener/screener_expr.py:171-176 | the method's result and final cursor are exactly the grammar's `and_expr` |
| Parsing.Parser.ComparisonExpr | yscreener/screener_expr.py:178-184 | the method's result and final cursor are exactly the grammar's `comparison_expr` |
| Parsing.Parser.BetweenExpr | yscreener/screener_expr.py:186-195 | the method's result and final cursor are exactly the grammar's `between_expr` |
| Parsing.Parser.Primary | yscreener/screener_expr.py:197-208 | the method's result and final cursor are exactly the grammar's `primary` |
| Parsing.Parser.Parse | yscreener/screener_expr.py:130-131 | parse is one `or_expr` from the cursor, serialised; a parse error is passed on, and the tokens after it are ignored; after a successful `or_expr` the cursor is just past it |
| Canonical.OperatorToString | yscreener/screener_expr.py:156-162 | the mnemonics are two-letter names |
| Canonical.CmpOpNamed | yscreener/screener_expr.py:156-162 | a mnemonic names the comparison it came from, and only eq, lt and gt are mnemonics |
| Canonical.OperatorToStringInverse | yscreener/screener_expr.py:156-162 | the mnemonic table is injective: the name gives back the comparison |
| Canonical.BinOpName | yscreener/screener_expr.py:136-147 | every binary node is named or, and, eq, lt or gt |
| Canonical.BinOpNameInverse | yscreener/screener_expr.py:136-147 | an operator name gives back its operator |
| Canonical.Unquote | yscreener/screener_expr.py:153 | the slice `[1:-1]` drops exactly the first and the last character: putting them back gives the text again; texts shorter than two characters give the empty text |
| Canonical.TextToDict | yscreener/screener_expr.py:152-153 | an empty text fails; a text that starts with a quote loses its first and last characters; any other text passes through |
| Canonical.ToDict | yscreener/screener_expr.py:133-154 | serialising succeeds iff no string or name is empty, the failure is the index error, and the output is well shaped (two operands for or/and/eq/lt/gt, three for btwn) |
| Canonical.Plain | yscreener/screener_expr.py:133-154 | the reference serialisation, in which leaves pass through unchanged, is well shaped |
| Canonical.ToDictPlain | yscreener/screener_expr.py:150-154 | when no text is empty or starts with a quote, `to_dict` equals the reference serialisation |
| Canonical.FromDict | yscreener/screener_expr.py:133-154 | a canonical value is read back iff it is well shaped, and reading back then serialising gives it again |
| Canonical.FromDictPlain | yscreener/screener_expr.py:133-154 | reading back a serialised tree recovers it, with identifiers turned into strings |
| Canonical.Erase | yscreener/screener_expr.py:152-154 | erasing identifiers leaves no names, and the texts are the former texts and names |
| GrammarFacts.Strength | yscreener/screener_expr.py:164-208 | the binding strength is at most 4, and exactly the leaves have strength 4 |
| GrammarFacts.PrintPrintable | yscreener/screener_expr.py:197-208 | printed trees hold no EOF and only fitting literals |
| GrammarFacts.SpanPrint | yscreener/screener_expr.py:164-208 | printed tokens found in a list are recognised as a span up to their end |
| GrammarFacts.PrimaryShown | yscreener/screener_expr.py:197-208 | `primary` reads a leaf, or a parenthesised tree, up to the end of its span |
| GrammarFacts.GroupShown | yscreener/screener_expr.py:204-207 | a group re-enters at `or_expr` and needs its `)` |
| GrammarFacts.BetweenShown | yscreener/screener_expr.py:186-195 | `between_expr` reads a primary or a range up to its end |
| GrammarFacts.RangeShown | yscreener/screener_expr.py:188-194 | `subject[lower:upper]` gives a btwn node with subject, lower and upper in that order |
| GrammarFacts.CmpFull | yscreener/screener_expr.py:178-184 | comparisons fold to the left: `comparison_expr` reads a comparison chain up to its end |
| GrammarFacts.AndFull | yscreener/screener_expr.py:171-176 | `&&` folds to the left and binds looser than the comparisons |
| GrammarFacts.OrChainShown | yscreener/screener_expr.py:164-169 | the OR operator folds to the left and binds loosest |
| GrammarFacts.ReadsPrinted | yscreener/screener_expr.py:164-208 | `or_expr` reads a printed tree back to exactly its end, when the token after it cannot continue the expression (it is not the OR operator, `&&`, `==`, `<`, `>` or `[`) |
| GrammarFacts.PrintThenParse | yscreener/screener_expr.py:130-131 | parsing a printed tree, followed by a token that cannot continue it (anything but the OR operator, `&&`, `==`, `<`, `>` and `[`) and any further tokens, gives back the tree |
| GrammarFacts.PrintedRoundTrip | yscreener/screener_expr.py:130-131 | a printed tree plus EOF is a well-formed token list and parses back to the tree |
| ParseOutcomes.ParsePrecedence | yscreener/screener_expr.py:164-184 | `a == 1 && b == 2`, then OR, then `c == 3` parses to or(and(eq, eq), eq) |
| ParseOutcomes.ParseChainedComparison | yscreener/screener_expr.py:178-184 | `a == 1 == 2` is accepted, giving eq(eq(a, 1), 2) |
| ParseOutcomes.ParseIgnoresTrailing | yscreener/screener_expr.py:130-131 | `a == 1 )` parses as `a == 1`: the tokens after the expression are never looked at |
| ParseOutcomes.BetweenErrorSurfaces | yscreener/screener_expr.py:164-184 | an error at the range level is the error of the whole `or_expr` |
| ParseOutcomes.NoExpression | yscreener/screener_expr.py:197-208 | a list that does not start with a number, string, identifier or `(` fails with "Expect expression." |
| ParseOutcomes.EmptyInputFails | yscreener/screener_expr.py:208 | the EOF token alone fails with "Expect expression." |
| ParseOutcomes.UnclosedGroup | yscreener/screener_expr.py:204-206 | `( e` followed by a token that can neither continue `e` (the OR operator, `&&`, `==`, `<`, `>`, `[`) nor close the group fails with "Expect ')' after expression." |
| ParseOutcomes.RangeWithoutColon | yscreener/screener_expr.py:188-191 | `s[lo` followed by anything but `:` fails with "Expect ':' in BETWEEN expression." |
| ParseOutcomes.RangeWithoutBracket | yscreener/screener_expr.py:188-193 | `s[lo:hi` followed by anything but `]` fails with "Expect ']' after BETWEEN expression." |
| ScreenerExpr.Compile | yscreener/screener_expr.py:245-249 | a successful compilation is well shaped and can be read back |
| ScreenerExpr.ParseScreenerExpr | yscreener/screener_expr.py:245-249 | running the Scanner and then the Parser gives exactly `Compile` |
| ScreenerExpr.CompileReference | yscreener/screener_expr.py:133-154 | after a successful scan and parse, compilation fails only on an empty string or name, and otherwise yields the reference serialisation, so quote stripping never applies to scanner output |
| ScreenerExpr.CompileReadBack | yscreener/screener_expr.py:245-249 | a compiled filter reads back to the parsed tree, with identifiers as strings |

## Left out

- Character classes are ASCII. Python's `isspace`, `isdigit`, `isalpha`, `isalnum` and `upper` also accept other
  Unicode characters. The model treats white space as blank, TAB to CR, and 0x1C–0x1F; letters as `a`–`z` and
  `A`–`Z`; and digits as `0`–`9`.
- Numbers are exact decimals, not IEEE doubles. Python's `float()` rounds, and multiplying by the scale factor
  rounds again; the model does neither. `Numbers.Decimal` keeps the digits and a power of ten.
- Number literals are compared by representation, not by value. `1K` gives `Decimal(1, 3)` and `1000` gives
  `Decimal(1000, 0)`, so `x < 1K` and `x < 1000` compile to different canonical values, although Python produces
  the same float for both. `Numbers.RealValue` gives the value both stand for.
- The `TokenType` enum stores default token texts in its member values. The model gives a token a kind and an
  optional literal instead: punctuation has no literal, and EOF has the empty text. `Tokens.Symbol` gives each
  operator its text.
- `between_expr` also reads `previous().type` into a variable it never uses. That read has no effect, and the model
  leaves it out.
- `Scanner.ScanLexeme` and `Scanner.ScanSymbol` are not separate functions in the source. They are the branches of
  the `if` chain in `scan_tokens`, split into methods.
- Exceptions become `Err` values, one `Errors.Error` constructor per message. The message texts themselves are not
  modelled. The scanner's errors carry no position, as in the source.
- Python's recursion limit is not modelled. `primary` re-enters `or_expr` for each `(`, five calls deep per level,
  and `to_dict` recurses on both operands of every node. About 200 nested parentheses, or a chain of about 1000
  `&&` terms serialised as a left-deep tree, raise `RecursionError` in Python; the model has no depth bound and
  returns `Ok` for those inputs.
- The network client `yscreener/yscreener_client.py` is not part of this model: it is asynchronous HTTP, cookies and
  JSON encoding.
- The fingerprint download script is not part of this model: it is HTTP downloads, file writes and hashing.
- The `__main__` demonstration block is not modelled: it only prints.
- LexerFacts.ScaledNumberValue: it states the scaled literal as `Scale` of the parsed numeral. Its value, the
  numeral's value times 10^k, follows from `Numbers.ParseNumeralValue` and `Numbers.ScaleValue` rather than being
  restated in one contract.
