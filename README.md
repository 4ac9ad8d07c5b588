# A verified model of a small spreadsheet's formula language

The spreadsheet reads a formula typed into a cell, lexes it into tokens,
parses the tokens by recursive descent into an expression tree, and
evaluates the tree against a runtime. The runtime is a 20 by 13 grid of
cells plus a table of named variables. This project models that core in
Dafny and proves properties of the model:

- `token.dfy`: the 49 token kinds, the kind-name table that `getTypeString`
  indexes, and the token record.
- `lexer.dfy`: `Lexer::lex` as a class with the source's fields (`source`,
  `i`, `token_so_far`, `tokens`) and its scanning loops. Each method is
  proved equal to a pure specification (`Step`, `LexFrom`), and the lemmas
  are stated about that specification.
- `grammar.dfy` and `parser.dfy`: the grammar as pure functions, one per
  precedence level. `class Parser` holds the token vector and the cursor
  `i`, and each of its methods is proved to agree with the matching grammar
  function.
- `grammar_laws.dfy`: the grammar's promises:
  - one level groups to the left, and `**` groups to the right;
  - a tighter level binds first, and prefix operators bind tighter than `**`;
  - a fully parenthesised token rendering of an expression parses back to
    that expression;
  - the exact error for a dangling operator, a stray `end`/`else` and an
    unclosed parenthesis.
- `expression.dfy`: the expression tree, primitives and `serialize`.
- `print_laws.dfy`: what `serialize` prints, with its spaces removed, is
  exactly what the token rendering spells.
- `operators.dfy`: the primitive-level semantics of every operator. It
  covers the accepted type combinations, the error message of every
  rejected one, and C++ `int` arithmetic. Overflow, division of `INT_MIN`
  by -1, and shifts by less than 0 or 32 and more are all undefined in
  C++, and each yields an error here.
- `int32.dfy`: 32-bit `int` semantics, truncating division and remainder,
  two's-complement bit operations, `std::to_string` and `std::stoi`.
- `evaluation.dfy`: `evaluate` as a function from an expression, a
  variable table and a grid snapshot to an outcome. The outcome is a value
  or a raised message, together with the variable table left behind. It
  also specifies the statistics (`max`, `min`, `mean` and `sum` over a
  rectangle) and `for` loops over a rectangle.
- `spreadsheet.dfy`: `Cell`, `Grid` and `Runtime` as classes with the
  source's fields and mutating methods. It also gives the imperative
  `evaluate` (`Interpret`) with its loops, proved equal to `Evaluate`.

A float is an opaque 32-bit value. Every float operation the source uses
(`std::stof`, arithmetic, `pow`, comparisons, casts, printing and the two
infinities) is a total function field of a `FloatOps` parameter, so every
result holds for any choice of float arithmetic.

## Model

| member | source | states |
|---|---|---|
| Tokens.Ordinal | token.h:36-98 | every kind's ordinal is its position in the enumeration, below 49 |
| Tokens.TypeStringAsWritten | token.cpp:26-30 | as written, `getTypeString` looks the ordinal up in the 39-entry table; the three `AsWritten` lemmas below state what that gives |
| Tokens.TypeString | token.cpp:26-30 | the intended `getTypeString`: the kind's own name, from which `NameOrdinal` reads back the kind's ordinal |
| Tokens.OrdinalInjective | token.h:36-98 | two kinds with the same ordinal are the same kind |
| Tokens.TypeStringInjective | token.h:101-148 | one name per kind: two kinds have the same name exactly when they are the same kind |
| Tokens.AsWrittenAgreesBeforeNewline | token.h:101-148 | the as-written table names every kind before NEWLINE correctly |
| Tokens.AsWrittenMisnamesNewline | token.h:101-148 | the as-written table gives NEWLINE the name "VARIABLE", which is not NEWLINE's own name |
| Tokens.AsWrittenDomain | token.h:101-148 | as written, a kind has a name exactly when its ordinal is at most NEWLINE's, so VARIABLE and every later kind index past the table |
| Tokens.Token.Describe | token.cpp:33-39 | `operator<<` as the string it writes; DescribeDeterminesToken states what it holds |
| Tokens.DescribeDeterminesToken | token.cpp:33-39 | for tokens whose text holds no tab, two tokens print the same exactly when they are equal: the text, the kind and both indices can be read back from the printed form |
| Tokens.GettersReturnConstructorArguments | token.cpp:3-24 | each getter returns the value the token was built with |
| Int32.Checked | expression.cpp:143-201 | a mathematical result is accepted exactly when it fits a 32-bit `int`, and then unchanged |
| Int32.TruncDiv | expression.cpp:330-397 | C++ `/` on ints, rounding toward zero; TruncDivNegate and TruncDivRange state its properties |
| Int32.TruncRem | expression.cpp:406-436 | C++ `%` on ints, the remainder of TruncDiv; TruncRemBounds states its sign and size |
| Int32.Power | expression.cpp:445-486 | the exact integer power that IntPow rounds to an `int`; PowerOfUnit and IntPow state its use |
| Int32.LeftShift | expression.cpp:832-855 | `a << s` on the 32-bit pattern of `a`, for shift amounts 0 to 31; ShiftTable states its use |
| Int32.RightShift | expression.cpp:863-889 | the arithmetic `a >> s`, for shift amounts 0 to 31; RightShiftRange states its sign and size |
| Int32.TruncRemBounds | expression.cpp:406-436 | C++ `%` is smaller than the divisor in magnitude and takes the dividend's sign |
| Int32.TruncDivNegate | expression.cpp:330-397 | C++ `/` truncates toward zero: negating the dividend negates quotient and remainder |
| Int32.TruncDivRange | expression.cpp:330-397 | an `int` quotient fits an `int` except for `INT_MIN / -1` |
| Int32.Pow2Is32BitModulus | expression.cpp:712-825 | bit operations work modulo 2 to the 32 |
| Int32.SignedUnsigned | expression.cpp:712-825 | reading an `int`'s two's-complement pattern back gives the same `int` |
| Int32.Bitwise | expression.cpp:712-797 | bitwise and, or and xor of n-bit patterns give an n-bit pattern |
| Int32.BitwiseCommutes | expression.cpp:712-797 | bitwise and, or and xor commute |
| Int32.BitwiseLaws | expression.cpp:712-797 | the xor of x with itself is 0, and the bitwise and of two patterns is at most their bitwise or |
| Int32.BitNotIsNegatePred | expression.cpp:804-825 | `~a == -a - 1` |
| Int32.RightShiftRange | expression.cpp:863-889 | an arithmetic right shift keeps the sign and moves toward zero |
| Int32.IntPow | expression.cpp:445-486 | integer `**`: the exact power when it fits, none when it overflows, 0 for a negative exponent and a base of size 2 or more, none for a zero base |
| Int32.IntPowNegativeExponent | expression.cpp:445-486 | with a negative exponent, a base of 1 or -1 gives 1 or -1 |
| Int32.PowerOfUnit | expression.cpp:445-486 | powers of 1 and -1 alternate by the exponent's parity |
| Int32.NatToString | expression.cpp:18-22 | `std::to_string` of a natural number is a non-empty run of digits |
| Int32.DigitsValueOfNatToString | expression.cpp:18-22 | the digits `std::to_string` prints denote the number |
| Int32.NatToStringInjective | expression.cpp:18-22 | distinct natural numbers are printed differently |
| Int32.SignOfPrinted | expression.cpp:18-22 | `std::to_string` of an int starts with `-` exactly when the int is negative |
| Int32.IntToStringInjective | expression.cpp:18-22 | two ints print the same exactly when they are equal |
| Int32.IntToString | expression.cpp:18-22 | `std::to_string`: a `-` before the digits of a negative int; NatToString, SignOfPrinted and IntToStringInjective state its properties |
| Int32.Stoi | parser.cpp:380-386 | `std::stoi` fails only with its own exception |
| Int32.StoiOfDigits | parser.cpp:380-386 | on a run of digits, `std::stoi` gives its value, or fails when the value exceeds `INT_MAX` |
| Int32.StoiOfToString | parser.cpp:380-386 | `std::stoi` reads back any non-negative `int` that `std::to_string` printed |
| Lexing.DigitsEnd | lexer.cpp:83-86 | the digit loop stops at the first non-digit, and everything before it is a digit |
| Lexing.AlnumEnd | lexer.cpp:102-105 | the word loop stops at the first non-alphanumeric, and everything before it is alphanumeric |
| Lexing.QuoteFrom | lexer.cpp:320-337 | the first closing quote from a position, or that none follows |
| Lexing.KeywordType | lexer.cpp:100-158 | the kind of a word, by the keyword tests in their order; WordToken states its use |
| Lexing.KeywordTypeClassifies | lexer.cpp:100-158 | a word is VARIABLE exactly when it is none of the thirteen keywords, and BOOLEAN exactly when it is true or false |
| Lexing.NumberStep | lexer.cpp:80-99 | the number branch of the lexing loop; NumberToken states what it scans |
| Lexing.WordStep | lexer.cpp:100-158 | the word branch of the lexing loop; WordToken states what it scans |
| Lexing.StringStep | lexer.cpp:320-337 | the string branch with the end-of-source check in force; StringAsWrittenNeverReportsUnterminated relates it to the as-written loop |
| Lexing.SymbolStep | lexer.cpp:159-319 | the operator and punctuation branches; SymbolStepIsSpan, LongestOperatorWins, UnrecognizedCharacterFails and LoneDotFails state them |
| Lexing.QuoteLoopAsWritten | lexer.cpp:323-326 | the as-written quote loop, which reads `source[i]` past the end, stops only at or after its start |
| Lexing.QuoteLoopStopsInside | lexer.cpp:323-326 | the as-written quote loop finds the same closing quote as a bounded search, and stops without a quote exactly when none follows |
| Lexing.StringAsWrittenNeverReportsUnterminated | lexer.cpp:320-337 | as written, an unterminated string never raises "Unterminated string": the loop runs off the end instead |
| Lexing.UnterminatedStringExample | lexer.cpp:320-337 | on `"ab` the as-written loop finds no quote, and the corrected step raises "Unterminated string" |
| Lexing.Step | lexer.cpp:69-368 | one pass of the lexing loop consumes at least one character and stays inside the source |
| Lexing.LexFrom | lexer.cpp:66-370 | the lexing loop from a position on: the tokens of each step in order, or the first error; LexFromPlacesTokens and Lexer.Lex state it |
| Lexing.SymbolStepIsSpan | lexer.cpp:159-319 | every operator or punctuation token is the exact source slice it covers |
| Lexing.StepToken | lexer.cpp:18-23 | an emitted token's end index is the last character consumed, and its start is not before the step's start |
| Lexing.LexFromPlacesTokens | lexer.cpp:66-370 | every token of a successful lex, from any position on, is placed at its text in the source, in source order |
| Lexing.LexPlacesTokens | lexer.cpp:66-370 | every token of a successful lex is placed at its text in the source, and the tokens come in source order |
| Lexing.StartsNeverDecrease | lexer.cpp:66-370 | token start indices never decrease |
| Lexing.EmptyLiteralSharesStart | lexer.cpp:320-337 | the empty string literal gets start 2 and end 1, and the next token has that same start |
| Lexing.LexSkipsBlank | lexer.cpp:71-74 | a blank character produces nothing |
| Lexing.LexNewline | lexer.cpp:75-79 | a newline produces a NEWLINE token at its own index |
| Lexing.NumberToken | lexer.cpp:80-99 | a digit starts the longest digit run; a `.` right after that run is taken along with the longest digit run after it, and no other `.`; the token is FLOAT exactly when it holds a `.` |
| Lexing.WordToken | lexer.cpp:100-158 | a letter starts the longest run of letters and digits, every character of the token is one, and its kind is the keyword's kind for a keyword, BOOLEAN for `true`/`false`, else VARIABLE |
| Lexing.LongestOperatorWins | lexer.cpp:159-299 | a two-character operator is lexed as one token, not two |
| Lexing.UnrecognizedCharacterFails | lexer.cpp:362-367 | any other character raises "Unrecognized character 'c' at index = i" |
| Lexing.LoneDotFails | lexer.cpp:338-351 | a `.` not followed by `.` raises the unrecognized-`.` error |
| Lexing.LexNatToString | lexer.cpp:80-99 | a printed natural number lexes to a single INTEGER token spanning it |
| Lexing.Lexer.constructor | lexer.h:1-30 | a fresh lexer is at index 0 with nothing captured and no tokens |
| Lexing.Lexer.Has | lexer.cpp:5-9 | `has(c)` compares the character at `i`, reading the terminating NUL at the end |
| Lexing.Lexer.Capture | lexer.cpp:11-16 | `capture` appends the current character and advances `i` |
| Lexing.Lexer.EmitToken | lexer.cpp:18-23 | `emit_token` appends a token spanning the captured text, ending at `i - 1`, and clears the capture |
| Lexing.Lexer.HasAlphabetic | lexer.cpp:25-31 | true exactly when a letter is at `i` |
| Lexing.Lexer.HasAlphanumeric | lexer.cpp:33-39 | true exactly when a letter or digit is at `i` |
| Lexing.Lexer.HasDigit | lexer.cpp:41-47 | true exactly when a digit is at `i` |
| Lexing.Lexer.HasWhitespace | lexer.cpp:49-56 | true exactly when a blank is at `i` |
| Lexing.Lexer.HasNewline | lexer.cpp:58-64 | true exactly when a newline is at `i` |
| Lexing.Lexer.CaptureDigits | lexer.cpp:83-86 | the digit loop captures exactly the digit run from `i` |
| Lexing.Lexer.ScanNumber | lexer.cpp:80-99 | the number branch does what the specification step for numbers does |
| Lexing.Lexer.ScanWord | lexer.cpp:100-158 | the word branch does what the specification step for words does |
| Lexing.Lexer.ScanString | lexer.cpp:320-337 | the string branch, with the end-of-source check inside the loop, does what the corrected string step does |
| Lexing.Lexer.One | lexer.cpp:159-319 | a one-character token covers exactly that character |
| Lexing.Lexer.Second | lexer.cpp:159-319 | a two-character token covers exactly those two characters |
| Lexing.Lexer.Single | lexer.cpp:159-319 | a one-character token emitted after looking ahead covers exactly that character |
| Lexing.Lexer.ScanSymbol | lexer.cpp:159-319 | the operator and punctuation branches do what the specification step for symbols does |
| Lexing.Lexer.ScanStep | lexer.cpp:69-368 | one pass of the loop body does what `Step` does |
| Lexing.Lexer.Lex | lexer.cpp:66-370 | `lex` returns the tokens already emitted followed by the specification's lexing of the rest, or its error |
| Lexing.PrependStep | lexer.cpp:66-370 | running one step and then the rest gives the same result as lexing from the start |
| Grammar.Expect | parser.cpp:3-9 | an expected token is consumed exactly when it is present; past the end the failure is the out-of-range error of `tokens.at` |
| Grammar.Parse | parser.cpp:17-41 | `parse`: the string `""` for no tokens, else the block, which has to take every token or the "Syntax error around" error is raised; ParseRender, ShortBlockParse and StrayEnd state it |
| Grammar.InfixOf | parser.cpp:81-310 | a token that is a binary operator of levels 0 to 9 names an operator other than `**` at one of those levels |
| Grammar.Block | parser.cpp:42-63 | a parsed block is a Block node and consumes tokens only forward |
| Grammar.Statements | parser.cpp:45-61 | the statement loop yields a Block node and consumes tokens only forward |
| Grammar.SkipSeparators | parser.cpp:53-56 | skipping stops at the first token that is neither a newline nor a semicolon |
| Grammar.SkipNewlines | parser.cpp:571-574 | skipping stops at the first token that is not a newline |
| Grammar.Assignment | parser.cpp:65-79 | a parsed assignment chain consumes at least one token |
| Grammar.AssignFold | parser.cpp:69-77 | the assignment loop only moves forward |
| Grammar.Level | parser.cpp:81-310 | every level from 0 to 9 consumes at least one token on success |
| Grammar.Operand | parser.cpp:81-310 | an operand of level n, parsed by level n + 1 or by `**`, consumes at least one token |
| Grammar.Fold | parser.cpp:81-310 | a level's operator loop only moves forward |
| Grammar.Power | parser.cpp:312-333 | `**` parsing consumes at least one token |
| Grammar.Prefix | parser.cpp:335-363 | prefix parsing consumes at least one token |
| Grammar.Primary | parser.cpp:365-638 | primary parsing consumes at least one token |
| Grammar.Keyword | parser.cpp:470-632 | conversions, statistics, `if`, `for` and the syntax error consume at least one token |
| Grammar.Parenthesised | parser.cpp:369-379 | a parenthesised expression consumes at least one token |
| Grammar.Single | parser.cpp:380-407 | a literal or variable consumes exactly one token |
| Grammar.Reference | parser.cpp:408-461 | a cell reference consumes at least one token |
| Grammar.Clause | parser.cpp:554-626 | a clause followed by its keyword consumes at least one token |
| Grammar.Pair | parser.cpp:502-530 | an argument pair consumes at least one token |
| Grammar.Conversion | parser.cpp:470-501 | `int(…)` and `float(…)` consume at least one token |
| Grammar.Statistic | parser.cpp:502-553 | `max`, `min`, `mean` and `sum` consume at least one token |
| Grammar.If | parser.cpp:554-588 | `if` consumes at least one token |
| Grammar.Otherwise | parser.cpp:568-588 | the `else` part consumes at least one token |
| Grammar.For | parser.cpp:589-626 | `for` consumes at least one token |
| Parsing.Parser.constructor | parser.h:1-41 | a fresh parser holds the tokens at position 0 |
| Parsing.Parser.Advance | parser.cpp:11-15 | `advance` moves one token on |
| Parsing.Parser.Expect | parser.cpp:3-9 | a check-and-consume agrees with `Grammar.Expect` and leaves `i` after the token |
| Parsing.Parser.Parse | parser.cpp:17-40 | `parse` returns exactly what the grammar's `Parse` returns |
| Parsing.Parser.Block | parser.cpp:42-63 | `block` agrees with `Grammar.Block`, and on success `i` is where the grammar stops |
| Parsing.Parser.SkipSeparators | parser.cpp:53-56 | the separator loop ends where `Grammar.SkipSeparators` says |
| Parsing.Parser.SkipNewlines | parser.cpp:571-574 | the newline loop ends where `Grammar.SkipNewlines` says |
| Parsing.Parser.Assignment | parser.cpp:65-79 | `assignment` agrees with `Grammar.Assignment` |
| Parsing.Parser.Level | parser.cpp:81-310 | `level0` to `level9` agree with `Grammar.Level` |
| Parsing.Parser.Operand | parser.cpp:81-310 | the operand call of each level agrees with `Grammar.Operand` |
| Parsing.Parser.Power | parser.cpp:312-333 | `level10` agrees with `Grammar.Power` |
| Parsing.Parser.Prefix | parser.cpp:335-363 | `level11` agrees with `Grammar.Prefix` |
| Parsing.Parser.Primary | parser.cpp:365-638 | `level12` agrees with `Grammar.Primary` |
| Parsing.Parser.Single | parser.cpp:380-407 | the literal and variable branches agree with `Grammar.Single` |
| Parsing.Parser.Reference | parser.cpp:408-461 | the `[` and `#` branches agree with `Grammar.Reference` |
| Parsing.Parser.Parenthesised | parser.cpp:369-379 | the `(` branch agrees with `Grammar.Parenthesised` |
| Parsing.Parser.Clause | parser.cpp:554-626 | a nested block and its keyword check agree with `Grammar.Clause` |
| Parsing.Parser.Pair | parser.cpp:502-530 | the two comma-separated arguments agree with `Grammar.Pair` |
| Parsing.Parser.Conversion | parser.cpp:470-501 | the conversion branch agrees with `Grammar.Conversion` |
| Parsing.Parser.Statistic | parser.cpp:502-553 | the statistics branch agrees with `Grammar.Statistic` |
| Parsing.Parser.If | parser.cpp:554-588 | the `if` branch agrees with `Grammar.If` |
| Parsing.Parser.Otherwise | parser.cpp:568-588 | the `else` part agrees with `Grammar.Otherwise` |
| Parsing.Parser.For | parser.cpp:589-626 | the `for` branch agrees with `Grammar.For` |
| GrammarLaws.InfixOfOpToken | parser.cpp:81-310 | each binary operator's token is read back as that operator at its level |
| GrammarLaws.SameLevelGroupsLeft | parser.cpp:81-310 | `x op1 y op2 z`, both at one level, parses as `(x op1 y) op2 z` |
| GrammarLaws.PowerGroupsRight | parser.cpp:312-333 | `x ** y ** z` parses as `x ** (y ** z)` |
| GrammarLaws.TighterBindsRight | parser.cpp:81-310 | `x loose y tight z` parses as `x loose (y tight z)` |
| GrammarLaws.PowerBindsRight | parser.cpp:81-333 | `x op y ** z` parses as `x op (y ** z)` |
| GrammarLaws.TighterBindsLeft | parser.cpp:81-310 | `x tight y loose z` parses as `(x tight y) loose z` |
| GrammarLaws.PowerBindsLeft | parser.cpp:81-333 | `x ** y op z` parses as `(x ** y) op z` |
| GrammarLaws.PrefixNests | parser.cpp:335-363 | a prefix operator applies to the prefix expression after it |
| GrammarLaws.PrefixBeforePower | parser.cpp:312-363 | `-x ** y` parses as `(-x) ** y` |
| GrammarLaws.RenderParses | parser.cpp:312-638 | the fully parenthesised rendering of an expression, wherever it stands, parses to that expression and ends right after it |
| GrammarLaws.ParseRender | parser.cpp:17-63 | parsing the rendering of an expression gives the one-statement block of that expression |
| GrammarLaws.ShortBlockParse | parser.cpp:29-37 | tokens left after the block raise "Syntax error around t at index n" |
| GrammarLaws.OperandAtEnd | parser.cpp:365-638 | asking for an operand past the last token raises the out-of-range error |
| GrammarLaws.LevelErrParse | parser.cpp:17-63 | an error in the first statement is the error `parse` raises |
| GrammarLaws.DanglingOperator | parser.cpp:81-310 | an expression followed by a binary operator raises the out-of-range error one past the end |
| GrammarLaws.StrayEnd | parser.cpp:42-63 | an expression followed by `end` or `else` stops the block, and `parse` reports the stray token |
| GrammarLaws.EndsBlock | parser.cpp:57-61 | `end` or `else` after a statement closes the block |
| GrammarLaws.UnclosedParenthesis | parser.cpp:369-379 | `( e t`, where t is no operator, raises "Expected right parenthesis at index" and t's start |
| GrammarLaws.UnclosedAtEnd | parser.cpp:373-378 | `( e` at the end reads `tokens[i]` past the end, which is undefined |
| PrintLaws.SerializeSpellsRender | expression.cpp:18-1594 | without its spaces, the text `serialize` prints is the text of the rendering's tokens, a variable printed as `Variable:` and its name |
| Expressions.Serialize | expression.cpp:134-141 | `serialize` of every node (the binary operators as this `Add::serialize` writes them); SerializeSpellsRender states what it writes |
| Expressions.SerializePrim | expression.cpp:17-121 | `serialize` of the literal nodes; SerializeSpellsRender states it for integers, Booleans and strings |
| Expressions.SerializeUnary | expression.cpp:486-491 | `serialize` of the unary nodes (this one for negation, and also lines 607-612, 797-802, 1184-1189 and 1215-1220); SerializeSpellsRender states it |
| Expressions.SerializeStat | expression.cpp:1250-1256 | `serialize` of the statistics (this one for `max`, and also lines 1333-1339, 1413-1418 and 1490-1495); SerializeSpellsRender states it |
| Operators.Operands | expression.cpp:143-201 | a binary operator rejects a null operand with `std::bad_typeid` and an unsupported left operand with its own message |
| Operators.AddPrims | expression.cpp:142-200 | `+` on two primitives; AddTable states every case |
| Operators.SubtractPrims | expression.cpp:209-260 | `-` on two primitives; NumericOperatorsTakeNumbers and MismatchedKindsRejected state it |
| Operators.MultiplyPrims | expression.cpp:269-320 | `*` on two primitives; NumericOperatorsTakeNumbers and MismatchedKindsRejected state it |
| Operators.DividePrims | expression.cpp:329-396 | `/` on two primitives; IntDivisionTruncates and NumericOperatorsTakeNumbers state it |
| Operators.ModuloPrims | expression.cpp:405-435 | `%` on two primitives; ModuloTable states it |
| Operators.ExponentiationPrims | expression.cpp:444-485 | `**` on two primitives; IntPow states the integer case |
| Operators.NegationPrim | expression.cpp:492-519 | unary `-`; NegationAndBitNotTable states it |
| Operators.AndPrims | expression.cpp:526-563 | `&&` on two primitives; AndShortCircuits states it |
| Operators.OrPrimsAsWritten | expression.cpp:570-606 | `or` as written, combining with `&&`; OrAsWrittenIsConjunction states it |
| Operators.OrPrims | expression.cpp:570-606 | `or` with the combination corrected; OrIsDisjunction states it |
| Operators.NotPrim | expression.cpp:613-637 | `!` on a primitive; NotTable states it |
| Operators.BitAndPrims | expression.cpp:711-735 | `&` on two primitives; BitwiseTable states it |
| Operators.BitOrPrims | expression.cpp:742-766 | bitwise or on two primitives; BitwiseTable states it |
| Operators.BitXorPrims | expression.cpp:773-796 | `^^` on two primitives; BitwiseTable states it |
| Operators.BitNotPrim | expression.cpp:803-824 | `~` on a primitive; NegationAndBitNotTable states it |
| Operators.LeftShiftPrims | expression.cpp:831-855 | `<<` on two primitives; ShiftTable states it |
| Operators.RightShiftPrims | expression.cpp:862-888 | `>>` on two primitives; ShiftTable states it |
| Operators.EqualsPrims | expression.cpp:895-947 | `==` on two primitives; EqualsSupportedKinds states it |
| Operators.NotEqualsPrims | expression.cpp:954-1006 | `!=` on two primitives; NotEqualsNegatesEquals states it |
| Operators.ComparePrims | expression.cpp:1013-1183 | `<`, `<=`, `>` and `>=` on two primitives; OrderingsOnInts and OrderingsSupportedKinds state them |
| Operators.FloatToIntPrim | expression.cpp:1190-1214 | `int(...)`; CastsTable states it |
| Operators.IntToFloatPrim | expression.cpp:1221-1249 | `float(...)`; CastsTable states it |
| Operators.ApplyBinary | expression.cpp:142-1183 | the operation of each binary node class, `or` as written; NullOperands, OrNodeGivesLeft and the tables above state it |
| Operators.ApplyUnary | expression.cpp:492-1249 | the operation of each unary node class; NegationAndBitNotTable, NotTable and CastsTable state it |
| Operators.SameKind | expression.cpp:896-948 | operands are accepted exactly when both are there and of one type |
| Operators.Operand | expression.cpp:493-520 | a unary operator accepts exactly a non-null operand |
| Operators.IntResult | expression.cpp:143-201 | an integer result is accepted exactly when it fits an `int` |
| Operators.AddTable | expression.cpp:143-201 | `+` adds two ints (with overflow an error), gives a float when either side is a float, joins two strings, and rejects every other pair |
| Operators.NumericOperatorsTakeNumbers | expression.cpp:210-397 | `-`, `*` and `/` reject non-numbers and give an int exactly for two ints |
| Operators.IntDivisionTruncates | expression.cpp:330-397 | integer `/` raises division by zero for 0 and truncates toward zero otherwise, except for `INT_MIN / -1` |
| Operators.ModuloTable | expression.cpp:406-436 | `%` takes two ints, raises for a zero divisor, and gives the truncating remainder |
| Operators.MismatchedKindsRejected | expression.cpp:445-1184 | `==`, `!=`, `**` and the orderings raise "Type mismatch in … operation" for operands of different types |
| Operators.NotEqualsNegatesEquals | expression.cpp:896-1007 | `!=` succeeds exactly when `==` does and gives the opposite Boolean |
| Operators.EqualsSupportedKinds | expression.cpp:896-948 | `==` compares every type except cell addresses |
| Operators.OrderingsOnInts | expression.cpp:1014-1184 | the orderings on ints are the integer orderings, and they relate to each other as expected |
| Operators.OrderingsSupportedKinds | expression.cpp:1014-1184 | the orderings accept exactly numbers |
| Operators.AndShortCircuits | expression.cpp:527-564 | `false && r` is false whatever r is; `true && r` is r for a Boolean r and an error otherwise |
| Operators.OrAsWrittenIsConjunction | expression.cpp:571-607 | as written, `false or true` is false, and that is the only pair where it differs from the disjunction |
| Operators.OrIsDisjunction | expression.cpp:571-607 | the corrected `or` is the Boolean disjunction, short-circuits on true, and is the dual of `&&` |
| Operators.OrNodeGivesLeft | expression.cpp:585-590 | an `or` node on two Booleans gives its left operand, so `false or true` is false, unlike the corrected OrPrims |
| Operators.NotTable | expression.cpp:614-638 | `!` takes exactly Booleans and is an involution |
| Operators.NegationAndBitNotTable | expression.cpp:493-520 | unary `-` takes floats and ints other than `INT_MIN`; `~` takes ints, is `-x - 1` and is an involution |
| Operators.CastsTable | expression.cpp:1191-1250 | `int()` keeps an int, `float()` keeps a float and converts an int, and both reject non-numbers |
| Operators.BitwiseTable | expression.cpp:712-797 | bitwise and, or and xor take exactly two ints and commute |
| Operators.ShiftTable | expression.cpp:832-889 | shifts take two ints with an amount from 0 to 31; a right shift of a non-negative int divides by a power of two |
| Operators.NullOperands | expression.cpp:143-201 | a null operand raises `std::bad_typeid`, except where a left operand has already been rejected or `&&` short-circuits |
| Evaluation.Index | grid.h:22-24 | each in-grid address has its own place among 260 cells |
| Evaluation.IndexInjective | grid.h:22-24 | distinct addresses have distinct places |
| Evaluation.IndexOfDivMod | grid.h:22-24 | every place belongs to its address |
| Evaluation.CellValue | grid.cpp:41-53 | a cell is read exactly when its address is inside the grid; otherwise the out-of-range error is raised |
| Evaluation.GetVariable | runtime.cpp:18-59 | reading a variable gives its value, or 0 for a null or missing one, and inserts a null entry for a missing name |
| Evaluation.SetVariable | runtime.cpp:13-17 | `setVariable` stores the value under the name; SetTwice, GetAfterSet and SetLeavesOtherNames state it |
| Evaluation.SetTwice | runtime.cpp:12-16 | a second write to one name replaces the first |
| Evaluation.GetAfterSet | runtime.cpp:12-59 | a read after a write gives the written value, or 0 for null |
| Evaluation.SetLeavesOtherNames | runtime.cpp:12-59 | a write to one name leaves every other name's value unchanged |
| Evaluation.GetVariableIdempotent | runtime.cpp:18-59 | reading twice gives the same result and table as reading once |
| Evaluation.Deliver | expression.cpp:143-201 | an operator's result becomes the outcome, keeping the table |
| Evaluation.AddressOf | expression.cpp:645-705 | `[r, c]` and `#[r, c]` need two ints and give that cell address |
| Evaluation.Corners | expression.cpp:1258-1333 | a range needs two cell addresses, top left first |
| Evaluation.BeforeMembers | expression.cpp:1258-1333 | the traversal passes only cells of the rectangle already visited, in row-major order |
| Evaluation.BeforeContains | expression.cpp:1258-1333 | the traversal passes every cell of the rectangle before its current position |
| Evaluation.Numbers | expression.cpp:1258-1333 | only int and float cells take part in a statistic |
| Evaluation.NumberFromCell | expression.cpp:1258-1333 | every number counted comes from a cell |
| Evaluation.CellGivesNumber | expression.cpp:1258-1333 | every numeric cell is counted |
| Evaluation.NumbersAppend | expression.cpp:1258-1333 | one more cell adds its number, if it has one |
| Evaluation.AccumulatorsAppend | expression.cpp:1258-1333 | the running maximum, minimum and sum are updated as the loop body does |
| Evaluation.MaxIsGreatest | expression.cpp:1258-1333 | the maximum is one of the numbers and is at least every number |
| Evaluation.MinIsLeast | expression.cpp:1341-1413 | the minimum is one of the numbers and is at most every number |
| Evaluation.SumBounds | expression.cpp:1491-1559 | a sum of n numbers from lo to hi lies from n * lo to n * hi |
| Evaluation.QuotientBounds | expression.cpp:1420-1490 | dividing a sum bounded that way by n gives a value from lo to hi |
| Evaluation.TallyAppend | expression.cpp:1258-1559 | one more cell updates the statistics' accumulators by one step |
| Evaluation.TallyAccumulates | expression.cpp:1258-1559 | the accumulators hold the maximum, minimum, sum and count of the numbers seen |
| Evaluation.TallyOf | expression.cpp:1287-1325 | the accumulators after the row-major traversal; TallyAppend and TallyAccumulates state what they hold |
| Evaluation.Finish | expression.cpp:1327 | the result each statistic builds from its accumulators; MaxOverRectangle, MinOverRectangle and MeanBetweenMinAndMax state it |
| Evaluation.StatOf | expression.cpp:1258-1328 | a statistic over the cells of a rectangle (this one for `max`, and also lines 1341-1412, 1420-1489 and 1497-1558); MaxOverRectangle, MinOverRectangle and MeanBetweenMinAndMax state it |
| Evaluation.AverageBetweenMinAndMax | expression.cpp:1420-1490 | the mean lies between minimum and maximum |
| Evaluation.MeanBetweenMinAndMax | expression.cpp:1420-1490 | `mean` over no numbers is 0, and otherwise a value between the minimum and maximum |
| Evaluation.ForRowEnd | expression.cpp:1670-1721 | at the end of a row, the loop goes on at the start of the next row |
| Evaluation.Evaluate | expression.cpp:23-133 | `evaluate` of every node: a literal node returns its value, and every other node goes to its own case below; EvaluateKeepsNames and WriteFreeChangesNoVariable state it, and Spreadsheet.Interpret is proved equal to it |
| Evaluation.EvalBinary | expression.cpp:142-200 | a binary node: the left operand, then the right one, then the operation (this one for `+`; every binary class does the same) |
| Evaluation.EvalUnary | expression.cpp:492-519 | a unary node: the operand, then the operation (this one for `-`; every unary class does the same) |
| Evaluation.EvalLValue | expression.cpp:644-668 | `LValue::evaluate`: the address the row and column give |
| Evaluation.EvalRValue | expression.cpp:675-704 | `RValue::evaluate`: the primitive of the cell the row and column give |
| Evaluation.EvalStat | expression.cpp:1258-1328 | a statistic node: the two corners, then the statistic over their rectangle; StatOverLiterals states its errors |
| Evaluation.EvalAssignment | expression.cpp:1614-1632 | `Assignment::evaluate`; AssignmentStoresValue, AssignmentEvaluatesSourceTwice and ChainedAssignmentRaises state it |
| Evaluation.EvalIf | expression.cpp:1640-1660 | `IfExpr::evaluate`; IfSelectsBranch states it |
| Evaluation.EvalFor | expression.cpp:1669-1721 | `ForExpr::evaluate`; ForRejectsNonVariable and ForReadingVariableEndsAtLastCell state it |
| Evaluation.EvalStatements | expression.cpp:1571-1583 | `Block::evaluate` from one statement on; BlockReturnsLast and StatementsPrefix state it |
| Evaluation.ForCells | expression.cpp:1669-1721 | the loop of `ForExpr::evaluate` from one cell on; ForRowEnd and ForReadingVariableEndsAtLastCell state it |
| Evaluation.VariableNeverRaises | expression.cpp:1591-1601 | a variable evaluates to its value, or 0, and never raises |
| Evaluation.AssignmentStoresValue | expression.cpp:1615-1631 | `x = literal` stores and returns the literal |
| Evaluation.FalseOrTrueIsFalse | expression.cpp:585-590 | evaluating `false or true` gives Boolean false and changes no variable, as the `&&` in Or::evaluate does |
| Evaluation.AssignmentEvaluatesSourceTwice | expression.cpp:1615-1631 | the right side is evaluated before and again after the store, so `x = x + 1` on a fresh `x` gives 2 |
| Evaluation.ChainedAssignmentRaises | expression.cpp:1615-1631 | an assignment whose target is itself an assignment raises `std::bad_cast` |
| Evaluation.IfSelectsBranch | expression.cpp:1641-1661 | `if` raises with its condition, takes the branch its Boolean selects, and rejects a non-Boolean condition |
| Evaluation.ForRejectsNonVariable | expression.cpp:1670-1721 | a `for` whose loop variable is not a variable raises at once |
| Evaluation.EvaluateKeepsNames | runtime.cpp:12-59 | evaluation never removes a name from the table |
| Evaluation.ExtendsTransitive | runtime.cpp:12-59 | keeping every value, step after step, keeps every value |
| Evaluation.WriteFreeChangesNoVariable | runtime.cpp:12-59 | an expression without assignments or loops changes no variable's value |
| Evaluation.BlockReturnsLast | expression.cpp:1572-1584 | an empty block returns null; a block returns its last statement's value, and stops at the first raise |
| Evaluation.StatementsPrefix | expression.cpp:1572-1584 | adding a statement runs it after all the others |
| Evaluation.StatOverLiterals | expression.cpp:1258-1559 | a statistic over two literal addresses raises exactly when they are out of order or out of the grid |
| Evaluation.MaxOverRectangle | expression.cpp:1258-1333 | `max` is negative infinity with no numbers, and otherwise a number of one of the rectangle's cells that is at least every other |
| Evaluation.MinOverRectangle | expression.cpp:1341-1413 | `min` is positive infinity with no numbers, and otherwise a number of one of the rectangle's cells that is at most every other |
| Evaluation.ForReadingVariableEndsAtLastCell | expression.cpp:1670-1721 | a loop whose body is its own variable returns the bottom-right cell |
| Spreadsheet.Cell.constructor | cell.cpp:5-8 | a new cell keeps text, expression and primitive, and its error is always empty |
| Spreadsheet.Cell.SetStr | cell.cpp:40-44 | sets the text, leaving the rest |
| Spreadsheet.Cell.SetExpression | cell.cpp:46-51 | sets the expression, leaving the rest |
| Spreadsheet.Cell.SetPrimitive | cell.cpp:53-57 | sets the primitive, leaving the rest |
| Spreadsheet.Cell.SetError | cell.cpp:59-62 | sets the error, leaving the rest |
| Spreadsheet.Grid.constructor | grid.cpp:5-18 | every cell starts with empty text, an empty string expression, an empty string primitive and no error |
| Spreadsheet.Grid.GetValue | grid.cpp:41-53 | `getValue` is `CellValue` of the grid's primitives |
| Spreadsheet.Grid.GetCell | grid.cpp:55-59 | `getCell` returns the cell object at that address |
| Spreadsheet.Grid.SetCell | grid.cpp:20-39 | the new primitive is the expression's value; if evaluation raises, no cell changes; otherwise only that cell's primitive, expression, text and error change |
| Spreadsheet.Grid.UpdateGrid | grid.cpp:88-106 | `updateGrid` re-evaluates the cells in row-major order, each seeing the values before it, and stops at the first raise |
| Spreadsheet.Grid.RefreshRow | grid.cpp:93-104 | one row of `updateGrid` is the next 13 steps of the pass |
| Spreadsheet.Grid.RefreshCell | grid.cpp:95-103 | one cell of `updateGrid` is one step of the pass |
| Spreadsheet.PassNext | grid.cpp:88-106 | the pass over k + 1 cells is one step after the pass over k |
| Spreadsheet.PassStops | grid.cpp:88-106 | after a raise, the rest of the pass changes nothing |
| Spreadsheet.PassLeavesLaterCells | grid.cpp:88-106 | cells not yet reached keep their primitives |
| Spreadsheet.PassKeepsEarlierCells | grid.cpp:88-106 | a cell already refreshed is not changed again |
| Spreadsheet.Runtime.constructor | runtime.cpp:4 | a new runtime holds the grid and no variables |
| Spreadsheet.Runtime.GetCell | runtime.cpp:6-10 | `getCell` reads the grid through `getValue` |
| Spreadsheet.Runtime.SetVariable | runtime.cpp:12-16 | the table afterwards is the table with that name set |
| Spreadsheet.Runtime.GetVariable | runtime.cpp:18-59 | returns a copy of the variable's value, or 0, and leaves the table `GetVariable` describes |
| Spreadsheet.Interpret | expression.h:31-33 | the result and the variable table afterwards are those `Evaluate` gives |
| Spreadsheet.InterpretBinary | expression.cpp:143-201 | both operands left first, then the operator, as `Evaluate` gives |
| Spreadsheet.InterpretLValue | expression.cpp:645-669 | `[r, c]` as `Evaluate` gives |
| Spreadsheet.InterpretRValue | expression.cpp:676-705 | `#[r, c]` reads the cell, as `Evaluate` gives |
| Spreadsheet.InterpretStat | expression.cpp:1258-1559 | a statistic as `Evaluate` gives |
| Spreadsheet.InterpretAssignment | expression.cpp:1615-1631 | an assignment as `Evaluate` gives |
| Spreadsheet.InterpretIf | expression.cpp:1641-1661 | `if` as `Evaluate` gives |
| Spreadsheet.InterpretFor | expression.cpp:1670-1721 | `for` as `Evaluate` gives |
| Spreadsheet.RunBlock | expression.cpp:1572-1584 | the statement loop as `Evaluate` gives |
| Spreadsheet.RunFor | expression.cpp:1670-1721 | the nested loops over the rectangle as `ForCells` gives |
| Spreadsheet.RunForRow | expression.cpp:1670-1721 | one row of the loop as `ForCells` gives |
| Spreadsheet.RunForCell | expression.cpp:1670-1721 | one cell of the loop as `ForCells` gives |
| Spreadsheet.Statistic | expression.cpp:1258-1559 | the traversal gives the statistic of the rectangle's cells, or the out-of-range error for a rectangle leaving the grid |
| Spreadsheet.TallyRow | expression.cpp:1258-1333 | one row of the traversal adds that row's cells to the accumulators |
| Spreadsheet.TallyCell | expression.cpp:1258-1333 | one cell of the traversal adds that cell to the accumulators |
| Spreadsheet.TallyNext | expression.cpp:1258-1333 | the accumulators after one more cell are one step from those before it |
| Spreadsheet.Classify | expression.cpp:1258-1333 | the `typeid` chain gives a number exactly for int and float cells |
| Spreadsheet.Accumulate | expression.cpp:1258-1333 | the loop body updates maximum, minimum, sum and count by one number |

## Findings

| source | as written | input that shows it | evidently intended | confidence | as-written member | corrected member |
|---|---|---|---|---|---|---|
| expression.cpp:571-607 | `Or::evaluate` combines its two Booleans with `&&` | `false or true` gives false | logical or | not executed | Operators.OrAsWrittenIsConjunction | Operators.OrIsDisjunction |
| lexer.cpp:320-337 | the loop after an opening quote checks only for a quote, so the end-of-source check after it can never fire | the source `"ab` reads past the end of the string | raise "Unterminated string" when the source ends inside a literal | not executed | Lexing.StringAsWrittenNeverReportsUnterminated | Lexing.Lexer.ScanString |
| token.h:101-148 | `token_type_strings` has 39 entries: it leaves out NEWLINE, SEMICOLON and COLON and every kind after VARIABLE, so its last entry sits at NEWLINE's ordinal | `getTypeString` of a NEWLINE token gives "VARIABLE"; of a VARIABLE token it reads past the table | one name per kind | not executed | Tokens.AsWrittenMisnamesNewline | Tokens.TypeStringInjective |

The evaluator keeps `or` as written: `Operators.ApplyBinary` dispatches
an `or` node to `OrPrimsAsWritten`, so `false or true` is false there
(`Operators.OrNodeGivesLeft`, `Evaluation.FalseOrTrueIsFalse`), and
`OrPrims` is only the corrected half of its row.
The lexer's string scan and a token's kind name use the corrected forms;
"## Left out" names the members concerned.

## Left out

- The terminal interface (ncurses), `main`, the milestone programs, the key inspector, and `Grid::printGrid`: these do I/O only.
- Float arithmetic is not modelled. Every float operation is a parameter, and statistics accumulate exact reals where the source accumulates `double`s. Nothing is proved about rounding.
- Evaluation.NumberOf: turns every float into a real through the total `toReal`, so a NaN or infinite cell gives a real like any other cell. In the source a NaN cell is skipped by the comparisons `val > max` and `val < min` but makes the sum and the mean NaN, and an infinite cell makes them infinite.
- Evaluation.MaxOverRectangle: holds of the reals `toReal` gives. A rectangle with a NaN or infinite float cell is not described as the source computes it.
- Evaluation.MinOverRectangle: holds of the reals `toReal` gives, with the same gap for NaN and infinite cells.
- Evaluation.MeanBetweenMinAndMax: holds of the reals `toReal` gives. With a NaN or infinite cell the source's mean is NaN or infinite, which this lemma does not describe.
- Source text is a sequence of characters here, not of bytes, so the lexer model is exact only for ASCII text. In the source, `std::string` indices are byte offsets, and `isalpha` of a byte above 127 (a negative `char`) is undefined. For a character such as `é` the source sees two bytes where the model sees one character, so the unrecognized-character message and every later token index differ.
- C++ undefined behaviour becomes an error result: signed overflow, `INT_MIN / -1`, shifts by an amount outside 0 to 31, dereferencing a null primitive (`typeid(*null)` raises `std::bad_typeid`), and reading `tokens[i]` past the end. The model does not say what a given compiler would do.
- The source positions that AST nodes carry (`start_index`, `end_index`) are not modelled, except in tokens, where lexing sets them.
- `Grid::getCells` returns the raw cell array. It is not modelled, since it only exposes storage.
- Ownership, `unique_ptr`/`shared_ptr` sharing, and the destructors are not modelled. A cell's expression and primitive are values.
- Tokens.Token.Describe: takes the kind's name from the corrected 49-entry table rather than the 39-entry one.
- PrintLaws.SerializeSpellsRender: covers only the expressions the token rendering can write. Those are integers from 0 up, Booleans, strings, variables and every operator over them. Floats, cell-address literals, negative literals, blocks, assignments, `if` and `for` are excluded. A space inside a string or a name is also excluded, because the statement removes spaces.
- The rendering is a token sequence, not the lexing of `serialize`'s text. `serialize` writes strings without quotes and variables as `Variable:name`, so its text does not lex back to the same tokens.
- The grammar's functions promise only that parsing moves forward. What they parse is stated by the laws in `grammar_laws.dfy`.
- Lexing.Lexer.ScanString: models the loop with the end-of-source check added (the corrected form). The as-written loop, which reads past the end, appears only as `QuoteLoopAsWritten`.
