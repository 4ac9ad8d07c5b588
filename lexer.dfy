/**
 * The lexer: turns a cell's source text into tokens.
 *
 * `LexFrom` is the specification, one scanning step (`Step`) at a time;
 * the class `Lexer` is the imperative scanner with the cursor `i`, the
 * text captured so far and the token list, and its `Lex` method is proved
 * to compute exactly `LexFrom`.
 */
module Lexing {
  import opened Wrappers
  import opened Int32
  import opened Tokens

  // ------------------------------------------------------- character classes

  /** `isalpha` in the C locale. */
  predicate IsAlpha(c: char) {
    'a' <= c <= 'z' || 'A' <= c <= 'Z'
  }

  /** `isalnum` in the C locale. */
  predicate IsAlnum(c: char) {
    IsAlpha(c) || IsDigit(c)
  }

  /** `isspace(c) && c != '\n'`: blank, tab, vertical tab, form feed, return. */
  predicate IsBlank(c: char) {
    c == ' ' || c == '\t' || c == '\U{000B}' || c == '\U{000C}' || c == '\r'
  }

  /** `source[i]` on a `std::string`: the character at `i`, or the
      terminating '\0' when `i` is the length. */
  function At(s: string, i: nat): char
    requires i <= |s|
  {
    if i < |s| then s[i] else '\0'
  }

  /** The end of the longest run of digits starting at `i`. */
  function DigitsEnd(s: string, i: nat): (j: nat)
    requires i <= |s|
    ensures i <= j <= |s|
    ensures forall k :: i <= k < j ==> IsDigit(s[k])
    ensures j == |s| || !IsDigit(s[j])
    decreases |s| - i
  {
    if i < |s| && IsDigit(s[i]) then DigitsEnd(s, i + 1) else i
  }

  /** The end of the longest run of letters and digits starting at `i`. */
  function AlnumEnd(s: string, i: nat): (j: nat)
    requires i <= |s|
    ensures i <= j <= |s|
    ensures forall k :: i <= k < j ==> IsAlnum(s[k])
    ensures j == |s| || !IsAlnum(s[j])
    decreases |s| - i
  {
    if i < |s| && IsAlnum(s[i]) then AlnumEnd(s, i + 1) else i
  }

  /** The first double quote at or after `i`, if any. */
  function QuoteFrom(s: string, i: nat): (q: Option<nat>)
    requires i <= |s|
    ensures q.Some? ==> i <= q.value < |s| && s[q.value] == '"'
                        && forall k :: i <= k < q.value ==> s[k] != '"'
    ensures q.None? ==> forall k :: i <= k < |s| ==> s[k] != '"'
    decreases |s| - i
  {
    if i == |s| then None
    else if s[i] == '"' then Some(i)
    else QuoteFrom(s, i + 1)
  }

  // ------------------------------------------------------------ one step

  /** The token `emit_token` makes after capturing `s[a..b]`: the captured
      text, starting at `a` and ending at `b - 1`. */
  function Span(s: string, a: nat, b: nat, t: TokenType): Token
    requires a <= b <= |s|
  {
    Token(s[a..b], t, a, b - 1)
  }

  /** What a scanning step produces: at most one token and the position
      where the next step starts. */
  type Scanned = Result<(Option<Token>, nat)>

  /** The kind of a word, checked against the keywords in the order the
      lexer tests them. */
  function KeywordType(word: string): TokenType {
    if word == "true" || word == "false" then BOOLEAN
    else if word == "sum" then SUM
    else if word == "mean" then MEAN
    else if word == "min" then MIN
    else if word == "max" then MAX
    else if word == "float" then INTTOFLOAT
    else if word == "int" then FLOATTOINT
    else if word == "if" then IF
    else if word == "else" then ELSE
    else if word == "for" then FOR
    else if word == "in" then IN
    else if word == "end" then END
    else VARIABLE
  }

  const Keywords: set<string> :=
    {"true", "false", "sum", "mean", "min", "max", "float", "int", "if", "else", "for", "in", "end"}

  /** A word is a VARIABLE exactly when it is no keyword, and BOOLEAN exactly
      when it spells a truth value. */
  lemma KeywordTypeClassifies(word: string)
    ensures KeywordType(word) == VARIABLE <==> word !in Keywords
    ensures KeywordType(word) == BOOLEAN <==> word == "true" || word == "false"
  {
  }

  /** A digit run, optionally followed by '.' and a second digit run. */
  function NumberStep(s: string, i: nat): Scanned
    requires i < |s| && IsDigit(s[i])
  {
    var j := DigitsEnd(s, i);
    if At(s, j) == '.' then
      var k := DigitsEnd(s, j + 1);
      Ok((Some(Span(s, i, k, FLOAT)), k))
    else
      Ok((Some(Span(s, i, j, INTEGER)), j))
  }

  /** A letter followed by letters and digits. */
  function WordStep(s: string, i: nat): Scanned
    requires i < |s| && IsAlpha(s[i])
  {
    var j := AlnumEnd(s, i);
    Ok((Some(Span(s, i, j, KeywordType(s[i..j]))), j))
  }

  /** A string literal: the text between the quotes becomes the token's
      text, while its recorded span is that of the captured text with the
      quotes trimmed off the length only (start two past the opening quote,
      end at the closing quote).  A literal with no closing quote is an
      error. */
  function StringStep(s: string, i: nat): Scanned
    requires i < |s| && s[i] == '"'
  {
    match QuoteFrom(s, i + 1)
    case None => Err("Unterminated string")
    case Some(q) => Ok((Some(Token(s[i + 1..q], STRING, (q + 1) - (q - i - 1), q)), q + 1))
  }

  /** The loop `while (!has('"')) capture();` as written: the cursor where
      it stops, starting at `k`, or `None` once it would read past the
      terminating '\0' (undefined behaviour). */
  function QuoteLoopAsWritten(s: string, k: nat): (r: Option<nat>)
    requires k <= |s| + 1
    ensures r.Some? ==> k <= r.value
    decreases |s| + 1 - k
  {
    if k > |s| then None
    else if At(s, k) == '"' then Some(k)
    else QuoteLoopAsWritten(s, k + 1)
  }

  /** The string branch as written: the unbounded loop, then the check
      `i >= source.size()`, then the closing quote.  `None` where the
      lexer's behaviour is undefined. */
  function StringStepAsWritten(s: string, i: nat): Option<Scanned>
    requires i < |s| && s[i] == '"'
  {
    match QuoteLoopAsWritten(s, i + 1)
    case None => None
    case Some(q) =>
      if q >= |s| then Some(Err("Unterminated string"))
      else Some(Ok((Some(Token(s[i + 1..q], STRING, (q + 1) - (q - i - 1), q)), q + 1)))
  }

  /** The as-written loop only ever stops on a real quote inside the
      source, so its end-of-source check can never fire: a literal without
      a closing quote runs off the end instead of being reported. */
  lemma {:induction false} QuoteLoopStopsInside(s: string, k: nat)
    requires k <= |s| + 1
    ensures QuoteLoopAsWritten(s, k).Some? ==> QuoteLoopAsWritten(s, k).value < |s|
    ensures k <= |s| ==> (QuoteLoopAsWritten(s, k).None? <==> QuoteFrom(s, k).None?)
    ensures QuoteLoopAsWritten(s, k).Some? ==> QuoteFrom(s, k) == QuoteLoopAsWritten(s, k)
    decreases |s| + 1 - k
  {
    if k <= |s| && At(s, k) != '"' {
      QuoteLoopStopsInside(s, k + 1);
    }
  }

  lemma StringAsWrittenNeverReportsUnterminated(s: string, i: nat)
    requires i < |s| && s[i] == '"'
    ensures StringStepAsWritten(s, i) != Some(Err("Unterminated string"))
    ensures StringStepAsWritten(s, i).None? <==> StringStep(s, i) == Err("Unterminated string")
    ensures StringStepAsWritten(s, i).Some? ==> StringStepAsWritten(s, i).value == StringStep(s, i)
  {
    QuoteLoopStopsInside(s, i + 1);
  }

  /** The literal `"ab` with no closing quote: undefined as written, the
      "Unterminated string" error once the loop is bounded. */
  lemma UnterminatedStringExample()
    ensures StringStepAsWritten("\"ab", 0).None?
    ensures StringStep("\"ab", 0) == Err("Unterminated string")
  {
    StringAsWrittenNeverReportsUnterminated("\"ab", 0);
    assert QuoteFrom("\"ab", 1) == None by {
      assert QuoteFrom("\"ab", 3) == None;
      assert QuoteFrom("\"ab", 2) == QuoteFrom("\"ab", 3);
    }
  }

  /** The error for a character that starts no token. */
  function UnrecognizedMessage(c: char, i: nat): string {
    "Unrecognized character '" + [c] + "' at index = " + IntToString(i)
  }

  /** One operator or punctuation character, or two when the longer
      operator matches. */
  function SymbolStep(s: string, i: nat): Scanned
    requires i < |s|
  {
    var c, n := s[i], At(s, i + 1);
    var one := (t: TokenType) => Ok((Some(Span(s, i, i + 1, t)), i + 1));
    var two := (t: TokenType) requires i + 2 <= |s| => Ok((Some(Span(s, i, i + 2, t)), i + 2));
    if c == '+' then one(PLUS)
    else if c == '-' then one(MINUS)
    else if c == '*' then (if n == '*' then two(EXPONENTIATE) else one(MULTIPLY))
    else if c == '/' then one(DIVIDE)
    else if c == '%' then one(MODULO)
    else if c == '^' then one(BITXOR)
    else if c == '&' then (if n == '&' then two(AND) else one(BITAND))
    else if c == '|' then (if n == '|' then two(OR) else one(BITOR))
    else if c == '~' then one(BITNOT)
    else if c == '<' then (if n == '=' then two(LESSTHANEQUAL) else if n == '<' then two(LEFTSHIFT) else one(LESSTHAN))
    else if c == '>' then (if n == '=' then two(GREATERTHANEQUAL) else if n == '>' then two(RIGHTSHIFT) else one(GREATERTHAN))
    else if c == '=' then (if n == '=' then two(EQUALS) else one(ASSIGNMENT))
    else if c == '!' then (if n == '=' then two(NOTEQUALS) else one(NOT))
    else if c == '(' then one(LEFTPARENTHESIS)
    else if c == ')' then one(RIGHTPARENTHESIS)
    else if c == '[' then one(LEFTBRACKET)
    else if c == ']' then one(RIGHTBRACKET)
    else if c == '#' then one(HASHTAG)
    else if c == ',' then one(COMMA)
    else if c == '.' then (if n == '.' then two(DOTDOT) else Err("Unrecognized character '.', check context"))
    else if c == ';' then one(SEMICOLON)
    else if c == ':' then one(COLON)
    else Err(UnrecognizedMessage(c, i))
  }

  /** One iteration of the lexer's main loop, starting at `i`. */
  function Step(s: string, i: nat): (r: Scanned)
    requires i < |s|
    ensures r.Ok? ==> i < r.value.1 <= |s|
  {
    if IsBlank(s[i]) then Ok((None, i + 1))
    else if s[i] == '\n' then Ok((Some(Span(s, i, i + 1, NEWLINE)), i + 1))
    else if IsDigit(s[i]) then NumberStep(s, i)
    else if IsAlpha(s[i]) then WordStep(s, i)
    else if s[i] == '"' then StringStep(s, i)
    else SymbolStep(s, i)
  }

  function OptionToSeq(o: Option<Token>): seq<Token> {
    if o.Some? then [o.value] else []
  }

  /** The tokens of `s[i..]`, or the first error met. */
  function LexFrom(s: string, i: nat): Result<seq<Token>>
    requires i <= |s|
    decreases |s| - i
  {
    if i == |s| then Ok([])
    else
      match Step(s, i)
      case Err(m) => Err(m)
      case Ok((t, j)) =>
        match LexFrom(s, j)
        case Err(m) => Err(m)
        case Ok(rest) => Ok(OptionToSeq(t) + rest)
  }

  /** `Lexer(source).lex()`. */
  function Lex(s: string): Result<seq<Token>> {
    LexFrom(s, 0)
  }

  /** `tokens` followed by the tokens of `r`, or the error of `r`. */
  function Prepend(tokens: seq<Token>, r: Result<seq<Token>>): Result<seq<Token>> {
    match r
    case Err(m) => Err(m)
    case Ok(ts) => Ok(tokens + ts)
  }

  // ------------------------------------------------------- properties

  /** Where a token sits in the source.  Its span always covers as many
      positions as its text has characters.  Every token but a string
      literal is the source text at its span; a string literal's text is
      the span shifted one place left, between the opening quote (two
      before the start) and the closing quote (at the end). */
  ghost predicate WellPlaced(s: string, t: Token) {
    && 0 <= t.startIndex && t.endIndex < |s|
    && t.endIndex - t.startIndex + 1 == |t.text|
    && (t.tokenType != STRING ==> t.text == s[t.startIndex..t.endIndex + 1])
    && (t.tokenType == STRING ==>
          2 <= t.startIndex && s[t.startIndex - 2] == '"' && s[t.endIndex] == '"'
          && t.text == s[t.startIndex - 1..t.endIndex])
  }

  /** Each token ends before the next one starts. */
  ghost predicate InSourceOrder(ts: seq<Token>) {
    forall k :: 0 <= k < |ts| - 1 ==> ts[k].endIndex < ts[k + 1].startIndex
  }

  /** A step whose token is the source text from the step's start up to
      where the next step starts, and not a string literal. */
  ghost predicate SpanStep(s: string, i: nat, r: Scanned)
    requires i < |s|
  {
    r.Ok? && r.value.0.Some? ==>
      && i < r.value.1 <= |s|
      && r.value.0.value == Span(s, i, r.value.1, r.value.0.value.tokenType)
      && r.value.0.value.tokenType != STRING
  }

  lemma SymbolStepIsSpan(s: string, i: nat)
    requires i < |s|
    ensures SpanStep(s, i, SymbolStep(s, i))
  {
  }

  lemma SpanIsWellPlaced(s: string, a: nat, b: nat, t: TokenType)
    requires a < b <= |s| && t != STRING
    ensures WellPlaced(s, Span(s, a, b, t))
  {
  }

  /** The token of one step is well placed, ends just before the next step
      starts, and does not start before the step. */
  lemma StepToken(s: string, i: nat)
    requires i < |s| && Step(s, i).Ok? && Step(s, i).value.0.Some?
    ensures WellPlaced(s, Step(s, i).value.0.value)
    ensures Step(s, i).value.0.value.endIndex == Step(s, i).value.1 - 1
    ensures Step(s, i).value.0.value.startIndex >= i
  {
    var r := Step(s, i);
    if IsBlank(s[i]) {
    } else if s[i] == '\n' {
      SpanIsWellPlaced(s, i, i + 1, NEWLINE);
    } else if IsDigit(s[i]) {
      var j := DigitsEnd(s, i);
      if At(s, j) == '.' {
        SpanIsWellPlaced(s, i, DigitsEnd(s, j + 1), FLOAT);
      } else {
        SpanIsWellPlaced(s, i, j, INTEGER);
      }
    } else if IsAlpha(s[i]) {
      var j := AlnumEnd(s, i);
      SpanIsWellPlaced(s, i, j, KeywordType(s[i..j]));
    } else if s[i] == '"' {
      var q := QuoteFrom(s, i + 1).value;
      assert r.value.0.value == Token(s[i + 1..q], STRING, i + 2, q);
    } else {
      assert r == SymbolStep(s, i);
      SymbolStepIsSpan(s, i);
      SpanIsWellPlaced(s, i, r.value.1, r.value.0.value.tokenType);
    }
  }

  /** Every token of a successful scan is well placed, starts no earlier
      than the scan, and the tokens come in source order. */
  lemma {:induction false} LexFromPlacesTokens(s: string, i: nat)
    requires i <= |s| && LexFrom(s, i).Ok?
    ensures forall t :: t in LexFrom(s, i).value ==> WellPlaced(s, t) && t.startIndex >= i
    ensures InSourceOrder(LexFrom(s, i).value)
    decreases |s| - i
  {
    if i < |s| {
      var (t, j) := Step(s, i).value;
      LexFromPlacesTokens(s, j);
      var rest := LexFrom(s, j).value;
      assert LexFrom(s, i).value == OptionToSeq(t) + rest;
      if t.Some? {
        StepToken(s, i);
        var all := OptionToSeq(t) + rest;
        forall k | 0 <= k < |all| - 1
          ensures all[k].endIndex < all[k + 1].startIndex
        {
          if k == 0 {
            assert all[1] in rest;
          } else {
            assert all[k] == rest[k - 1] && all[k + 1] == rest[k];
          }
        }
      }
    }
  }

  /** The tokens of `Lex(s)` are placed in `s` as `WellPlaced` says and come
      in source order. */
  lemma LexPlacesTokens(s: string)
    requires Lex(s).Ok?
    ensures forall t :: t in Lex(s).value ==> WellPlaced(s, t)
    ensures InSourceOrder(Lex(s).value)
  {
    LexFromPlacesTokens(s, 0);
  }

  /** Start indices never decrease but need not increase: an empty string
      literal records a start one past its end, so in `""x` both tokens
      start at index 2. */
  lemma StartsNeverDecrease(s: string)
    requires Lex(s).Ok?
    ensures forall k :: 0 <= k < |Lex(s).value| - 1 ==>
              Lex(s).value[k].startIndex <= Lex(s).value[k + 1].startIndex
  {
    LexPlacesTokens(s);
    var ts := Lex(s).value;
    forall k | 0 <= k < |ts| - 1
      ensures ts[k].startIndex <= ts[k + 1].startIndex
    {
      assert ts[k] in ts;
    }
  }

  lemma EmptyLiteralSharesStart()
    ensures Lex("\"\"x") == Ok([Token("", STRING, 2, 1), Token("x", VARIABLE, 2, 2)])
  {
    var s := "\"\"x";
    assert s[0] == '"' && s[1] == '"' && s[2] == 'x';
    assert QuoteFrom(s, 1) == Some(1);
    assert s[1..1] == "";
    assert StringStep(s, 0) == Ok((Some(Token("", STRING, 2, 1)), 2));
    assert Step(s, 0) == Ok((Some(Token("", STRING, 2, 1)), 2));
    assert AlnumEnd(s, 3) == 3;
    assert AlnumEnd(s, 2) == 3;
    assert s[2..3] == "x";
    assert Step(s, 2) == Ok((Some(Token("x", VARIABLE, 2, 2)), 3));
    assert LexFrom(s, 3) == Ok([]);
    assert [Token("x", VARIABLE, 2, 2)] + [] == [Token("x", VARIABLE, 2, 2)];
    assert LexFrom(s, 2) == Ok([Token("x", VARIABLE, 2, 2)]);
    assert [Token("", STRING, 2, 1)] + [Token("x", VARIABLE, 2, 2)]
        == [Token("", STRING, 2, 1), Token("x", VARIABLE, 2, 2)];
  }

  /** Blanks produce no token. */
  lemma LexSkipsBlank(s: string, i: nat)
    requires i < |s| && IsBlank(s[i])
    ensures LexFrom(s, i) == LexFrom(s, i + 1)
  {
    if LexFrom(s, i + 1).Ok? {
      assert [] + LexFrom(s, i + 1).value == LexFrom(s, i + 1).value;
    }
  }

  /** A newline is a token of its own. */
  lemma LexNewline(s: string, i: nat)
    requires i < |s| && s[i] == '\n'
    ensures LexFrom(s, i) == Prepend([Token("\n", NEWLINE, i, i)], LexFrom(s, i + 1))
  {
    assert s[i..i + 1] == "\n";
    if LexFrom(s, i + 1).Ok? {
      assert LexFrom(s, i).value == [Token("\n", NEWLINE, i, i)] + LexFrom(s, i + 1).value;
    }
  }

  /** A number takes the longest run of digits and, if a '.' follows, the
      '.' and the longest run of digits after it; it is a FLOAT exactly when
      it has the '.'. */
  lemma NumberToken(s: string, i: nat)
    requires i < |s| && IsDigit(s[i])
    ensures var (t, j) := Step(s, i).value; var d := DigitsEnd(s, i);
      && t.Some? && t.value.text == s[i..j] && (j == |s| || !IsDigit(s[j]))
      && (At(s, d) == '.' <==> d < j)
      && (forall k :: i <= k < j && k != d ==> IsDigit(s[k]))
      && (t.value.tokenType == FLOAT <==> '.' in t.value.text)
      && (t.value.tokenType == INTEGER <==> '.' !in t.value.text)
  {
    var d := DigitsEnd(s, i);
    if At(s, d) == '.' {
      assert s[d] == '.';
      assert s[i..DigitsEnd(s, d + 1)][d - i] == '.';
    } else {
      assert forall k :: 0 <= k < d - i ==> s[i..d][k] == s[i + k];
    }
  }

  /** A word takes the longest run of letters and digits; it is a keyword's
      kind when it spells a keyword and VARIABLE otherwise. */
  lemma WordToken(s: string, i: nat)
    requires i < |s| && IsAlpha(s[i])
    ensures var (t, j) := Step(s, i).value;
      && t.Some? && t.value.text == s[i..j] && (j == |s| || !IsAlnum(s[j]))
      && (forall k :: i <= k < j ==> IsAlnum(s[k]))
      && t.value.tokenType == KeywordType(s[i..j])
      && (t.value.tokenType == VARIABLE <==> s[i..j] !in Keywords)
      && (t.value.tokenType == BOOLEAN <==> s[i..j] == "true" || s[i..j] == "false")
  {
    var j := AlnumEnd(s, i);
    assert Step(s, i) == WordStep(s, i);
    KeywordTypeClassifies(s[i..j]);
  }

  /** The two-character operators, by their characters. */
  function TwoCharKind(a: char, b: char): Option<TokenType> {
    if [a, b] == "**" then Some(EXPONENTIATE)
    else if [a, b] == "&&" then Some(AND)
    else if [a, b] == "||" then Some(OR)
    else if [a, b] == "<=" then Some(LESSTHANEQUAL)
    else if [a, b] == "<<" then Some(LEFTSHIFT)
    else if [a, b] == ">=" then Some(GREATERTHANEQUAL)
    else if [a, b] == ">>" then Some(RIGHTSHIFT)
    else if [a, b] == "==" then Some(EQUALS)
    else if [a, b] == "!=" then Some(NOTEQUALS)
    else if [a, b] == ".." then Some(DOTDOT)
    else None
  }

  /** Maximal munch: where a two-character operator starts, the lexer takes
      both characters. */
  lemma LongestOperatorWins(s: string, i: nat)
    requires i + 1 < |s| && TwoCharKind(s[i], s[i + 1]).Some?
    ensures Step(s, i) == Ok((Some(Token(s[i..i + 2], TwoCharKind(s[i], s[i + 1]).value, i, i + 1)), i + 2))
  {
  }

  /** The characters that start an operator or punctuation token. */
  const SymbolChars: set<char> := {'+', '-', '*', '/', '%', '^', '&', '|', '~', '<', '>', '=', '!',
                                    '(', ')', '[', ']', '#', ',', '.', ';', ':'}

  /** A character that starts no token stops the scan with its error. */
  lemma UnrecognizedCharacterFails(s: string, i: nat)
    requires i < |s|
    requires !IsBlank(s[i]) && s[i] != '\n' && !IsAlnum(s[i]) && s[i] != '"' && s[i] !in SymbolChars
    ensures LexFrom(s, i) == Err(UnrecognizedMessage(s[i], i))
  {
  }

  /** A '.' not followed by another '.' is an error of its own. */
  lemma LoneDotFails(s: string, i: nat)
    requires i < |s| && s[i] == '.' && (i + 1 == |s| || s[i + 1] != '.')
    ensures LexFrom(s, i) == Err("Unrecognized character '.', check context")
  {
  }

  /** The decimal text of a non-negative int lexes as one INTEGER token
      holding that text. */
  lemma LexNatToString(n: nat)
    ensures var d := NatToString(n);
      Lex(d) == Ok([Token(d, INTEGER, 0, |d| - 1)])
  {
    var d := NatToString(n);
    DigitsEndOfDigits(d, 0);
    assert d[0..|d|] == d;
    assert IsDigit(d[0]);
    assert Step(d, 0) == Ok((Some(Span(d, 0, |d|, INTEGER)), |d|));
    assert LexFrom(d, |d|) == Ok([]);
    assert [Token(d, INTEGER, 0, |d| - 1)] + [] == [Token(d, INTEGER, 0, |d| - 1)];
  }

  lemma {:induction false} DigitsEndOfDigits(s: string, i: nat)
    requires i <= |s| && forall k :: 0 <= k < |s| ==> IsDigit(s[k])
    ensures DigitsEnd(s, i) == |s|
    decreases |s| - i
  {
    if i < |s| {
      DigitsEndOfDigits(s, i + 1);
    }
  }

  // ------------------------------------------------------- the scanner

  class Lexer {
    const source: string
    var i: nat
    var tokenSoFar: string
    var tokens: seq<Token>

    constructor(source: string)
      ensures this.source == source && i == 0 && tokenSoFar == "" && tokens == []
    {
      this.source := source;
      i := 0;
      tokenSoFar := "";
      tokens := [];
    }

    /** Whether the current character is `target` (at the end of the source
        the current character is the terminating '\0'). */
    method Has(target: char) returns (b: bool)
      requires i <= |source|
      ensures b <==> At(source, i) == target
    {
      b := At(source, i) == target;
    }

    /** Append the current character to the token text and step past it. */
    method Capture()
      requires i < |source|
      modifies this`i, this`tokenSoFar
      ensures tokenSoFar == old(tokenSoFar) + [source[old(i)]] && i == old(i) + 1
    {
      tokenSoFar := tokenSoFar + [source[i]];
      i := i + 1;
    }

    /** Record a token of kind `t` for the captured text, which ends just
        before the cursor, and clear the captured text. */
    method EmitToken(t: TokenType)
      requires |tokenSoFar| <= i
      modifies this`tokens, this`tokenSoFar
      ensures tokens == old(tokens) + [Token(old(tokenSoFar), t, i - |old(tokenSoFar)|, i - 1)]
      ensures tokenSoFar == ""
    {
      tokens := tokens + [Token(tokenSoFar, t, i - |tokenSoFar|, i - 1)];
      tokenSoFar := "";
    }

    method HasAlphabetic() returns (b: bool)
      ensures b <==> i < |source| && IsAlpha(source[i])
    {
      b := i < |source| && IsAlpha(source[i]);
    }

    method HasAlphanumeric() returns (b: bool)
      ensures b <==> i < |source| && IsAlnum(source[i])
    {
      b := i < |source| && IsAlnum(source[i]);
    }

    method HasDigit() returns (b: bool)
      ensures b <==> i < |source| && IsDigit(source[i])
    {
      b := i < |source| && IsDigit(source[i]);
    }

    method HasWhitespace() returns (b: bool)
      ensures b <==> i < |source| && IsBlank(source[i])
    {
      b := i < |source| && IsBlank(source[i]);
    }

    method HasNewline() returns (b: bool)
      ensures b <==> i < |source| && source[i] == '\n'
    {
      b := i < |source| && source[i] == '\n';
    }

    /** Whether the state after a step is the one `r` describes; on an
        error, `err` carries its message. */
    ghost predicate StepDone(r: Scanned, oldTokens: seq<Token>, err: Option<string>)
      reads this
    {
      match r
      case Err(m) => err == Some(m)
      case Ok((t, j)) => err.None? && i == j && tokens == oldTokens + OptionToSeq(t) && tokenSoFar == ""
    }

    /** Capture a run of digits, starting at the cursor. */
    method CaptureDigits()
      requires i <= |source| && |tokenSoFar| <= i
      modifies this`i, this`tokenSoFar
      ensures i == DigitsEnd(source, old(i))
      ensures tokenSoFar == old(tokenSoFar) + source[old(i)..i]
    {
      ghost var start := i;
      var d := HasDigit();
      while d
        invariant start <= i <= |source|
        invariant DigitsEnd(source, i) == DigitsEnd(source, start)
        invariant tokenSoFar == old(tokenSoFar) + source[start..i]
        invariant d <==> i < |source| && IsDigit(source[i])
        decreases |source| - i
      {
        Capture();
        d := HasDigit();
      }
    }

    method ScanNumber() returns (err: Option<string>)
      requires i < |source| && IsDigit(source[i]) && tokenSoFar == ""
      modifies this`i, this`tokenSoFar, this`tokens
      ensures StepDone(NumberStep(source, old(i)), old(tokens), err)
    {
      ghost var start := i;
      CaptureDigits();
      var dot := Has('.');
      if dot {
        Capture();
        CaptureDigits();
        assert tokenSoFar == source[start..i];
        assert NumberStep(source, start) == Ok((Some(Span(source, start, i, FLOAT)), i));
        EmitToken(FLOAT);
        assert tokens == old(tokens) + [Span(source, start, i, FLOAT)];
      } else {
        assert i == DigitsEnd(source, start);
        assert tokenSoFar == source[start..i];
        assert NumberStep(source, start) == Ok((Some(Span(source, start, i, INTEGER)), i));
        EmitToken(INTEGER);
        assert tokens == old(tokens) + [Span(source, start, i, INTEGER)];
      }
      err := None;
      assert tokens == old(tokens) + [NumberStep(source, start).value.0.value];
    }

    method ScanWord() returns (err: Option<string>)
      requires i < |source| && IsAlpha(source[i]) && tokenSoFar == ""
      modifies this`i, this`tokenSoFar, this`tokens
      ensures StepDone(WordStep(source, old(i)), old(tokens), err)
    {
      ghost var start := i;
      var a := HasAlphanumeric();
      while a
        invariant start <= i <= |source|
        invariant AlnumEnd(source, i) == AlnumEnd(source, start)
        invariant tokenSoFar == source[start..i] && tokens == old(tokens)
        invariant a <==> i < |source| && IsAlnum(source[i])
        decreases |source| - i
      {
        Capture();
        a := HasAlphanumeric();
      }
      assert WordStep(source, start) == Ok((Some(Span(source, start, i, KeywordType(tokenSoFar))), i));
      EmitToken(KeywordType(tokenSoFar));
      assert tokens == old(tokens) + [Span(source, start, i, KeywordType(source[start..i]))];
      err := None;
      assert tokens == old(tokens) + [WordStep(source, start).value.0.value];
    }

    /** A string literal.  The loop stops at the end of the source as well
        as at the closing quote, so a missing quote reaches the
        "Unterminated string" error. */
    method ScanString() returns (err: Option<string>)
      requires i < |source| && source[i] == '"' && tokenSoFar == ""
      modifies this`i, this`tokenSoFar, this`tokens
      ensures StepDone(StringStep(source, old(i)), old(tokens), err)
    {
      ghost var start := i;
      Capture();
      var closing := Has('"');
      while !closing && i < |source|
        invariant start < i <= |source|
        invariant QuoteFrom(source, i) == QuoteFrom(source, start + 1)
        invariant tokenSoFar == source[start..i] && tokens == old(tokens)
        invariant closing <==> At(source, i) == '"'
        decreases |source| - i
      {
        Capture();
        closing := Has('"');
      }
      if i >= |source| {
        return Some("Unterminated string");
      }
      Capture();
      ghost var q := i - 1;
      assert QuoteFrom(source, start + 1) == Some(q);
      tokenSoFar := tokenSoFar[1..|tokenSoFar| - 1];
      assert tokenSoFar == source[start + 1..q];
      ghost var tok := Token(source[start + 1..q], STRING, i - |tokenSoFar|, i - 1);
      assert StringStep(source, start) == Ok((Some(tok), i));
      EmitToken(STRING);
      assert tokens == old(tokens) + [tok];
      err := None;
      assert tokens == old(tokens) + [StringStep(source, start).value.0.value];
    }

    /** Capture one character and emit it as a token of kind `t`. */
    method One(t: TokenType)
      requires i < |source| && tokenSoFar == ""
      modifies this`i, this`tokenSoFar, this`tokens
      ensures i == old(i) + 1 && tokenSoFar == ""
      ensures tokens == old(tokens) + [Span(source, old(i), old(i) + 1, t)]
    {
      Capture();
      assert tokenSoFar == source[i - 1..i];
      EmitToken(t);
    }

    /** After a first character has been captured, capture a second one
        and emit the two as a token of kind `t`. */
    method Second(t: TokenType)
      requires 0 < i < |source| && tokenSoFar == [source[i - 1]]
      modifies this`i, this`tokenSoFar, this`tokens
      ensures i == old(i) + 1 && tokenSoFar == ""
      ensures tokens == old(tokens) + [Span(source, old(i) - 1, old(i) + 1, t)]
    {
      Capture();
      assert tokenSoFar == source[i - 2..i];
      EmitToken(t);
    }

    /** Emit the one captured character as a token of kind `t`. */
    method Single(t: TokenType)
      requires 0 < i <= |source| && tokenSoFar == [source[i - 1]]
      modifies this`tokenSoFar, this`tokens
      ensures tokenSoFar == ""
      ensures tokens == old(tokens) + [Span(source, i - 1, i, t)]
    {
      assert tokenSoFar == source[i - 1..i];
      EmitToken(t);
    }

    method ScanSymbol() returns (err: Option<string>)
      requires i < |source| && tokenSoFar == ""
      modifies this`i, this`tokenSoFar, this`tokens
      ensures StepDone(SymbolStep(source, old(i)), old(tokens), err)
    {
      err := None;
      var c := source[i];
      if c == '+' { One(PLUS); }
      else if c == '-' { One(MINUS); }
      else if c == '*' {
        Capture();
        var n := Has('*');
        if n { Second(EXPONENTIATE); } else { Single(MULTIPLY); }
      }
      else if c == '/' { One(DIVIDE); }
      else if c == '%' { One(MODULO); }
      else if c == '^' { One(BITXOR); }
      else if c == '&' {
        Capture();
        var n := Has('&');
        if n { Second(AND); } else { Single(BITAND); }
      }
      else if c == '|' {
        Capture();
        var n := Has('|');
        if n { Second(OR); } else { Single(BITOR); }
      }
      else if c == '~' { One(BITNOT); }
      else if c == '<' {
        Capture();
        var eq := Has('=');
        var lt := Has('<');
        if eq { Second(LESSTHANEQUAL); } else if lt { Second(LEFTSHIFT); } else { Single(LESSTHAN); }
      }
      else if c == '>' {
        Capture();
        var eq := Has('=');
        var gt := Has('>');
        if eq { Second(GREATERTHANEQUAL); } else if gt { Second(RIGHTSHIFT); } else { Single(GREATERTHAN); }
      }
      else if c == '=' {
        Capture();
        var n := Has('=');
        if n { Second(EQUALS); } else { Single(ASSIGNMENT); }
      }
      else if c == '!' {
        Capture();
        var n := Has('=');
        if n { Second(NOTEQUALS); } else { Single(NOT); }
      }
      else if c == '(' { One(LEFTPARENTHESIS); }
      else if c == ')' { One(RIGHTPARENTHESIS); }
      else if c == '[' { One(LEFTBRACKET); }
      else if c == ']' { One(RIGHTBRACKET); }
      else if c == '#' { One(HASHTAG); }
      else if c == ',' { One(COMMA); }
      else if c == '.' {
        Capture();
        var n := Has('.');
        if n { Second(DOTDOT); } else { err := Some("Unrecognized character '.', check context"); }
      }
      else if c == ';' { One(SEMICOLON); }
      else if c == ':' { One(COLON); }
      else {
        err := Some(UnrecognizedMessage(c, i));
      }
    }

    /** One iteration of the main loop: the branch is chosen by the current
        character, in the order the lexer tests them. */
    method ScanStep() returns (err: Option<string>)
      requires i < |source| && tokenSoFar == ""
      modifies this`i, this`tokenSoFar, this`tokens
      ensures StepDone(Step(source, old(i)), old(tokens), err)
    {
      var blank := HasWhitespace();
      var newline := HasNewline();
      var digit := HasDigit();
      var alpha := HasAlphabetic();
      if blank {
        i := i + 1;
        err := None;
      } else if newline {
        One(NEWLINE);
        err := None;
      } else if digit {
        err := ScanNumber();
      } else if alpha {
        err := ScanWord();
      } else if source[i] == '"' {
        err := ScanString();
      } else {
        err := ScanSymbol();
      }
    }

    /** Scan the whole source from the cursor on: the tokens emitted before
        followed by those of `LexFrom`, or the first error. */
    method Lex() returns (r: Result<seq<Token>>)
      requires i <= |source| && tokenSoFar == ""
      modifies this`i, this`tokenSoFar, this`tokens
      ensures r == Prepend(old(tokens), LexFrom(source, old(i)))
    {
      while i < |source|
        invariant i <= |source| && tokenSoFar == ""
        invariant Prepend(tokens, LexFrom(source, i)) == Prepend(old(tokens), LexFrom(source, old(i)))
        decreases |source| - i
      {
        ghost var before, at := tokens, i;
        var err := ScanStep();
        if err.Some? {
          return Err(err.value);
        }
        PrependStep(source, at, before, tokens);
      }
      assert tokens + [] == tokens;
      return Ok(tokens);
    }
  }

  /** After a successful step the tokens so far plus the rest of the
      scan are what the scan from the step's start gives. */
  lemma PrependStep(s: string, i: nat, before: seq<Token>, after: seq<Token>)
    requires i < |s| && Step(s, i).Ok?
    requires after == before + OptionToSeq(Step(s, i).value.0)
    ensures Prepend(after, LexFrom(s, Step(s, i).value.1)) == Prepend(before, LexFrom(s, i))
  {
    var t := Step(s, i).value.0;
    var j := Step(s, i).value.1;
    if LexFrom(s, j).Ok? {
      var rest := LexFrom(s, j).value;
      assert LexFrom(s, i) == Ok(OptionToSeq(t) + rest);
      assert after + rest == before + (OptionToSeq(t) + rest);
    }
  }
}
