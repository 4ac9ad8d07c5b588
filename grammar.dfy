/**
 * The formula grammar as a recursive-descent specification over a token
 * sequence: what every parsing routine returns when it starts at token `i`,
 * namely the tree it builds and the index of the first token it did not
 * consume, or the message of the exception it throws.
 *
 * Precedence, loosest first: assignment; `||`; `&&`; `|`; `^^`; `&`;
 * `==` `!=`; `<` `<=` `>` `>=`; `<<` `>>`; `+` `-`; `*` `/` `%`; `**`
 * (right-associative); prefix `!` `-` `~`; primaries.  Levels 0 to 9 are the
 * ten left-associative binary levels, all built by `Level` and `Fold`.
 */
module Grammar {
  import opened Wrappers
  import opened Int32
  import opened Tokens
  import opened Expressions
  import Operators

  /** A successful parse: the tree, and where the parser's index stands. */
  datatype Parsed = Parsed(e: Expr, next: nat)

  /** `has(t)`: the token at `i` exists and has kind `t`. */
  predicate Has(toks: seq<Token>, i: nat, t: TokenType) {
    i < |toks| && toks[i].tokenType == t
  }

  /** The `what()` of the `std::out_of_range` that `tokens.at(n)` throws when
      `n` is not below the size. */
  function RangeError(n: nat, size: nat): string {
    "vector::_M_range_check: __n (which is " + NatToString(n)
    + ") >= this->size() (which is " + NatToString(size) + ")"
  }

  /** The index text the error messages quote: the start of token `j`. */
  function StartText(toks: seq<Token>, j: nat): string
    requires j < |toks|
  {
    IntToString(toks[j].startIndex)
  }

  /** The check-then-advance that guards every delimiter: when the token at
      `j` has kind `t` the parser steps past it; otherwise it first reads
      `tokens.at(j)` and then throws `message`, followed by the token's start
      index when `withIndex` holds. */
  function Expect(toks: seq<Token>, j: nat, t: TokenType, message: string, withIndex: bool): (r: Result<nat>)
    ensures r.Ok? <==> Has(toks, j, t)
    ensures r.Ok? ==> r.value == j + 1
    ensures r.Err? && j >= |toks| ==> r.error == RangeError(j, |toks|)
  {
    if Has(toks, j, t) then Ok(j + 1)
    else if j >= |toks| then Err(RangeError(j, |toks|))
    else if withIndex then Err(message + StartText(toks, j))
    else Err(message)
  }

  // ------------------------------------------------------------ operators

  /** A binary operator token: its precedence level and the node it builds. */
  datatype Infix = Infix(level: nat, op: BinOp)

  /** The binary operators of levels 0 to 9, by token kind. */
  function InfixOf(t: TokenType): (r: Option<Infix>)
    ensures r.Some? ==> r.value.level <= 9 && r.value.op != Exponentiation
  {
    match t
    case OR => Some(Infix(0, Or))
    case AND => Some(Infix(1, And))
    case BITOR => Some(Infix(2, BitOr))
    case BITXOR => Some(Infix(3, BitXor))
    case BITAND => Some(Infix(4, BitAnd))
    case EQUALS => Some(Infix(5, Equals))
    case NOTEQUALS => Some(Infix(5, NotEquals))
    case LESSTHAN => Some(Infix(6, LessThan))
    case LESSTHANEQUAL => Some(Infix(6, LessThanEqual))
    case GREATERTHAN => Some(Infix(6, GreaterThan))
    case GREATERTHANEQUAL => Some(Infix(6, GreaterThanEqual))
    case LEFTSHIFT => Some(Infix(7, LeftShift))
    case RIGHTSHIFT => Some(Infix(7, RightShift))
    case PLUS => Some(Infix(8, Add))
    case MINUS => Some(Infix(8, Subtract))
    case MULTIPLY => Some(Infix(9, Multiply))
    case DIVIDE => Some(Infix(9, Divide))
    case MODULO => Some(Infix(9, Modulo))
    case _ => None
  }

  /** The operator that continues the loop of level `n` at token `j`. */
  function OperatorAt(n: nat, toks: seq<Token>, j: nat): Option<BinOp> {
    if j < |toks| then
      match InfixOf(toks[j].tokenType)
      case Some(x) => if x.level == n then Some(x.op) else None
      case None => None
    else None
  }

  /** The prefix operators of level 11, by token kind. */
  function PrefixOf(t: TokenType): Option<UnOp> {
    match t
    case NOT => Some(Not)
    case MINUS => Some(Negation)
    case BITNOT => Some(BitNot)
    case _ => None
  }

  function PrefixAt(toks: seq<Token>, i: nat): Option<UnOp> {
    if i < |toks| then PrefixOf(toks[i].tokenType) else None
  }

  // ------------------------------------------------------------ routines

  /** `parse()`: no tokens give the empty string literal; otherwise a block
      that has to reach the last token. */
  function Parse(toks: seq<Token>, fp: FloatOps): Result<Expr> {
    if |toks| == 0 then Ok(Literal(Str("")))
    else
      var b :- Block(toks, 0, fp);
      if b.next < |toks| then
        Err("Syntax error around " + toks[b.next].text + " at index " + StartText(toks, b.next))
      else Ok(b.e)
  }

  /** `block()`: statements up to the end of the input or up to an END or
      ELSE that follows a statement and its separators. */
  function Block(toks: seq<Token>, i: nat, fp: FloatOps): (r: Result<Parsed>)
    requires i <= |toks|
    decreases |toks| - i, 35
    ensures r.Ok? ==> i <= r.value.next <= |toks| && r.value.e.Block?
  {
    Statements(toks, i, [], fp)
  }

  /** The loop of `block()` with the statements read so far. */
  function Statements(toks: seq<Token>, i: nat, acc: seq<Expr>, fp: FloatOps): (r: Result<Parsed>)
    requires i <= |toks|
    decreases |toks| - i, 34
    ensures r.Ok? ==> i <= r.value.next <= |toks| && r.value.e.Block?
  {
    if i == |toks| then Ok(Parsed(Expressions.Block(acc), i))
    else
      var s :- Assignment(toks, i, fp);
      var k := SkipSeparators(toks, s.next);
      if Has(toks, k, END) || Has(toks, k, ELSE) then Ok(Parsed(Expressions.Block(acc + [s.e]), k))
      else Statements(toks, k, acc + [s.e], fp)
  }

  /** Past the NEWLINE and SEMICOLON tokens from `j` on. */
  function SkipSeparators(toks: seq<Token>, j: nat): (k: nat)
    requires j <= |toks|
    ensures j <= k <= |toks|
    ensures !Has(toks, k, NEWLINE) && !Has(toks, k, SEMICOLON)
    decreases |toks| - j
  {
    if Has(toks, j, NEWLINE) || Has(toks, j, SEMICOLON) then SkipSeparators(toks, j + 1) else j
  }

  /** Past the NEWLINE tokens from `j` on. */
  function SkipNewlines(toks: seq<Token>, j: nat): (k: nat)
    requires j <= |toks|
    ensures j <= k <= |toks| && !Has(toks, k, NEWLINE)
    decreases |toks| - j
  {
    if Has(toks, j, NEWLINE) then SkipNewlines(toks, j + 1) else j
  }

  /** `assignment()`: level-0 operands joined by `=`, grouped to the left. */
  function Assignment(toks: seq<Token>, i: nat, fp: FloatOps): (r: Result<Parsed>)
    requires i <= |toks|
    decreases |toks| - i, 33
    ensures r.Ok? ==> i < r.value.next <= |toks|
  {
    var left :- Level(0, toks, i, fp);
    AssignFold(toks, left.e, left.next, fp)
  }

  /** The loop of `assignment()` with the tree built so far. */
  function AssignFold(toks: seq<Token>, left: Expr, j: nat, fp: FloatOps): (r: Result<Parsed>)
    requires j <= |toks|
    decreases |toks| - j, 0
    ensures r.Ok? ==> j <= r.value.next <= |toks|
  {
    if Has(toks, j, ASSIGNMENT) then
      var right :- Level(0, toks, j + 1, fp);
      AssignFold(toks, Expressions.Assignment(left, right.e), right.next, fp)
    else Ok(Parsed(left, j))
  }

  /** `level0()` to `level9()`: operands of the next level joined by the
      operators of level `n`, grouped to the left. */
  function Level(n: nat, toks: seq<Token>, i: nat, fp: FloatOps): (r: Result<Parsed>)
    requires n <= 9 && i <= |toks|
    decreases |toks| - i, 30 - 2 * n
    ensures r.Ok? ==> i < r.value.next <= |toks|
  {
    var left :- Operand(n, toks, i, fp);
    Fold(n, toks, left.e, left.next, fp)
  }

  /** An operand of level `n`: an expression of the next level. */
  function Operand(n: nat, toks: seq<Token>, i: nat, fp: FloatOps): (r: Result<Parsed>)
    requires n <= 9 && i <= |toks|
    decreases |toks| - i, 29 - 2 * n
    ensures r.Ok? ==> i < r.value.next <= |toks|
  {
    if n == 9 then Power(toks, i, fp) else Level(n + 1, toks, i, fp)
  }

  /** The loop of level `n` with the tree built so far. */
  function Fold(n: nat, toks: seq<Token>, left: Expr, j: nat, fp: FloatOps): (r: Result<Parsed>)
    requires n <= 9 && j <= |toks|
    decreases |toks| - j, 0
    ensures r.Ok? ==> j <= r.value.next <= |toks|
  {
    match OperatorAt(n, toks, j)
    case None => Ok(Parsed(left, j))
    case Some(op) =>
      var right :- Operand(n, toks, j + 1, fp);
      Fold(n, toks, Binary(op, left, right.e), right.next, fp)
  }

  /** `level10()`: a prefix expression, and after `**` a whole level-10
      expression as the right operand, so that `**` groups to the right. */
  function Power(toks: seq<Token>, i: nat, fp: FloatOps): (r: Result<Parsed>)
    requires i <= |toks|
    decreases |toks| - i, 5
    ensures r.Ok? ==> i < r.value.next <= |toks|
  {
    var left :- Prefix(toks, i, fp);
    if Has(toks, left.next, EXPONENTIATE) then
      var right :- Power(toks, left.next + 1, fp);
      Ok(Parsed(Binary(Exponentiation, left.e, right.e), right.next))
    else Ok(left)
  }

  /** `level11()`: any number of `!`, `-` and `~` in front of a primary. */
  function Prefix(toks: seq<Token>, i: nat, fp: FloatOps): (r: Result<Parsed>)
    requires i <= |toks|
    decreases |toks| - i, 4
    ensures r.Ok? ==> i < r.value.next <= |toks|
  {
    match PrefixAt(toks, i)
    case Some(u) =>
      var x :- Prefix(toks, i + 1, fp);
      Ok(Parsed(Unary(u, x.e), x.next))
    case None => Primary(toks, i, fp)
  }

  /** `level12()`: a parenthesised expression, a literal, a cell reference,
      a variable, a conversion, a statistic, an if or a for; anything else is
      a syntax error.  The final `advance()` steps past the last token. */
  function Primary(toks: seq<Token>, i: nat, fp: FloatOps): (r: Result<Parsed>)
    requires i <= |toks|
    decreases |toks| - i, 3
    ensures r.Ok? ==> i < r.value.next <= |toks|
  {
    if i == |toks| then Err(RangeError(i, |toks|))
    else
      var t := toks[i].tokenType;
      if t == LEFTPARENTHESIS then Parenthesised(toks, i, fp)
      else if t in {INTEGER, FLOAT, BOOLEAN, STRING, VARIABLE} then Single(toks, i, fp)
      else Keyword(toks, i, fp)
  }

  /** The rest of `level12()`: the tokens that open a cell reference, a
      conversion, a statistic, an if or a for. */
  function Keyword(toks: seq<Token>, i: nat, fp: FloatOps): (r: Result<Parsed>)
    requires i < |toks|
    decreases |toks| - i, 2
    ensures r.Ok? ==> i < r.value.next <= |toks|
  {
    var t := toks[i].tokenType;
    if t == LEFTBRACKET || t == HASHTAG then Reference(toks, i, fp)
    else if t == INTTOFLOAT then Conversion(toks, i, IntToFloat, fp)
    else if t == FLOATTOINT then Conversion(toks, i, FloatToInt, fp)
    else if t == MAX then Statistic(toks, i, Max, fp)
    else if t == MIN then Statistic(toks, i, Min, fp)
    else if t == SUM then Statistic(toks, i, Sum, fp)
    else if t == MEAN then Statistic(toks, i, Mean, fp)
    else if t == IF then If(toks, i, fp)
    else if t == FOR then For(toks, i, fp)
    else Err(UnexpectedToken(toks[i].text))
  }

  /** The message for a token no primary starts with. */
  function UnexpectedToken(text: string): string {
    "Syntax error on token: \"" + text + "\""
  }

  const ExpectedRightParenthesis := "Expected right parenthesis at index "
  const ExpectedLeftParenthesis := "Expected left parenthesis at index "
  const ExpectedRightBracket := "Expected right bracket at index "
  const ExpectedLeftBracket := "Expected left bracket after hashtag at index "
  const ExpectedComma := "Expected comma at index "
  const ExpectedNewlineInIf := "Expected newline in if statement"
  const ExpectedElse := "Expected ELSE after IF"
  const ExpectedEndOfIf := "Expected END after IF-ELSE block"
  const ExpectedIn := "Expected 'in' after 'for' variable"
  const ExpectedDotDot := "Expected .. at index "
  const ExpectedNewlineInFor := "Expected newline in for statement"
  const ExpectedEndOfFor := "Expected END after FOR block"

  /** `( e )`, starting at the left parenthesis at `i`.  Past the end of the
      tokens the error branch reads `tokens[i]` unchecked: undefined. */
  function Parenthesised(toks: seq<Token>, i: nat, fp: FloatOps): (r: Result<Parsed>)
    requires i < |toks|
    decreases |toks| - i, 1
    ensures r.Ok? ==> i < r.value.next <= |toks|
  {
    var inner :- Level(0, toks, i + 1, fp);
    if Has(toks, inner.next, RIGHTPARENTHESIS) then Ok(Parsed(inner.e, inner.next + 1))
    else if inner.next < |toks| then Err(ExpectedRightParenthesis + StartText(toks, inner.next))
    else Err(Operators.Undefined)
  }

  /** The primaries made of the one token at `i`: literals and variables.
      `std::stoi` and `std::stof` may throw. */
  function Single(toks: seq<Token>, i: nat, fp: FloatOps): (r: Result<Parsed>)
    requires i < |toks| && toks[i].tokenType in {INTEGER, FLOAT, BOOLEAN, STRING, VARIABLE}
    ensures r.Ok? ==> r.value.next == i + 1
  {
    var t := toks[i];
    if t.tokenType == INTEGER then
      var v :- Stoi(t.text);
      Ok(Parsed(Literal(Integer(v)), i + 1))
    else if t.tokenType == FLOAT then
      if fp.parse(t.text).Some? then Ok(Parsed(Literal(Float(fp.parse(t.text).value)), i + 1))
      else Err("stof")
    else if t.tokenType == BOOLEAN then Ok(Parsed(Literal(Boolean(t.text == "true")), i + 1))
    else if t.tokenType == STRING then Ok(Parsed(Literal(Str(t.text)), i + 1))
    else Ok(Parsed(Variable(t.text), i + 1))
  }

  /** `[row, col]` and `#[row, col]`, starting at the bracket or hashtag at `i`. */
  function Reference(toks: seq<Token>, i: nat, fp: FloatOps): (r: Result<Parsed>)
    requires i < |toks|
    decreases |toks| - i, 1
    ensures r.Ok? ==> i < r.value.next <= |toks|
  {
    if toks[i].tokenType == LEFTBRACKET then
      var p :- Pair(toks, i + 1, RIGHTBRACKET, ExpectedRightBracket, fp);
      Ok(Parsed(LValue(p.first, p.second), p.next))
    else
      var k :- Expect(toks, i + 1, LEFTBRACKET, ExpectedLeftBracket, true);
      var p :- Pair(toks, k, RIGHTBRACKET, ExpectedRightBracket, fp);
      Ok(Parsed(RValue(p.first, p.second), p.next))
  }

  /** A level-0 expression followed by the delimiter `t`, checked as
      `Expect` does; the index ends past the delimiter. */
  function Clause(toks: seq<Token>, i: nat, t: TokenType, message: string, withIndex: bool, fp: FloatOps): (r: Result<Parsed>)
    requires i <= |toks|
    decreases |toks| - i, 31
    ensures r.Ok? ==> i < r.value.next <= |toks|
  {
    var x :- Level(0, toks, i, fp);
    var k :- Expect(toks, x.next, t, message, withIndex);
    Ok(Parsed(x.e, k))
  }

  /** Two level-0 expressions and the delimiters around them. */
  datatype Operands = Operands(first: Expr, second: Expr, next: nat)

  /** `left , right` and then the token `close`, each delimiter checked. */
  function Pair(toks: seq<Token>, i: nat, close: TokenType, closeMessage: string, fp: FloatOps): (r: Result<Operands>)
    requires i <= |toks|
    decreases |toks| - i, 32
    ensures r.Ok? ==> i < r.value.next <= |toks|
  {
    var left :- Clause(toks, i, COMMA, ExpectedComma, true, fp);
    var right :- Clause(toks, left.next, close, closeMessage, true, fp);
    Ok(Operands(left.e, right.e, right.next))
  }

  /** `int(x)` and `float(x)`, starting at the keyword at `i`. */
  function Conversion(toks: seq<Token>, i: nat, u: UnOp, fp: FloatOps): (r: Result<Parsed>)
    requires i < |toks|
    decreases |toks| - i, 1
    ensures r.Ok? ==> i < r.value.next <= |toks|
  {
    var k :- Expect(toks, i + 1, LEFTPARENTHESIS, ExpectedLeftParenthesis, true);
    var x :- Clause(toks, k, RIGHTPARENTHESIS, ExpectedRightParenthesis, true, fp);
    Ok(Parsed(Unary(u, x.e), x.next))
  }

  /** `max(a, b)`, `min(a, b)`, `sum(a, b)` and `mean(a, b)`, starting at the
      function name at `i`. */
  function Statistic(toks: seq<Token>, i: nat, kind: StatKind, fp: FloatOps): (r: Result<Parsed>)
    requires i < |toks|
    decreases |toks| - i, 1
    ensures r.Ok? ==> i < r.value.next <= |toks|
  {
    var k :- Expect(toks, i + 1, LEFTPARENTHESIS, ExpectedLeftParenthesis, true);
    var p :- Pair(toks, k, RIGHTPARENTHESIS, ExpectedRightParenthesis, fp);
    Ok(Parsed(Stat(kind, p.first, p.second), p.next))
  }

  /** `if c NEWLINE block ELSE NEWLINE* block END`, starting at IF at `i`. */
  function If(toks: seq<Token>, i: nat, fp: FloatOps): (r: Result<Parsed>)
    requires i < |toks|
    decreases |toks| - i, 1
    ensures r.Ok? ==> i < r.value.next <= |toks|
  {
    var c :- Clause(toks, i + 1, NEWLINE, ExpectedNewlineInIf, false, fp);
    var t :- Block(toks, c.next, fp);
    if !Has(toks, t.next, ELSE) then Err(ExpectedElse)
    else Otherwise(toks, t.next, c.e, t.e, fp)
  }

  /** The rest of an if from its ELSE at `j`, with the condition and the
      first block already read. */
  function Otherwise(toks: seq<Token>, j: nat, condition: Expr, ifTrue: Expr, fp: FloatOps): (r: Result<Parsed>)
    requires j < |toks|
    decreases |toks| - j, 1
    ensures r.Ok? ==> j < r.value.next <= |toks|
  {
    var f :- Block(toks, SkipNewlines(toks, j + 1), fp);
    if !Has(toks, f.next, END) then Err(ExpectedEndOfIf)
    else Ok(Parsed(IfExpr(condition, ifTrue, f.e), f.next + 1))
  }

  /** `for v in a .. b NEWLINE block END`, starting at FOR at `i`. */
  function For(toks: seq<Token>, i: nat, fp: FloatOps): (r: Result<Parsed>)
    requires i < |toks|
    decreases |toks| - i, 1
    ensures r.Ok? ==> i < r.value.next <= |toks|
  {
    var v :- Clause(toks, i + 1, IN, ExpectedIn, false, fp);
    var a :- Clause(toks, v.next, DOTDOT, ExpectedDotDot, true, fp);
    var b :- Clause(toks, a.next, NEWLINE, ExpectedNewlineInFor, false, fp);
    var body :- Block(toks, b.next, fp);
    if !Has(toks, body.next, END) then Err(ExpectedEndOfFor)
    else Ok(Parsed(ForExpr(v.e, a.e, b.e, body.e), body.next + 1))
  }
}
