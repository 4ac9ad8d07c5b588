/**
 * What the grammar guarantees: a fully parenthesised rendering of an
 * expression as tokens (the token form of what `Serialize` prints) parses
 * back to the same expression; operators of one level group to the left,
 * `**` groups to the right, a tighter level binds first and prefix
 * operators bind tighter than `**`; and the error paths for an unclosed
 * parenthesis, a dangling operator and a stray END.
 */
module GrammarLaws {
  import opened Wrappers
  import opened Int32
  import opened Tokens
  import opened Expressions
  import opened Grammar
  import Operators

  // ------------------------------------------------------------ rendering

  /** A token with `text` and kind `t`; positions play no part in parsing. */
  function Tok(text: string, t: TokenType): Token {
    Token(text, t, 0, 0)
  }

  const Open := Tok("(", LEFTPARENTHESIS)
  const Close := Tok(")", RIGHTPARENTHESIS)
  const Comma := Tok(",", COMMA)

  /** The token kind of each binary operator. */
  function OpToken(op: BinOp): TokenType {
    match op
    case Add => PLUS case Subtract => MINUS case Multiply => MULTIPLY
    case Divide => DIVIDE case Modulo => MODULO case Exponentiation => EXPONENTIATE
    case And => AND case Or => OR
    case BitAnd => BITAND case BitOr => BITOR case BitXor => BITXOR
    case LeftShift => LEFTSHIFT case RightShift => RIGHTSHIFT
    case Equals => EQUALS case NotEquals => NOTEQUALS case LessThan => LESSTHAN
    case LessThanEqual => LESSTHANEQUAL case GreaterThan => GREATERTHAN
    case GreaterThanEqual => GREATERTHANEQUAL
  }

  /** The precedence level of each binary operator, `**` being level 10. */
  function LevelOf(op: BinOp): nat {
    match op
    case Or => 0 case And => 1 case BitOr => 2 case BitXor => 3 case BitAnd => 4
    case Equals => 5 case NotEquals => 5
    case LessThan => 6 case LessThanEqual => 6 case GreaterThan => 6 case GreaterThanEqual => 6
    case LeftShift => 7 case RightShift => 7
    case Add => 8 case Subtract => 8
    case Multiply => 9 case Divide => 9 case Modulo => 9
    case Exponentiation => 10
  }

  function OpTok(op: BinOp): Token {
    Tok(Symbol(op), OpToken(op))
  }

  lemma InfixOfOpToken(op: BinOp)
    requires op != Exponentiation
    ensures InfixOf(OpToken(op)) == Some(Infix(LevelOf(op), op))
  {
  }

  /** The expressions with a token rendering: everything but floats, cell
      address literals, negative integer literals (which the lexer reads as
      a negation) and the statement forms. */
  predicate Renderable(e: Expr) {
    match e
    case Literal(p) => (p.Integer? && p.i >= 0) || p.Boolean? || p.Str?
    case Variable(_) => true
    case Binary(_, l, r) => Renderable(l) && Renderable(r)
    case Unary(_, x) => Renderable(x)
    case LValue(a, b) => Renderable(a) && Renderable(b)
    case RValue(a, b) => Renderable(a) && Renderable(b)
    case Stat(_, a, b) => Renderable(a) && Renderable(b)
    case _ => false
  }

  /** `( s )` */
  function Paren(s: seq<Token>): seq<Token> {
    [Open] + s + [Close]
  }

  /** `name ( a , b )` */
  function Call(name: Token, a: seq<Token>, b: seq<Token>): seq<Token> {
    [name, Open] + a + [Comma] + b + [Close]
  }

  /** The tokens of the text `Serialize` prints for `e`, every operator
      application in its parentheses, with a variable written as its name. */
  function Render(e: Expr): (s: seq<Token>)
    requires Renderable(e)
    ensures |s| > 0
  {
    match e
    case Literal(p) =>
      if p.Integer? then [Tok(IntToString(p.i), INTEGER)]
      else if p.Boolean? then [Tok(if p.b then "true" else "false", BOOLEAN)]
      else [Tok(p.s, STRING)]
    case Variable(n) => [Tok(n, VARIABLE)]
    case Binary(op, l, r) => Paren(Render(l) + [OpTok(op)] + Render(r))
    case Unary(u, x) =>
      if u in {Not, BitNot} then [UnaryTok(u)] + Paren(Render(x))
      else Paren([UnaryTok(u)] + Paren(Render(x)))
    case LValue(a, b) => Cell(Render(a), Render(b))
    case RValue(a, b) => [Tok("#", HASHTAG)] + Cell(Render(a), Render(b))
    case Stat(k, a, b) =>
      if k in {Max, Min} then Paren(Call(StatTok(k), Render(a), Render(b)))
      else Call(StatTok(k), Render(a), Render(b))
  }

  /** The token that writes each unary operator: `-(x)` is written in
      parentheses, and so are the conversions. */
  function UnaryTok(u: UnOp): Token {
    match u
    case Negation => Tok("-", MINUS) case Not => Tok("!", NOT) case BitNot => Tok("~", BITNOT)
    case FloatToInt => Tok("int", FLOATTOINT) case IntToFloat => Tok("float", INTTOFLOAT)
  }

  /** The keyword token of each statistic; `max` and `min` stand in
      parentheses. */
  function StatTok(k: StatKind): Token {
    match k
    case Max => Tok("max", MAX) case Min => Tok("min", MIN)
    case Mean => Tok("mean", MEAN) case Sum => Tok("sum", SUM)
  }

  /** `[ a , b ]` */
  function Cell(a: seq<Token>, b: seq<Token>): seq<Token> {
    [Tok("[", LEFTBRACKET)] + a + [Comma] + b + [Tok("]", RIGHTBRACKET)]
  }

  /** The tokens `s` stand in `toks` from index `i` on, one after the other. */
  predicate Placed(toks: seq<Token>, i: nat, s: seq<Token>)
    decreases |s|
  {
    i + |s| <= |toks| && (|s| > 0 ==> toks[i] == s[0] && Placed(toks, i + 1, s[1..]))
  }

  lemma {:induction false} PlacedSplit(toks: seq<Token>, i: nat, a: seq<Token>, b: seq<Token>)
    requires Placed(toks, i, a + b)
    ensures Placed(toks, i, a) && Placed(toks, i + |a|, b)
    decreases |a|
  {
    if a == [] {
      assert a + b == b;
    } else {
      assert (a + b)[1..] == a[1..] + b;
      PlacedSplit(toks, i + 1, a[1..], b);
    }
  }

  /** The tokens from `i` on stand there. */
  lemma {:induction false} PlacedRest(toks: seq<Token>, i: nat)
    requires i <= |toks|
    ensures Placed(toks, i, toks[i..])
    decreases |toks| - i
  {
    if i < |toks| {
      assert toks[i..][1..] == toks[i + 1..];
      PlacedRest(toks, i + 1);
    }
  }

  lemma PlacedToken(toks: seq<Token>, i: nat, t: Token)
    requires Placed(toks, i, [t])
    ensures i < |toks| && toks[i] == t
  {
  }

  lemma PlacedCons(toks: seq<Token>, i: nat, t: Token, s: seq<Token>)
    requires Placed(toks, i, [t] + s)
    ensures toks[i] == t && Placed(toks, i + 1, s)
  {
    PlacedSplit(toks, i, [t], s);
    PlacedToken(toks, i, t);
  }

  lemma PlacedParen(toks: seq<Token>, i: nat, s: seq<Token>)
    requires Placed(toks, i, Paren(s))
    ensures toks[i] == Open && Placed(toks, i + 1, s) && toks[i + 1 + |s|] == Close
  {
    PlacedSplit(toks, i, [Open] + s, [Close]);
    PlacedCons(toks, i, Open, s);
    PlacedToken(toks, i + 1 + |s|, Close);
  }

  /** `a t b` placed at `i`. */
  lemma PlacedInfix(toks: seq<Token>, i: nat, a: seq<Token>, t: Token, b: seq<Token>)
    requires Placed(toks, i, a + [t] + b)
    ensures Placed(toks, i, a) && toks[i + |a|] == t && Placed(toks, i + |a| + 1, b)
  {
    PlacedSplit(toks, i, a + [t], b);
    PlacedSplit(toks, i, a, [t]);
    PlacedToken(toks, i + |a|, t);
  }

  // ------------------------------------------------------------ stopping

  /** The token at `k` ends every level from `n` on: it is no binary
      operator of level `n` or tighter (with `**` as level 10). */
  predicate Stops(n: nat, toks: seq<Token>, k: nat) {
    k <= |toks| &&
    (k == |toks| ||
     (toks[k].tokenType != EXPONENTIATE &&
      (InfixOf(toks[k].tokenType).None? || InfixOf(toks[k].tokenType).value.level < n)))
  }

  /** A closing delimiter and the end of the tokens end every level. */
  lemma ClosingStops(toks: seq<Token>, k: nat)
    requires k == |toks| || Has(toks, k, RIGHTPARENTHESIS) || Has(toks, k, RIGHTBRACKET) || Has(toks, k, COMMA)
    ensures Stops(0, toks, k)
  {
  }

  lemma StopsLooser(n: nat, m: nat, toks: seq<Token>, k: nat)
    requires n <= m && Stops(n, toks, k)
    ensures Stops(m, toks, k)
  {
  }

  /** A prefix expression followed by a token that ends level `n + 1` is
      also the whole operand of level `n`. */
  lemma {:induction false} OperandStops(n: nat, toks: seq<Token>, i: nat, e: Expr, k: nat, fp: FloatOps)
    requires n <= 9 && i <= |toks|
    requires Prefix(toks, i, fp) == Ok(Parsed(e, k)) && Stops(n + 1, toks, k)
    ensures Operand(n, toks, i, fp) == Ok(Parsed(e, k))
    decreases 9 - n, 0
  {
    if n == 9 {
      assert !Has(toks, k, EXPONENTIATE);
    } else {
      LevelStops(n + 1, toks, i, e, k, fp);
    }
  }

  /** A prefix expression followed by a token that ends level `n` is the
      whole expression of level `n`. */
  lemma {:induction false} LevelStops(n: nat, toks: seq<Token>, i: nat, e: Expr, k: nat, fp: FloatOps)
    requires n <= 9 && i <= |toks|
    requires Prefix(toks, i, fp) == Ok(Parsed(e, k)) && Stops(n, toks, k)
    ensures Level(n, toks, i, fp) == Ok(Parsed(e, k))
    decreases 9 - n, 1
  {
    StopsLooser(n, n + 1, toks, k);
    OperandStops(n, toks, i, e, k, fp);
    FoldStops(n, toks, e, k, fp);
  }

  /** The loop of level `n` ends at a token that ends level `n`. */
  lemma FoldStops(n: nat, toks: seq<Token>, left: Expr, k: nat, fp: FloatOps)
    requires n <= 9 && Stops(n, toks, k)
    ensures Fold(n, toks, left, k, fp) == Ok(Parsed(left, k))
  {
    assert OperatorAt(n, toks, k).None?;
  }

  /** What level `m` reads up to a token that ends every level is also
      what every looser level reads. */
  lemma {:induction false} LooserLevels(n: nat, m: nat, toks: seq<Token>, i: nat, e: Expr, k: nat, fp: FloatOps)
    requires n <= m <= 9 && i <= |toks|
    requires Level(m, toks, i, fp) == Ok(Parsed(e, k)) && Stops(n, toks, k)
    ensures Level(n, toks, i, fp) == Ok(Parsed(e, k))
    decreases m - n
  {
    if n < m {
      StopsLooser(n, n + 1, toks, k);
      LooserLevels(n + 1, m, toks, i, e, k, fp);
      OperandDeeper(n, toks, i, fp);
      FoldStops(n, toks, e, k, fp);
      LevelUnfold(n, toks, i, e, k, fp);
    }
  }

  /** One more round of the loop of level `m`: the level-`m` operator `op`
      at `j` and then an operand that ends at `k`. */
  lemma FoldStep(m: nat, toks: seq<Token>, left: Expr, j: nat, op: BinOp, right: Expr, k: nat, fp: FloatOps)
    requires m <= 9 && j <= |toks| && OperatorAt(m, toks, j) == Some(op)
    requires Operand(m, toks, j + 1, fp) == Ok(Parsed(right, k))
    ensures Fold(m, toks, left, j, fp) == Fold(m, toks, Binary(op, left, right), k, fp)
  {
  }

  /** An operator of level `m` ends every level tighter than `m`. */
  lemma OperatorStops(m: nat, toks: seq<Token>, j: nat)
    requires j <= |toks| && OperatorAt(m, toks, j).Some?
    ensures Stops(m + 1, toks, j)
  {
  }

  /** The loop of level `m` over `left op right`, where `right` ends the
      level. */
  lemma FoldOnce(m: nat, toks: seq<Token>, left: Expr, j: nat, op: BinOp, right: Expr, k: nat, fp: FloatOps)
    requires m <= 9 && j <= |toks| && OperatorAt(m, toks, j) == Some(op)
    requires Operand(m, toks, j + 1, fp) == Ok(Parsed(right, k)) && Stops(m, toks, k)
    ensures Fold(m, toks, left, j, fp) == Ok(Parsed(Binary(op, left, right), k))
  {
    FoldStep(m, toks, left, j, op, right, k, fp);
    FoldStops(m, toks, Binary(op, left, right), k, fp);
  }

  // ------------------------------------------------------------ binary operators

  /** `left op right`, `op` of level `m`, both operands prefix expressions:
      the level-`m` expression, when the token after `right` ends level `m`. */
  lemma InfixLevel(m: nat, op: BinOp, toks: seq<Token>, a: nat, left: Expr, j: nat, right: Expr, k: nat, fp: FloatOps)
    requires m <= 9 && a <= j <= |toks| && OperatorAt(m, toks, j) == Some(op)
    requires Prefix(toks, a, fp) == Ok(Parsed(left, j))
    requires Prefix(toks, j + 1, fp) == Ok(Parsed(right, k)) && Stops(m, toks, k)
    ensures Level(m, toks, a, fp) == Ok(Parsed(Binary(op, left, right), k))
  {
    OperandBefore(m, toks, a, left, j, fp);
    StopsLooser(m, m + 1, toks, k);
    OperandStops(m, toks, j + 1, right, k, fp);
    FoldOnce(m, toks, left, j, op, right, k, fp);
    LevelUnfold(m, toks, a, left, j, fp);
  }

  /** Level `m` reads one operand and then runs its loop. */
  lemma LevelUnfold(m: nat, toks: seq<Token>, a: nat, x: Expr, j: nat, fp: FloatOps)
    requires m <= 9 && a <= |toks| && Operand(m, toks, a, fp) == Ok(Parsed(x, j))
    ensures Level(m, toks, a, fp) == Fold(m, toks, x, j, fp)
  {
  }

  /** An operand of a level below 9 is an expression of the next level. */
  lemma OperandDeeper(n: nat, toks: seq<Token>, a: nat, fp: FloatOps)
    requires n < 9 && a <= |toks|
    ensures Operand(n, toks, a, fp) == Level(n + 1, toks, a, fp)
  {
  }

  /** A prefix expression that ends at an operator of level `m` is a whole
      operand of level `m`. */
  lemma OperandBefore(m: nat, toks: seq<Token>, i: nat, e: Expr, j: nat, fp: FloatOps)
    requires m <= 9 && i <= j <= |toks| && OperatorAt(m, toks, j).Some?
    requires Prefix(toks, i, fp) == Ok(Parsed(e, j))
    ensures Operand(m, toks, i, fp) == Ok(Parsed(e, j))
  {
    OperatorStops(m, toks, j);
    OperandStops(m, toks, i, e, j, fp);
  }

  /** A prefix expression that ends at a token ending every level is a
      whole operand of level `m`, and that token ends level `m`. */
  lemma OperandLast(m: nat, toks: seq<Token>, i: nat, e: Expr, k: nat, fp: FloatOps)
    requires m <= 9 && i <= |toks|
    requires Prefix(toks, i, fp) == Ok(Parsed(e, k)) && Stops(0, toks, k)
    ensures Operand(m, toks, i, fp) == Ok(Parsed(e, k)) && Stops(m, toks, k)
  {
    StopsLooser(0, m + 1, toks, k);
    StopsLooser(0, m, toks, k);
    OperandStops(m, toks, i, e, k, fp);
  }

  /** The same at every level from `n` up to `m`. */
  lemma InfixBody(n: nat, m: nat, op: BinOp, toks: seq<Token>, a: nat, left: Expr, j: nat, right: Expr, k: nat, fp: FloatOps)
    requires n <= m <= 9 && a <= j <= |toks| && OperatorAt(m, toks, j) == Some(op)
    requires Prefix(toks, a, fp) == Ok(Parsed(left, j))
    requires Prefix(toks, j + 1, fp) == Ok(Parsed(right, k)) && Stops(n, toks, k)
    ensures Level(n, toks, a, fp) == Ok(Parsed(Binary(op, left, right), k))
  {
    StopsLooser(n, m, toks, k);
    InfixLevel(m, op, toks, a, left, j, right, k, fp);
    LooserLevels(n, m, toks, a, Binary(op, left, right), k, fp);
  }

  /** `left ** right`, both operands prefix expressions, at level 10. */
  lemma PowerOnce(toks: seq<Token>, a: nat, left: Expr, j: nat, right: Expr, k: nat, fp: FloatOps)
    requires a <= j && Has(toks, j, EXPONENTIATE)
    requires Prefix(toks, a, fp) == Ok(Parsed(left, j))
    requires Prefix(toks, j + 1, fp) == Ok(Parsed(right, k)) && !Has(toks, k, EXPONENTIATE)
    ensures Grammar.Power(toks, a, fp) == Ok(Parsed(Binary(Exponentiation, left, right), k))
  {
    PowerEnd(toks, j + 1, right, k, fp);
    PowerStep(toks, a, left, j, right, k, fp);
  }
  lemma PowerStep(toks: seq<Token>, a: nat, x: Expr, j: nat, r: Expr, k: nat, fp: FloatOps)
    requires a <= j && Has(toks, j, EXPONENTIATE)
    requires Prefix(toks, a, fp) == Ok(Parsed(x, j))
    requires Grammar.Power(toks, j + 1, fp) == Ok(Parsed(r, k))
    ensures Grammar.Power(toks, a, fp) == Ok(Parsed(Binary(Exponentiation, x, r), k))
  {
  }
  lemma PowerEnd(toks: seq<Token>, a: nat, x: Expr, k: nat, fp: FloatOps)
    requires a <= |toks| && !Has(toks, k, EXPONENTIATE)
    requires Prefix(toks, a, fp) == Ok(Parsed(x, k))
    ensures Grammar.Power(toks, a, fp) == Ok(Parsed(x, k))
  {
  }


  /** A level-10 expression followed by a token that ends level `n` is the
      whole expression of every level from `n` on. */
  lemma PowerLevels(n: nat, toks: seq<Token>, a: nat, e: Expr, k: nat, fp: FloatOps)
    requires n <= 9 && a <= |toks|
    requires Grammar.Power(toks, a, fp) == Ok(Parsed(e, k)) && Stops(n, toks, k)
    ensures Level(n, toks, a, fp) == Ok(Parsed(e, k))
  {
    StopsLooser(n, 9, toks, k);
    FoldStops(9, toks, e, k, fp);
    LooserLevels(n, 9, toks, a, e, k, fp);
  }

  /** `left ** right` at every level from `n` on. */
  lemma PowerBody(n: nat, toks: seq<Token>, a: nat, left: Expr, j: nat, right: Expr, k: nat, fp: FloatOps)
    requires n <= 9 && a <= j && Has(toks, j, EXPONENTIATE)
    requires Prefix(toks, a, fp) == Ok(Parsed(left, j))
    requires Prefix(toks, j + 1, fp) == Ok(Parsed(right, k)) && Stops(n, toks, k)
    ensures Grammar.Power(toks, a, fp) == Ok(Parsed(Binary(Exponentiation, left, right), k))
    ensures Level(n, toks, a, fp) == Ok(Parsed(Binary(Exponentiation, left, right), k))
  {
    PowerOnce(toks, a, left, j, right, k, fp);
    PowerLevels(n, toks, a, Binary(Exponentiation, left, right), k, fp);
  }

  /** `left op right` with `op` of a level `m` tighter than `n` is a whole
      operand of level `n` when the token after `right` ends level `n + 1`. */
  lemma TighterOperand(n: nat, m: nat, op: BinOp, toks: seq<Token>, a: nat, left: Expr, j: nat, right: Expr, k: nat, fp: FloatOps)
    requires n < m <= 9 && a <= j <= |toks| && OperatorAt(m, toks, j) == Some(op)
    requires Prefix(toks, a, fp) == Ok(Parsed(left, j))
    requires Prefix(toks, j + 1, fp) == Ok(Parsed(right, k)) && Stops(n + 1, toks, k)
    ensures Operand(n, toks, a, fp) == Ok(Parsed(Binary(op, left, right), k))
  {
    InfixBody(n + 1, m, op, toks, a, left, j, right, k, fp);
    OperandDeeper(n, toks, a, fp);
  }

  /** `left ** right` is a whole operand of every level `n` when the token
      after `right` ends level `n + 1`. */
  lemma PowerOperand(n: nat, toks: seq<Token>, a: nat, left: Expr, j: nat, right: Expr, k: nat, fp: FloatOps)
    requires n <= 9 && a <= j && Has(toks, j, EXPONENTIATE)
    requires Prefix(toks, a, fp) == Ok(Parsed(left, j))
    requires Prefix(toks, j + 1, fp) == Ok(Parsed(right, k)) && Stops(n + 1, toks, k)
    ensures Operand(n, toks, a, fp) == Ok(Parsed(Binary(Exponentiation, left, right), k))
  {
    if n == 9 {
      PowerOnce(toks, a, left, j, right, k, fp);
    } else {
      PowerBody(n + 1, toks, a, left, j, right, k, fp);
      OperandDeeper(n, toks, a, fp);
    }
  }

  /** The loop of level `m` over `x op1 y op2 z`, the operands being
      whole operands of level `m`. */
  lemma FoldTwice(m: nat, toks: seq<Token>, x: Expr, j1: nat, op1: BinOp, y: Expr, j2: nat, op2: BinOp, z: Expr, k: nat, fp: FloatOps)
    requires m <= 9 && j1 <= |toks| && j2 <= |toks|
    requires OperatorAt(m, toks, j1) == Some(op1) && OperatorAt(m, toks, j2) == Some(op2)
    requires Operand(m, toks, j1 + 1, fp) == Ok(Parsed(y, j2))
    requires Operand(m, toks, j2 + 1, fp) == Ok(Parsed(z, k)) && Stops(m, toks, k)
    ensures Fold(m, toks, x, j1, fp) == Ok(Parsed(Binary(op2, Binary(op1, x, y), z), k))
  {
    FoldStep(m, toks, x, j1, op1, y, j2, fp);
    FoldOnce(m, toks, Binary(op1, x, y), j2, op2, z, k, fp);
  }

  /** `x op1 y op2 z` with both operators of one level groups to the left:
      `(x op1 y) op2 z`, as `a - b - c` is `(a - b) - c`. */
  lemma SameLevelGroupsLeft(m: nat, op1: BinOp, op2: BinOp, toks: seq<Token>, a: nat,
                            x: Expr, j1: nat, y: Expr, j2: nat, z: Expr, k: nat, fp: FloatOps)
    requires m <= 9 && a <= j1 < j2 <= |toks|
    requires OperatorAt(m, toks, j1) == Some(op1) && OperatorAt(m, toks, j2) == Some(op2)
    requires Prefix(toks, a, fp) == Ok(Parsed(x, j1))
    requires Prefix(toks, j1 + 1, fp) == Ok(Parsed(y, j2))
    requires Prefix(toks, j2 + 1, fp) == Ok(Parsed(z, k)) && Stops(0, toks, k)
    ensures Level(0, toks, a, fp) == Ok(Parsed(Binary(op2, Binary(op1, x, y), z), k))
  {
    var e := Binary(op2, Binary(op1, x, y), z);
    OperandBefore(m, toks, a, x, j1, fp);
    OperandBefore(m, toks, j1 + 1, y, j2, fp);
    OperandLast(m, toks, j2 + 1, z, k, fp);
    FoldTwice(m, toks, x, j1, op1, y, j2, op2, z, k, fp);
    LevelUnfold(m, toks, a, x, j1, fp);
    LooserLevels(0, m, toks, a, e, k, fp);
  }

  /** `x ** y ** z` groups to the right: `x ** (y ** z)`. */
  lemma PowerGroupsRight(toks: seq<Token>, a: nat, x: Expr, j1: nat, y: Expr, j2: nat, z: Expr, k: nat, fp: FloatOps)
    requires a <= j1 && Has(toks, j1, EXPONENTIATE) && j1 < j2 && Has(toks, j2, EXPONENTIATE)
    requires Prefix(toks, a, fp) == Ok(Parsed(x, j1))
    requires Prefix(toks, j1 + 1, fp) == Ok(Parsed(y, j2))
    requires Prefix(toks, j2 + 1, fp) == Ok(Parsed(z, k)) && Stops(0, toks, k)
    ensures Level(0, toks, a, fp)
         == Ok(Parsed(Binary(Exponentiation, x, Binary(Exponentiation, y, z)), k))
  {
    var e := Binary(Exponentiation, x, Binary(Exponentiation, y, z));
    PowerOnce(toks, j1 + 1, y, j2, z, k, fp);
    PowerStep(toks, a, x, j1, Binary(Exponentiation, y, z), k, fp);
    PowerLevels(0, toks, a, e, k, fp);
  }

  /** `x loose y tight z` with `tight` of a tighter level groups as
      `x loose (y tight z)`. */
  lemma TighterBindsRight(m1: nat, m2: nat, loose: BinOp, tight: BinOp, toks: seq<Token>, a: nat,
                          x: Expr, j1: nat, y: Expr, j2: nat, z: Expr, k: nat, fp: FloatOps)
    requires m1 < m2 <= 9 && a <= j1 < j2 <= |toks|
    requires OperatorAt(m1, toks, j1) == Some(loose) && OperatorAt(m2, toks, j2) == Some(tight)
    requires Prefix(toks, a, fp) == Ok(Parsed(x, j1))
    requires Prefix(toks, j1 + 1, fp) == Ok(Parsed(y, j2))
    requires Prefix(toks, j2 + 1, fp) == Ok(Parsed(z, k)) && Stops(0, toks, k)
    ensures Level(0, toks, a, fp) == Ok(Parsed(Binary(loose, x, Binary(tight, y, z)), k))
  {
    StopsLooser(0, m1 + 1, toks, k);
    TighterOperand(m1, m2, tight, toks, j1 + 1, y, j2, z, k, fp);
    LooseOver(m1, loose, toks, a, x, j1, Binary(tight, y, z), k, fp);
  }

  /** `x loose y ** z` groups as `x loose (y ** z)`. */
  lemma PowerBindsRight(m1: nat, loose: BinOp, toks: seq<Token>, a: nat,
                        x: Expr, j1: nat, y: Expr, j2: nat, z: Expr, k: nat, fp: FloatOps)
    requires m1 <= 9 && a <= j1 < j2 && OperatorAt(m1, toks, j1) == Some(loose) && Has(toks, j2, EXPONENTIATE)
    requires Prefix(toks, a, fp) == Ok(Parsed(x, j1))
    requires Prefix(toks, j1 + 1, fp) == Ok(Parsed(y, j2))
    requires Prefix(toks, j2 + 1, fp) == Ok(Parsed(z, k)) && Stops(0, toks, k)
    ensures Level(0, toks, a, fp) == Ok(Parsed(Binary(loose, x, Binary(Exponentiation, y, z)), k))
  {
    StopsLooser(0, m1 + 1, toks, k);
    PowerOperand(m1, toks, j1 + 1, y, j2, z, k, fp);
    LooseOver(m1, loose, toks, a, x, j1, Binary(Exponentiation, y, z), k, fp);
  }

  /** `x loose r`: a prefix expression, the level-`m` operator `loose` and
      a whole operand `r` of level `m`, up to a token that ends every level. */
  lemma LooseOver(m: nat, loose: BinOp, toks: seq<Token>, a: nat, x: Expr, j: nat, r: Expr, k: nat, fp: FloatOps)
    requires m <= 9 && a <= j <= |toks| && OperatorAt(m, toks, j) == Some(loose)
    requires Prefix(toks, a, fp) == Ok(Parsed(x, j))
    requires Operand(m, toks, j + 1, fp) == Ok(Parsed(r, k)) && Stops(0, toks, k)
    ensures Level(0, toks, a, fp) == Ok(Parsed(Binary(loose, x, r), k))
  {
    OperandBefore(m, toks, a, x, j, fp);
    StopsLooser(0, m, toks, k);
    FoldOnce(m, toks, x, j, loose, r, k, fp);
    LevelUnfold(m, toks, a, x, j, fp);
    LooserLevels(0, m, toks, a, Binary(loose, x, r), k, fp);
  }

  /** `l loose z`: a whole operand `l` of level `m` that ends at the
      level-`m` operator `loose`, and a prefix expression `z`. */
  lemma LooseAfter(m: nat, loose: BinOp, toks: seq<Token>, a: nat, l: Expr, j: nat, z: Expr, k: nat, fp: FloatOps)
    requires m <= 9 && a <= j <= |toks| && OperatorAt(m, toks, j) == Some(loose)
    requires Operand(m, toks, a, fp) == Ok(Parsed(l, j))
    requires Prefix(toks, j + 1, fp) == Ok(Parsed(z, k)) && Stops(0, toks, k)
    ensures Level(0, toks, a, fp) == Ok(Parsed(Binary(loose, l, z), k))
  {
    OperandLast(m, toks, j + 1, z, k, fp);
    FoldOnce(m, toks, l, j, loose, z, k, fp);
    LevelUnfold(m, toks, a, l, j, fp);
    LooserLevels(0, m, toks, a, Binary(loose, l, z), k, fp);
  }

  /** `x tight y loose z` with `tight` of a tighter level groups as
      `(x tight y) loose z`. */
  lemma TighterBindsLeft(m1: nat, m2: nat, loose: BinOp, tight: BinOp, toks: seq<Token>, a: nat,
                         x: Expr, j1: nat, y: Expr, j2: nat, z: Expr, k: nat, fp: FloatOps)
    requires m1 < m2 <= 9 && a <= j1 < j2 <= |toks|
    requires OperatorAt(m2, toks, j1) == Some(tight) && OperatorAt(m1, toks, j2) == Some(loose)
    requires Prefix(toks, a, fp) == Ok(Parsed(x, j1))
    requires Prefix(toks, j1 + 1, fp) == Ok(Parsed(y, j2))
    requires Prefix(toks, j2 + 1, fp) == Ok(Parsed(z, k)) && Stops(0, toks, k)
    ensures Level(0, toks, a, fp) == Ok(Parsed(Binary(loose, Binary(tight, x, y), z), k))
  {
    OperatorStops(m1, toks, j2);
    TighterOperand(m1, m2, tight, toks, a, x, j1, y, j2, fp);
    LooseAfter(m1, loose, toks, a, Binary(tight, x, y), j2, z, k, fp);
  }

  /** `x ** y loose z` groups as `(x ** y) loose z`. */
  lemma PowerBindsLeft(m1: nat, loose: BinOp, toks: seq<Token>, a: nat,
                       x: Expr, j1: nat, y: Expr, j2: nat, z: Expr, k: nat, fp: FloatOps)
    requires m1 <= 9 && a <= j1 < j2 <= |toks| && Has(toks, j1, EXPONENTIATE) && OperatorAt(m1, toks, j2) == Some(loose)
    requires Prefix(toks, a, fp) == Ok(Parsed(x, j1))
    requires Prefix(toks, j1 + 1, fp) == Ok(Parsed(y, j2))
    requires Prefix(toks, j2 + 1, fp) == Ok(Parsed(z, k)) && Stops(0, toks, k)
    ensures Level(0, toks, a, fp) == Ok(Parsed(Binary(loose, Binary(Exponentiation, x, y), z), k))
  {
    OperatorStops(m1, toks, j2);
    PowerOperand(m1, toks, a, x, j1, y, j2, fp);
    LooseAfter(m1, loose, toks, a, Binary(Exponentiation, x, y), j2, z, k, fp);
  }

  // ------------------------------------------------------------ prefix operators

  /** A prefix operator applies to the prefix expression after it, so that
      prefix operators nest, as in `---(1+3)`. */
  lemma PrefixNests(toks: seq<Token>, a: nat, x: Expr, k: nat, fp: FloatOps)
    requires a < |toks| && PrefixOf(toks[a].tokenType).Some?
    requires Prefix(toks, a + 1, fp) == Ok(Parsed(x, k))
    ensures Prefix(toks, a, fp) == Ok(Parsed(Unary(PrefixOf(toks[a].tokenType).value, x), k))
  {
  }

  /** A prefix operator binds tighter than `**`: `-x ** y` is `(-x) ** y`. */
  lemma PrefixBeforePower(toks: seq<Token>, a: nat, x: Expr, j: nat, y: Expr, k: nat, fp: FloatOps)
    requires a < |toks| && PrefixOf(toks[a].tokenType).Some?
    requires Prefix(toks, a + 1, fp) == Ok(Parsed(x, j)) && Has(toks, j, EXPONENTIATE)
    requires Prefix(toks, j + 1, fp) == Ok(Parsed(y, k)) && Stops(0, toks, k)
    ensures Level(0, toks, a, fp)
         == Ok(Parsed(Binary(Exponentiation, Unary(PrefixOf(toks[a].tokenType).value, x), y), k))
  {
    PrefixNests(toks, a, x, j, fp);
    PowerBody(0, toks, a, Unary(PrefixOf(toks[a].tokenType).value, x), j, y, k, fp);
  }

  // ------------------------------------------------------------ round trip

  // Positions are passed as variables tied together by `requires`, so that
  // each fact about a position is stated once, at that position.

  /** `( s )` at `i`: the parentheses around `s`, which runs from `a` to `k`. */
  lemma LayParen(toks: seq<Token>, i: nat, s: seq<Token>) returns (a: nat, k: nat)
    requires Placed(toks, i, Paren(s))
    ensures a == i + 1 && k == a + |s|
    ensures Has(toks, i, LEFTPARENTHESIS) && Placed(toks, a, s) && Has(toks, k, RIGHTPARENTHESIS)
  {
    a, k := i + 1, i + 1 + |s|;
    PlacedParen(toks, i, s);
  }

  /** `t s` at `i`. */
  lemma LayCons(toks: seq<Token>, i: nat, t: Token, s: seq<Token>) returns (a: nat)
    requires Placed(toks, i, [t] + s)
    ensures a == i + 1 && Has(toks, i, t.tokenType) && Placed(toks, a, s)
  {
    a := i + 1;
    PlacedCons(toks, i, t, s);
  }

  /** `a , b c` at `j`: `a` ends at the comma `k1`, `b` runs from `b0` to `k2`. */
  lemma LayFrame(toks: seq<Token>, j: nat, a: seq<Token>, b: seq<Token>, c: Token) returns (k1: nat, b0: nat, k2: nat)
    requires Placed(toks, j, a + [Comma] + b + [c])
    ensures k1 == j + |a| && b0 == k1 + 1 && k2 == b0 + |b|
    ensures Placed(toks, j, a) && Has(toks, k1, COMMA)
    ensures Placed(toks, b0, b) && Has(toks, k2, c.tokenType)
  {
    k1 := j + |a|;
    b0, k2 := k1 + 1, k1 + 1 + |b|;
    PlacedSplit(toks, j, a + [Comma] + b, [c]);
    PlacedInfix(toks, j, a, Comma, b);
    PlacedToken(toks, k2, c);
  }

  /** `[ a , b ]` at `j`. */
  lemma LayCell(toks: seq<Token>, j: nat, a: seq<Token>, b: seq<Token>) returns (a0: nat, k1: nat, b0: nat, k2: nat)
    requires Placed(toks, j, Cell(a, b))
    ensures a0 == j + 1 && k1 == a0 + |a| && b0 == k1 + 1 && k2 == b0 + |b|
    ensures Has(toks, j, LEFTBRACKET) && Placed(toks, a0, a) && Has(toks, k1, COMMA)
    ensures Placed(toks, b0, b) && Has(toks, k2, RIGHTBRACKET)
  {
    var close := Tok("]", RIGHTBRACKET);
    assert Cell(a, b) == [Tok("[", LEFTBRACKET)] + (a + [Comma] + b + [close]);
    a0 := LayCons(toks, j, Tok("[", LEFTBRACKET), a + [Comma] + b + [close]);
    k1, b0, k2 := LayFrame(toks, a0, a, b, close);
  }

  /** `name ( a , b )` at `j`. */
  lemma LayCall(toks: seq<Token>, j: nat, name: Token, a: seq<Token>, b: seq<Token>) returns (a0: nat, k1: nat, b0: nat, k2: nat)
    requires Placed(toks, j, Call(name, a, b))
    ensures a0 == j + 2 && k1 == a0 + |a| && b0 == k1 + 1 && k2 == b0 + |b|
    ensures Has(toks, j, name.tokenType) && Has(toks, j + 1, LEFTPARENTHESIS) && Placed(toks, a0, a)
    ensures Has(toks, k1, COMMA) && Placed(toks, b0, b) && Has(toks, k2, RIGHTPARENTHESIS)
  {
    assert Call(name, a, b) == [name] + ([Open] + (a + [Comma] + b + [Close]));
    var p := LayCons(toks, j, name, [Open] + (a + [Comma] + b + [Close]));
    a0 := LayCons(toks, p, Open, a + [Comma] + b + [Close]);
    k1, b0, k2 := LayFrame(toks, a0, a, b, Close);
  }

  /** A prefix expression that ends at a closing delimiter `t` is the
      clause of `t`; the index ends past the delimiter, at `m`. */
  lemma ClauseOf(toks: seq<Token>, i: nat, x: Expr, k: nat, m: nat, t: TokenType, message: string, withIndex: bool, fp: FloatOps)
    requires i <= |toks| && Prefix(toks, i, fp) == Ok(Parsed(x, k)) && m == k + 1
    requires t in {COMMA, RIGHTPARENTHESIS, RIGHTBRACKET} && Has(toks, k, t)
    ensures Clause(toks, i, t, message, withIndex, fp) == Ok(Parsed(x, m))
  {
    ClosingStops(toks, k);
    LevelStops(0, toks, i, x, k, fp);
  }

  /** The two prefix expressions of `x , y c` from `j`, `c` being the
      closing kind: the pair that `Pair` reads. */
  lemma PairOf(toks: seq<Token>, j: nat, x: Expr, k1: nat, b: nat, y: Expr, k2: nat, n: nat, close: TokenType, message: string, fp: FloatOps)
    requires b == k1 + 1 && n == k2 + 1 && close in {RIGHTPARENTHESIS, RIGHTBRACKET}
    requires j <= |toks| && Prefix(toks, j, fp) == Ok(Parsed(x, k1)) && Has(toks, k1, COMMA)
    requires Prefix(toks, b, fp) == Ok(Parsed(y, k2)) && Has(toks, k2, close)
    ensures Pair(toks, j, close, message, fp) == Ok(Operands(x, y, n))
  {
    ClauseOf(toks, j, x, k1, b, COMMA, ExpectedComma, true, fp);
    ClauseOf(toks, b, y, k2, n, close, message, true, fp);
    PairUnfold(toks, j, close, message, x, b, y, n, fp);
  }

  lemma PairUnfold(toks: seq<Token>, j: nat, close: TokenType, message: string, x: Expr, k1: nat, y: Expr, k2: nat, fp: FloatOps)
    requires j <= |toks| && k1 <= |toks|
    requires Clause(toks, j, COMMA, ExpectedComma, true, fp) == Ok(Parsed(x, k1))
    requires Clause(toks, k1, close, message, true, fp) == Ok(Parsed(y, k2))
    ensures Pair(toks, j, close, message, fp) == Ok(Operands(x, y, k2))
  {
  }

  /** `( x )` at `i`, `x` read by level 0 from `a`. */
  lemma ParenOf(toks: seq<Token>, i: nat, a: nat, x: Expr, k: nat, n: nat, fp: FloatOps)
    requires a == i + 1 && n == k + 1
    requires Has(toks, i, LEFTPARENTHESIS) && Level(0, toks, a, fp) == Ok(Parsed(x, k))
    requires Has(toks, k, RIGHTPARENTHESIS)
    ensures Prefix(toks, i, fp) == Ok(Parsed(x, n))
  {
    assert Prefix(toks, i, fp) == Primary(toks, i, fp);
  }

  /** `( x )` at `i`, `x` a prefix expression. */
  lemma ParenPrefix(toks: seq<Token>, i: nat, a: nat, x: Expr, k: nat, n: nat, fp: FloatOps)
    requires a == i + 1 && n == k + 1
    requires Has(toks, i, LEFTPARENTHESIS) && Prefix(toks, a, fp) == Ok(Parsed(x, k))
    requires Has(toks, k, RIGHTPARENTHESIS)
    ensures Prefix(toks, i, fp) == Ok(Parsed(x, n))
  {
    ClosingStops(toks, k);
    LevelStops(0, toks, a, x, k, fp);
    ParenOf(toks, i, a, x, k, n, fp);
  }

  /** The keyword tokens `level12()` hands to `Keyword`. */
  lemma PrefixKeyword(toks: seq<Token>, i: nat, fp: FloatOps)
    requires i < |toks| && toks[i].tokenType in {LEFTBRACKET, HASHTAG, INTTOFLOAT, FLOATTOINT, MAX, MIN, SUM, MEAN}
    ensures Prefix(toks, i, fp) == Keyword(toks, i, fp)
  {
    assert Prefix(toks, i, fp) == Primary(toks, i, fp);
  }

  /** `[ x , y ]` at `i`, from the pair after the bracket, at `a`. */
  lemma LValueOf(toks: seq<Token>, i: nat, a: nat, x: Expr, y: Expr, n: nat, fp: FloatOps)
    requires a == i + 1
    requires Has(toks, i, LEFTBRACKET) && Pair(toks, a, RIGHTBRACKET, ExpectedRightBracket, fp) == Ok(Operands(x, y, n))
    ensures Prefix(toks, i, fp) == Ok(Parsed(LValue(x, y), n))
  {
    PrefixKeyword(toks, i, fp);
  }

  /** `# [ x , y ]` at `i`, from the pair after the bracket, at `a`. */
  lemma RValueOf(toks: seq<Token>, i: nat, a: nat, x: Expr, y: Expr, n: nat, fp: FloatOps)
    requires a == i + 2
    requires Has(toks, i, HASHTAG) && Has(toks, i + 1, LEFTBRACKET)
    requires Pair(toks, a, RIGHTBRACKET, ExpectedRightBracket, fp) == Ok(Operands(x, y, n))
    ensures Prefix(toks, i, fp) == Ok(Parsed(RValue(x, y), n))
  {
    PrefixKeyword(toks, i, fp);
    assert Reference(toks, i, fp) == Ok(Parsed(RValue(x, y), n));
  }

  /** `int ( x )` and `float ( x )` at `i`, from the clause after the
      parenthesis, at `a`. */
  lemma ConversionOf(toks: seq<Token>, i: nat, a: nat, u: UnOp, x: Expr, n: nat, fp: FloatOps)
    requires a == i + 2
    requires u in {FloatToInt, IntToFloat} && Has(toks, i, UnaryTok(u).tokenType) && Has(toks, i + 1, LEFTPARENTHESIS)
    requires Clause(toks, a, RIGHTPARENTHESIS, ExpectedRightParenthesis, true, fp) == Ok(Parsed(x, n))
    ensures Prefix(toks, i, fp) == Ok(Parsed(Unary(u, x), n))
  {
    PrefixKeyword(toks, i, fp);
    assert Keyword(toks, i, fp) == Conversion(toks, i, u, fp);
  }

  /** `max ( x , y )` and the other statistics at `i`, from the pair after
      the parenthesis, at `a`. */
  lemma StatisticOf(toks: seq<Token>, i: nat, a: nat, kind: StatKind, x: Expr, y: Expr, n: nat, fp: FloatOps)
    requires a == i + 2
    requires Has(toks, i, StatTok(kind).tokenType) && Has(toks, i + 1, LEFTPARENTHESIS)
    requires Pair(toks, a, RIGHTPARENTHESIS, ExpectedRightParenthesis, fp) == Ok(Operands(x, y, n))
    ensures Prefix(toks, i, fp) == Ok(Parsed(Stat(kind, x, y), n))
  {
    PrefixKeyword(toks, i, fp);
    assert Keyword(toks, i, fp) == Statistic(toks, i, kind, fp);
  }

  // The layout of each rendering that ends at `n`: where its parts stand.

  lemma LayBinary(toks: seq<Token>, i: nat, e: Expr, n: nat) returns (a: nat, j: nat, b: nat, k: nat)
    requires e.Binary? && Renderable(e) && Placed(toks, i, Render(e)) && n == i + |Render(e)|
    ensures a == i + 1 && j == a + |Render(e.left)| && b == j + 1 && k == b + |Render(e.right)| && n == k + 1
    ensures Has(toks, i, LEFTPARENTHESIS) && Placed(toks, a, Render(e.left))
    ensures j < |toks| && toks[j] == OpTok(e.op)
    ensures Placed(toks, b, Render(e.right)) && Has(toks, k, RIGHTPARENTHESIS)
  {
    var rl, rr := Render(e.left), Render(e.right);
    a, j := i + 1, i + 1 + |rl|;
    b, k := j + 1, j + 1 + |rr|;
    var _, _ := LayParen(toks, i, rl + [OpTok(e.op)] + rr);
    PlacedInfix(toks, a, rl, OpTok(e.op), rr);
  }

  lemma LayPrefixed(toks: seq<Token>, i: nat, e: Expr, n: nat) returns (a: nat, k: nat)
    requires e.Unary? && e.uop in {Not, BitNot} && Renderable(e) && Placed(toks, i, Render(e)) && n == i + |Render(e)|
    ensures a == i + 2 && k == a + |Render(e.operand)| && n == k + 1
    ensures i < |toks| && PrefixOf(toks[i].tokenType) == Some(e.uop) && Has(toks, i + 1, LEFTPARENTHESIS)
    ensures Placed(toks, a, Render(e.operand)) && Has(toks, k, RIGHTPARENTHESIS)
  {
    var rx := Render(e.operand);
    var t := UnaryTok(e.uop);
    var p := LayCons(toks, i, t, Paren(rx));
    a, k := LayParen(toks, p, rx);
  }

  /** `( t ( s ) )` at `i`. */
  lemma LayWrap(toks: seq<Token>, i: nat, t: Token, s: seq<Token>) returns (a: nat, k: nat)
    requires Placed(toks, i, Paren([t] + Paren(s)))
    ensures a == i + 3 && k == a + |s|
    ensures Has(toks, i, LEFTPARENTHESIS) && Has(toks, i + 1, t.tokenType) && Has(toks, i + 2, LEFTPARENTHESIS)
    ensures Placed(toks, a, s) && Has(toks, k, RIGHTPARENTHESIS) && Has(toks, k + 1, RIGHTPARENTHESIS)
  {
    var p, _ := LayParen(toks, i, [t] + Paren(s));
    var q := LayCons(toks, p, t, Paren(s));
    a, k := LayParen(toks, q, s);
  }

  lemma LayWrapped(toks: seq<Token>, i: nat, e: Expr, n: nat) returns (a: nat, k: nat)
    requires e.Unary? && e.uop in {Negation, FloatToInt, IntToFloat} && Renderable(e) && Placed(toks, i, Render(e))
    requires n == i + |Render(e)|
    ensures a == i + 3 && k == a + |Render(e.operand)| && n == k + 2
    ensures Has(toks, i, LEFTPARENTHESIS) && i + 1 < |toks| && Has(toks, i + 2, LEFTPARENTHESIS)
    ensures e.uop == Negation ==> Has(toks, i + 1, MINUS)
    ensures e.uop != Negation ==> Has(toks, i + 1, UnaryTok(e.uop).tokenType)
    ensures Placed(toks, a, Render(e.operand)) && Has(toks, k, RIGHTPARENTHESIS) && Has(toks, k + 1, RIGHTPARENTHESIS)
  {
    a, k := LayWrap(toks, i, UnaryTok(e.uop), Render(e.operand));
  }

  lemma LayReference(toks: seq<Token>, i: nat, e: Expr, n: nat) returns (at: nat, a: nat, k1: nat, b: nat, k2: nat)
    requires (e.LValue? || e.RValue?) && Renderable(e) && Placed(toks, i, Render(e)) && n == i + |Render(e)|
    ensures at == (if e.LValue? then i else i + 1)
    ensures a == at + 1 && k1 == a + |Render(e.row)| && b == k1 + 1 && k2 == b + |Render(e.col)| && n == k2 + 1
    ensures (e.RValue? ==> Has(toks, i, HASHTAG)) && Has(toks, at, LEFTBRACKET)
    ensures Placed(toks, a, Render(e.row)) && Has(toks, k1, COMMA)
    ensures Placed(toks, b, Render(e.col)) && Has(toks, k2, RIGHTBRACKET)
  {
    var ra, rb := Render(e.row), Render(e.col);
    at := i;
    if e.RValue? {
      at := LayCons(toks, i, Tok("#", HASHTAG), Cell(ra, rb));
    }
    a, k1, b, k2 := LayCell(toks, at, ra, rb);
  }

  /** `( name ( a , b ) )` at `i`. */
  lemma LayOuterCall(toks: seq<Token>, i: nat, name: Token, a: seq<Token>, b: seq<Token>) returns (at: nat, a0: nat, k1: nat, b0: nat, k2: nat, m: nat)
    requires Placed(toks, i, Paren(Call(name, a, b)))
    ensures at == i + 1 && a0 == at + 2 && k1 == a0 + |a| && b0 == k1 + 1 && k2 == b0 + |b| && m == k2 + 1
    ensures m == i + |Paren(Call(name, a, b))| - 1
    ensures Has(toks, i, LEFTPARENTHESIS) && Has(toks, m, RIGHTPARENTHESIS)
    ensures Has(toks, at, name.tokenType) && Has(toks, at + 1, LEFTPARENTHESIS) && Placed(toks, a0, a)
    ensures Has(toks, k1, COMMA) && Placed(toks, b0, b) && Has(toks, k2, RIGHTPARENTHESIS)
  {
    var _, _ := LayParen(toks, i, Call(name, a, b));
    at := i + 1;
    a0, k1, b0, k2 := LayCall(toks, at, name, a, b);
    m := k2 + 1;
  }

  lemma LayStat(toks: seq<Token>, i: nat, e: Expr, n: nat) returns (at: nat, a: nat, k1: nat, b: nat, k2: nat, m: nat)
    requires e.Stat? && Renderable(e) && Placed(toks, i, Render(e)) && n == i + |Render(e)|
    ensures var outer := e.kind == Max || e.kind == Min;
            at == (if outer then i + 1 else i) && n == (if outer then m + 1 else m) &&
            (outer ==> Has(toks, i, LEFTPARENTHESIS) && Has(toks, m, RIGHTPARENTHESIS))
    ensures a == at + 2 && k1 == a + |Render(e.topLeft)| && b == k1 + 1 && k2 == b + |Render(e.bottomRight)| && m == k2 + 1
    ensures Has(toks, at, StatTok(e.kind).tokenType) && Has(toks, at + 1, LEFTPARENTHESIS)
    ensures Placed(toks, a, Render(e.topLeft)) && Has(toks, k1, COMMA)
    ensures Placed(toks, b, Render(e.bottomRight)) && Has(toks, k2, RIGHTPARENTHESIS)
  {
    var ra, rb := Render(e.topLeft), Render(e.bottomRight);
    var name := StatTok(e.kind);
    if e.kind == Max || e.kind == Min {
      at, a, k1, b, k2, m := LayOuterCall(toks, i, name, ra, rb);
      assert Has(toks, at + 1, LEFTPARENTHESIS);
    } else {
      at := i;
      a, k1, b, k2 := LayCall(toks, at, name, ra, rb);
      m := k2 + 1;
      assert Has(toks, at + 1, LEFTPARENTHESIS);
    }
  }

  // How each shape parses, given how its parts parse.

  /** `( l op r )` at `i`. */
  lemma BinaryOf(toks: seq<Token>, i: nat, op: BinOp, a: nat, l: Expr, j: nat, b: nat, r: Expr, k: nat, n: nat, fp: FloatOps)
    requires a == i + 1 && b == j + 1 && n == k + 1
    requires Has(toks, i, LEFTPARENTHESIS) && Prefix(toks, a, fp) == Ok(Parsed(l, j))
    requires j < |toks| && toks[j] == OpTok(op)
    requires Prefix(toks, b, fp) == Ok(Parsed(r, k)) && Has(toks, k, RIGHTPARENTHESIS)
    ensures Prefix(toks, i, fp) == Ok(Parsed(Binary(op, l, r), n))
  {
    ClosingStops(toks, k);
    if op == Exponentiation {
      PowerBody(0, toks, a, l, j, r, k, fp);
    } else {
      OperatorLevel(toks, op, a, l, j, r, k, fp);
    }
    ParenOf(toks, i, a, Binary(op, l, r), k, n, fp);
  }

  /** `l op r` for an operator of levels 0 to 9, ending at a token that
      ends every level. */
  lemma OperatorLevel(toks: seq<Token>, op: BinOp, a: nat, l: Expr, j: nat, r: Expr, k: nat, fp: FloatOps)
    requires op != Exponentiation && a <= j < |toks| && toks[j] == OpTok(op)
    requires Prefix(toks, a, fp) == Ok(Parsed(l, j))
    requires Prefix(toks, j + 1, fp) == Ok(Parsed(r, k)) && Stops(0, toks, k)
    ensures Level(0, toks, a, fp) == Ok(Parsed(Binary(op, l, r), k))
  {
    InfixOfOpToken(op);
    assert OperatorAt(LevelOf(op), toks, j) == Some(op);
    InfixBody(0, LevelOf(op), op, toks, a, l, j, r, k, fp);
  }

  /** `! ( x )` and `~ ( x )` at `i`, `x` from `a`. */
  lemma PrefixedOf(toks: seq<Token>, i: nat, u: UnOp, a: nat, x: Expr, k: nat, n: nat, fp: FloatOps)
    requires a == i + 2 && n == k + 1
    requires i < |toks| && PrefixOf(toks[i].tokenType) == Some(u) && Has(toks, i + 1, LEFTPARENTHESIS)
    requires Prefix(toks, a, fp) == Ok(Parsed(x, k)) && Has(toks, k, RIGHTPARENTHESIS)
    ensures Prefix(toks, i, fp) == Ok(Parsed(Unary(u, x), n))
  {
    ParenPrefix(toks, i + 1, a, x, k, n, fp);
    PrefixNests(toks, i, x, n, fp);
  }

  /** `( - ( x ) )` at `i`, `x` from `a`. */
  lemma NegationOf(toks: seq<Token>, i: nat, a: nat, x: Expr, k: nat, n: nat, fp: FloatOps)
    requires a == i + 3 && n == k + 2
    requires Has(toks, i, LEFTPARENTHESIS) && Has(toks, i + 1, MINUS) && Has(toks, i + 2, LEFTPARENTHESIS)
    requires Prefix(toks, a, fp) == Ok(Parsed(x, k)) && Has(toks, k, RIGHTPARENTHESIS) && Has(toks, k + 1, RIGHTPARENTHESIS)
    ensures Prefix(toks, i, fp) == Ok(Parsed(Unary(Negation, x), n))
  {
    var p, m := i + 1, k + 1;
    PrefixedOf(toks, p, Negation, a, x, k, m, fp);
    ParenPrefix(toks, i, p, Unary(Negation, x), m, n, fp);
  }

  /** `( int ( x ) )` and `( float ( x ) )` at `i`, `x` from `a`. */
  lemma ConvertedOf(toks: seq<Token>, i: nat, u: UnOp, a: nat, x: Expr, k: nat, n: nat, fp: FloatOps)
    requires a == i + 3 && n == k + 2
    requires u in {FloatToInt, IntToFloat} && Has(toks, i, LEFTPARENTHESIS)
    requires Has(toks, i + 1, UnaryTok(u).tokenType) && Has(toks, i + 2, LEFTPARENTHESIS)
    requires Prefix(toks, a, fp) == Ok(Parsed(x, k)) && Has(toks, k, RIGHTPARENTHESIS) && Has(toks, k + 1, RIGHTPARENTHESIS)
    ensures Prefix(toks, i, fp) == Ok(Parsed(Unary(u, x), n))
  {
    var p, m := i + 1, k + 1;
    ClauseOf(toks, a, x, k, m, RIGHTPARENTHESIS, ExpectedRightParenthesis, true, fp);
    ConversionOf(toks, p, a, u, x, m, fp);
    ParenPrefix(toks, i, p, Unary(u, x), m, n, fp);
  }

  /** The rendering of a renderable expression, wherever it stands in the
      tokens, is read back by `level11()` as that expression, and exactly
      its tokens are consumed: the next token is at `n`. */
  lemma {:induction false} RenderParses(toks: seq<Token>, i: nat, e: Expr, n: nat, fp: FloatOps)
    requires Renderable(e) && Placed(toks, i, Render(e)) && n == i + |Render(e)|
    ensures Prefix(toks, i, fp) == Ok(Parsed(e, n))
    decreases e, 1
  {
    match e
    case Literal(p) =>
      PlacedToken(toks, i, Render(e)[0]);
      if p.Integer? { StoiOfToString(p.i); }
    case Variable(_) => PlacedToken(toks, i, Render(e)[0]);
    case Binary(_, _, _) =>
      var a, j, b, k := LayBinary(toks, i, e, n);
      BinaryRenderParses(toks, i, e, a, j, b, k, n, fp);
    case Unary(u, _) =>
      if u in {Not, BitNot} {
        var a, k := LayPrefixed(toks, i, e, n);
        PrefixedRenderParses(toks, i, e, a, k, n, fp);
      } else {
        var a, k := LayWrapped(toks, i, e, n);
        WrappedRenderParses(toks, i, e, a, k, n, fp);
      }
    case LValue(_, _) =>
      var at, a, k1, b, k2 := LayReference(toks, i, e, n);
      ReferenceRenderParses(toks, i, e, at, a, k1, b, k2, n, fp);
    case RValue(_, _) =>
      var at, a, k1, b, k2 := LayReference(toks, i, e, n);
      ReferenceRenderParses(toks, i, e, at, a, k1, b, k2, n, fp);
    case Stat(_, _, _) =>
      var at, a, k1, b, k2, m := LayStat(toks, i, e, n);
      StatRenderParses(toks, i, e, at, a, k1, b, k2, m, n, fp);
  }

  lemma {:induction false} BinaryRenderParses(toks: seq<Token>, i: nat, e: Expr, a: nat, j: nat, b: nat, k: nat, n: nat, fp: FloatOps)
    requires e.Binary? && Renderable(e.left) && Renderable(e.right)
    requires a == i + 1 && j == a + |Render(e.left)| && b == j + 1 && k == b + |Render(e.right)| && n == k + 1
    requires Has(toks, i, LEFTPARENTHESIS) && Placed(toks, a, Render(e.left))
    requires j < |toks| && toks[j] == OpTok(e.op)
    requires Placed(toks, b, Render(e.right)) && Has(toks, k, RIGHTPARENTHESIS)
    ensures Prefix(toks, i, fp) == Ok(Parsed(e, n))
    decreases e, 0
  {
    RenderParses(toks, a, e.left, j, fp);
    RenderParses(toks, b, e.right, k, fp);
    BinaryOf(toks, i, e.op, a, e.left, j, b, e.right, k, n, fp);
  }

  lemma {:induction false} PrefixedRenderParses(toks: seq<Token>, i: nat, e: Expr, a: nat, k: nat, n: nat, fp: FloatOps)
    requires e.Unary? && Renderable(e.operand)
    requires a == i + 2 && k == a + |Render(e.operand)| && n == k + 1
    requires i < |toks| && PrefixOf(toks[i].tokenType) == Some(e.uop) && Has(toks, i + 1, LEFTPARENTHESIS)
    requires Placed(toks, a, Render(e.operand)) && Has(toks, k, RIGHTPARENTHESIS)
    ensures Prefix(toks, i, fp) == Ok(Parsed(e, n))
    decreases e, 0
  {
    RenderParses(toks, a, e.operand, k, fp);
    PrefixedOf(toks, i, e.uop, a, e.operand, k, n, fp);
  }

  lemma {:induction false} WrappedRenderParses(toks: seq<Token>, i: nat, e: Expr, a: nat, k: nat, n: nat, fp: FloatOps)
    requires e.Unary? && e.uop in {Negation, FloatToInt, IntToFloat} && Renderable(e.operand)
    requires a == i + 3 && k == a + |Render(e.operand)| && n == k + 2
    requires Has(toks, i, LEFTPARENTHESIS) && i + 1 < |toks| && Has(toks, i + 2, LEFTPARENTHESIS)
    requires e.uop == Negation ==> Has(toks, i + 1, MINUS)
    requires e.uop != Negation ==> Has(toks, i + 1, UnaryTok(e.uop).tokenType)
    requires Placed(toks, a, Render(e.operand)) && Has(toks, k, RIGHTPARENTHESIS) && Has(toks, k + 1, RIGHTPARENTHESIS)
    ensures Prefix(toks, i, fp) == Ok(Parsed(e, n))
    decreases e, 0
  {
    RenderParses(toks, a, e.operand, k, fp);
    if e.uop == Negation {
      NegationOf(toks, i, a, e.operand, k, n, fp);
    } else {
      ConvertedOf(toks, i, e.uop, a, e.operand, k, n, fp);
    }
  }

  lemma {:induction false} ReferenceRenderParses(toks: seq<Token>, i: nat, e: Expr, at: nat, a: nat, k1: nat, b: nat, k2: nat, n: nat, fp: FloatOps)
    requires (e.LValue? || e.RValue?) && Renderable(e.row) && Renderable(e.col)
    requires at == (if e.LValue? then i else i + 1)
    requires a == at + 1 && k1 == a + |Render(e.row)| && b == k1 + 1 && k2 == b + |Render(e.col)| && n == k2 + 1
    requires (e.RValue? ==> Has(toks, i, HASHTAG)) && Has(toks, at, LEFTBRACKET)
    requires Placed(toks, a, Render(e.row)) && Has(toks, k1, COMMA)
    requires Placed(toks, b, Render(e.col)) && Has(toks, k2, RIGHTBRACKET)
    ensures Prefix(toks, i, fp) == Ok(Parsed(e, n))
    decreases e, 0
  {
    RenderParses(toks, a, e.row, k1, fp);
    RenderParses(toks, b, e.col, k2, fp);
    PairOf(toks, a, e.row, k1, b, e.col, k2, n, RIGHTBRACKET, ExpectedRightBracket, fp);
    if e.LValue? {
      LValueOf(toks, i, a, e.row, e.col, n, fp);
    } else {
      RValueOf(toks, i, a, e.row, e.col, n, fp);
    }
  }

  lemma {:induction false} StatRenderParses(toks: seq<Token>, i: nat, e: Expr, at: nat, a: nat, k1: nat, b: nat, k2: nat, m: nat, n: nat, fp: FloatOps)
    requires e.Stat? && Renderable(e.topLeft) && Renderable(e.bottomRight)
    requires var outer := e.kind == Max || e.kind == Min;
             at == (if outer then i + 1 else i) && n == (if outer then m + 1 else m) &&
             (outer ==> Has(toks, i, LEFTPARENTHESIS) && Has(toks, m, RIGHTPARENTHESIS))
    requires a == at + 2 && k1 == a + |Render(e.topLeft)| && b == k1 + 1 && k2 == b + |Render(e.bottomRight)| && m == k2 + 1
    requires Has(toks, at, StatTok(e.kind).tokenType) && Has(toks, at + 1, LEFTPARENTHESIS)
    requires Placed(toks, a, Render(e.topLeft)) && Has(toks, k1, COMMA)
    requires Placed(toks, b, Render(e.bottomRight)) && Has(toks, k2, RIGHTPARENTHESIS)
    ensures Prefix(toks, i, fp) == Ok(Parsed(e, n))
    decreases e, 0
  {
    RenderParses(toks, a, e.topLeft, k1, fp);
    RenderParses(toks, b, e.bottomRight, k2, fp);
    PairOf(toks, a, e.topLeft, k1, b, e.bottomRight, k2, m, RIGHTPARENTHESIS, ExpectedRightParenthesis, fp);
    StatisticOf(toks, at, a, e.kind, e.topLeft, e.bottomRight, m, fp);
    if e.kind == Max || e.kind == Min {
      ParenPrefix(toks, i, at, e, m, n, fp);
    }
  }

  /** A formula made of the rendering alone parses to the block holding that
      one expression: serialising and parsing back loses nothing. */
  lemma ParseRender(e: Expr, fp: FloatOps)
    requires Renderable(e)
    ensures Parse(Render(e), fp) == Ok(Expressions.Block([e]))
  {
    var toks := Render(e);
    PlacedRest(toks, 0);
    assert toks[0..] == toks;
    RenderParses(toks, 0, e, |toks|, fp);
    ClosingStops(toks, |toks|);
    LevelStops(0, toks, 0, e, |toks|, fp);
    assert AssignFold(toks, e, |toks|, fp) == Ok(Parsed(e, |toks|));
    assert Grammar.Assignment(toks, 0, fp) == Ok(Parsed(e, |toks|));
    assert SkipSeparators(toks, |toks|) == |toks|;
    assert [] + [e] == [e];
    assert Statements(toks, 0, [], fp) == Statements(toks, |toks|, [e], fp);
    assert Grammar.Block(toks, 0, fp) == Ok(Parsed(Expressions.Block([e]), |toks|));
  }

  // ------------------------------------------------------------ error paths

  /** A rendering at the front of the tokens stands at index 0. */
  lemma PlacedFront(toks: seq<Token>, s: seq<Token>, rest: seq<Token>)
    requires toks == s + rest
    ensures Placed(toks, 0, s)
  {
    PlacedRest(toks, 0);
    assert toks[0..] == s + rest;
    PlacedSplit(toks, 0, s, rest);
  }

  /** A rendering at the front of the tokens is read back by `level11()`. */
  lemma RenderFront(toks: seq<Token>, e: Expr, rest: seq<Token>, fp: FloatOps)
    requires Renderable(e) && toks == Render(e) + rest
    ensures Prefix(toks, 0, fp) == Ok(Parsed(e, |Render(e)|))
  {
    PlacedFront(toks, Render(e), rest);
    RenderParses(toks, 0, e, |Render(e)|, fp);
  }

  /** A block that stops short of the last token fails `parse()`. */
  lemma ShortBlockParse(toks: seq<Token>, b: Expr, j: nat, fp: FloatOps)
    requires j < |toks| && Grammar.Block(toks, 0, fp) == Ok(Parsed(b, j))
    ensures Parse(toks, fp) == Err("Syntax error around " + toks[j].text + " at index " + StartText(toks, j))
  {
  }

  /** An error of `level10()` is the error of every level. */
  lemma {:induction false} PowerErrLevels(n: nat, toks: seq<Token>, i: nat, message: string, fp: FloatOps)
    requires n <= 9 && i <= |toks| && Grammar.Power(toks, i, fp) == Err(message)
    ensures Level(n, toks, i, fp) == Err(message)
    decreases 9 - n
  {
    if n < 9 {
      PowerErrLevels(n + 1, toks, i, message, fp);
      assert Operand(n, toks, i, fp) == Level(n + 1, toks, i, fp);
    }
  }

  /** An error of level `m` is the error of every looser level. */
  lemma {:induction false} ErrLooser(n: nat, m: nat, toks: seq<Token>, i: nat, message: string, fp: FloatOps)
    requires n <= m <= 9 && i <= |toks| && Level(m, toks, i, fp) == Err(message)
    ensures Level(n, toks, i, fp) == Err(message)
    decreases m - n
  {
    if n < m {
      ErrLooser(n + 1, m, toks, i, message, fp);
      assert Operand(n, toks, i, fp) == Level(n + 1, toks, i, fp);
    }
  }

  /** Past the last token there is no operand: `tokens.at` fails. */
  lemma OperandAtEnd(m: nat, toks: seq<Token>, fp: FloatOps)
    requires m <= 9
    ensures Operand(m, toks, |toks|, fp) == Err(RangeError(|toks|, |toks|))
  {
    var n := |toks|;
    assert Prefix(toks, n, fp) == Err(RangeError(n, n));
    assert Grammar.Power(toks, n, fp) == Err(RangeError(n, n));
    if m < 9 {
      PowerErrLevels(m + 1, toks, n, RangeError(n, n), fp);
    }
  }

  /** A statement whose `level0()` fails fails the whole formula. */
  lemma LevelErrParse(toks: seq<Token>, message: string, fp: FloatOps)
    requires |toks| > 0 && Level(0, toks, 0, fp) == Err(message)
    ensures Parse(toks, fp) == Err(message)
  {
    assert Grammar.Assignment(toks, 0, fp) == Err(message);
    assert Statements(toks, 0, [], fp) == Err(message);
  }

  /** `e op` with nothing after the operator: the parser reads the token past
      the end, so the formula fails with the range error of `tokens.at`. */
  lemma DanglingOperator(e: Expr, op: BinOp, fp: FloatOps)
    requires Renderable(e)
    ensures var n := |Render(e)| + 1;
            Parse(Render(e) + [OpTok(op)], fp) == Err(RangeError(n, n))
  {
    var toks := Render(e) + [OpTok(op)];
    var j := |Render(e)|;
    RenderFront(toks, e, [OpTok(op)], fp);
    DanglingAt(toks, e, j, op, fp);
    LevelErrParse(toks, RangeError(|toks|, |toks|), fp);
  }

  /** A prefix expression up to the operator `op`, the last token. */
  lemma DanglingAt(toks: seq<Token>, e: Expr, j: nat, op: BinOp, fp: FloatOps)
    requires j + 1 == |toks| && toks[j] == OpTok(op) && Prefix(toks, 0, fp) == Ok(Parsed(e, j))
    ensures Level(0, toks, 0, fp) == Err(RangeError(|toks|, |toks|))
  {
    var n := |toks|;
    var err := RangeError(n, n);
    if op == Exponentiation {
      assert Prefix(toks, n, fp) == Err(err);
      assert Grammar.Power(toks, n, fp) == Err(err);
      assert Grammar.Power(toks, 0, fp) == Err(err);
      PowerErrLevels(0, toks, 0, err, fp);
    } else {
      var m := LevelOf(op);
      InfixOfOpToken(op);
      assert OperatorAt(m, toks, j) == Some(op);
      DanglingInfix(m, toks, e, j, op, fp);
      ErrLooser(0, m, toks, 0, err, fp);
    }
  }

  lemma DanglingInfix(m: nat, toks: seq<Token>, e: Expr, j: nat, op: BinOp, fp: FloatOps)
    requires m <= 9 && j + 1 == |toks| && OperatorAt(m, toks, j) == Some(op) && Prefix(toks, 0, fp) == Ok(Parsed(e, j))
    ensures Level(m, toks, 0, fp) == Err(RangeError(|toks|, |toks|))
  {
    OperatorStops(m, toks, j);
    OperandStops(m, toks, 0, e, j, fp);
    OperandAtEnd(m, toks, fp);
    assert Fold(m, toks, e, j, fp) == Err(RangeError(|toks|, |toks|));
  }

  /** `e` followed by an END or ELSE: the block ends before that token, and
      `parse()` reports the token it did not reach. */
  lemma StrayEnd(e: Expr, t: Token, fp: FloatOps)
    requires Renderable(e) && t.tokenType in {END, ELSE}
    ensures Parse(Render(e) + [t], fp)
         == Err("Syntax error around " + t.text + " at index " + IntToString(t.startIndex))
  {
    var toks := Render(e) + [t];
    var j := |Render(e)|;
    RenderFront(toks, e, [t], fp);
    assert Stops(0, toks, j);
    LevelStops(0, toks, 0, e, j, fp);
    EndsBlock(toks, e, j, fp);
    ShortBlockParse(toks, Expressions.Block([e]), j, fp);
  }

  /** A statement followed by END or ELSE is the whole block. */
  lemma EndsBlock(toks: seq<Token>, e: Expr, j: nat, fp: FloatOps)
    requires j < |toks| && toks[j].tokenType in {END, ELSE} && Level(0, toks, 0, fp) == Ok(Parsed(e, j))
    ensures Grammar.Block(toks, 0, fp) == Ok(Parsed(Expressions.Block([e]), j))
  {
    assert AssignFold(toks, e, j, fp) == Ok(Parsed(e, j));
    assert Grammar.Assignment(toks, 0, fp) == Ok(Parsed(e, j));
    EndsStatements(toks, e, j, fp);
  }

  lemma EndsStatements(toks: seq<Token>, e: Expr, j: nat, fp: FloatOps)
    requires j < |toks| && toks[j].tokenType in {END, ELSE} && Grammar.Assignment(toks, 0, fp) == Ok(Parsed(e, j))
    ensures Statements(toks, 0, [], fp) == Ok(Parsed(Expressions.Block([e]), j))
  {
    assert SkipSeparators(toks, j) == j && (Has(toks, j, END) || Has(toks, j, ELSE));
    assert [] + [e] == [e];
  }

  /** `( e t` where `t` ends the expression but is no `)`: level 12 reports
      the missing right parenthesis at the index of `t`. */
  lemma UnclosedParenthesis(e: Expr, t: Token, fp: FloatOps)
    requires Renderable(e) && t.tokenType != RIGHTPARENTHESIS
    requires t.tokenType != EXPONENTIATE && InfixOf(t.tokenType).None?
    ensures Parse([Open] + Render(e) + [t], fp) == Err(ExpectedRightParenthesis + IntToString(t.startIndex))
  {
    var toks := [Open] + Render(e) + [t];
    var n := 1 + |Render(e)|;
    var err := ExpectedRightParenthesis + IntToString(t.startIndex);
    UnclosedAt(toks, e, n, fp);
    assert Parenthesised(toks, 0, fp) == Err(err);
    ParenErrParse(toks, err, fp);
  }

  /** `( e` and nothing after it: the parser compares the token past the end,
      which the source leaves undefined. */
  lemma UnclosedAtEnd(e: Expr, fp: FloatOps)
    requires Renderable(e)
    ensures Parse([Open] + Render(e), fp) == Err(Operators.Undefined)
  {
    var toks := [Open] + Render(e);
    var n := |toks|;
    assert toks == [Open] + Render(e) + [];
    UnclosedAt(toks, e, n, fp);
    assert Parenthesised(toks, 0, fp) == Err(Operators.Undefined);
    ParenErrParse(toks, Operators.Undefined, fp);
  }

  /** Inside `( e …` level 0 reads exactly `e`. */
  lemma UnclosedAt(toks: seq<Token>, e: Expr, n: nat, fp: FloatOps)
    requires Renderable(e) && n == 1 + |Render(e)| && n <= |toks| && toks[..n] == [Open] + Render(e)
    requires n == |toks| || (toks[n].tokenType != EXPONENTIATE && InfixOf(toks[n].tokenType).None?)
    ensures Has(toks, 0, LEFTPARENTHESIS) && Level(0, toks, 1, fp) == Ok(Parsed(e, n))
  {
    PlacedFront(toks, [Open] + Render(e), toks[n..]);
    PlacedCons(toks, 0, Open, Render(e));
    RenderParses(toks, 1, e, n, fp);
    LevelStops(0, toks, 1, e, n, fp);
  }

  /** A formula that opens with a parenthesis that fails fails as a whole. */
  lemma ParenErrParse(toks: seq<Token>, message: string, fp: FloatOps)
    requires Has(toks, 0, LEFTPARENTHESIS) && Parenthesised(toks, 0, fp) == Err(message)
    ensures Parse(toks, fp) == Err(message)
  {
    assert Prefix(toks, 0, fp) == Err(message);
    assert Grammar.Power(toks, 0, fp) == Err(message);
    PowerErrLevels(0, toks, 0, message, fp);
    LevelErrParse(toks, message, fp);
  }
}
