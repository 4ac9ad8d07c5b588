/**
 * The parser object: the token list and the index of the current token,
 * with one method per grammar routine.  Every method is proved to return
 * what the `Grammar` specification says the routine returns from the index
 * it started at, and to leave the index where the specification says the
 * routine stops; on an error only the message is specified, since the C++
 * parser is abandoned once it throws.
 */
module Parsing {
  import opened Wrappers
  import opened Int32
  import opened Tokens
  import opened Expressions
  import Grammar
  import Operators

  /** A method's result `r` and final index `at` agree with the outcome `s`
      of the specification. */
  predicate Agrees(r: Result<Expr>, at: nat, s: Result<Grammar.Parsed>) {
    r == Tree(s) && (s.Ok? ==> at == s.value.next)
  }

  /** The tree of a successful parse, or its error. */
  function Tree(s: Result<Grammar.Parsed>): Result<Expr> {
    if s.Ok? then Ok(s.value.e) else Err(s.error)
  }

  class Parser {
    const tokens: seq<Token>
    /** The float behaviour `std::stof` stands for. */
    const fp: FloatOps
    var i: nat

    constructor(tokens: seq<Token>, fp: FloatOps)
      ensures this.tokens == tokens && this.fp == fp && i == 0
    {
      this.tokens := tokens;
      this.fp := fp;
      i := 0;
    }

    predicate Has(t: TokenType)
      reads this
    {
      Grammar.Has(tokens, i, t)
    }

    method Advance()
      modifies this`i
      ensures i == old(i) + 1
    {
      i := i + 1;
    }

    /** The test `if (!has(t)) { ... throw ... }` in front of a delimiter
        and the `advance()` past it: the index after the delimiter, or the
        message thrown.  The message reads `tokens.at(i)` even when it does
        not show the index, so past the end it is the range error. */
    method Expect(t: TokenType, message: string, withIndex: bool) returns (r: Result<nat>)
      requires i <= |tokens|
      modifies this`i
      ensures r == Grammar.Expect(tokens, old(i), t, message, withIndex)
      ensures r.Ok? ==> i == r.value
    {
      if !Has(t) {
        if i == |tokens| {
          return Err(Grammar.RangeError(i, |tokens|));
        } else if withIndex {
          return Err(message + Grammar.StartText(tokens, i));
        }
        return Err(message);
      }
      Advance();
      return Ok(i);
    }

    /** `parse()` on a fresh parser. */
    method Parse() returns (r: Result<Expr>)
      requires i == 0
      modifies this`i
      ensures r == Grammar.Parse(tokens, fp)
    {
      if |tokens| == 0 {
        return Ok(Literal(Str("")));
      }
      var exp :- Block();
      if i < |tokens| {
        return Err("Syntax error around " + tokens[i].text + " at index " + Grammar.StartText(tokens, i));
      }
      return Ok(exp);
    }

    method Block() returns (r: Result<Expr>)
      requires i <= |tokens|
      modifies this`i
      decreases |tokens| - i, 35
      ensures Agrees(r, i, Grammar.Block(tokens, old(i), fp))
    {
      var statements: seq<Expr> := [];
      while i < |tokens|
        invariant old(i) <= i <= |tokens|
        invariant Grammar.Block(tokens, old(i), fp) == Grammar.Statements(tokens, i, statements, fp)
        decreases |tokens| - i
      {
        var statement :- Assignment();
        statements := statements + [statement];
        SkipSeparators();
        if Has(END) || Has(ELSE) {
          return Ok(Expressions.Block(statements));
        }
      }
      return Ok(Expressions.Block(statements));
    }

    /** The loop of `block()` that steps over NEWLINE and SEMICOLON tokens. */
    method SkipSeparators()
      requires i <= |tokens|
      modifies this`i
      ensures i == Grammar.SkipSeparators(tokens, old(i))
    {
      while Has(NEWLINE) || Has(SEMICOLON)
        invariant i <= |tokens| && Grammar.SkipSeparators(tokens, i) == Grammar.SkipSeparators(tokens, old(i))
        decreases |tokens| - i
      {
        Advance();
      }
    }

    /** The loop after ELSE that steps over NEWLINE tokens. */
    method SkipNewlines()
      requires i <= |tokens|
      modifies this`i
      ensures i == Grammar.SkipNewlines(tokens, old(i))
    {
      while Has(NEWLINE)
        invariant i <= |tokens| && Grammar.SkipNewlines(tokens, i) == Grammar.SkipNewlines(tokens, old(i))
        decreases |tokens| - i
      {
        Advance();
      }
    }

    method Assignment() returns (r: Result<Expr>)
      requires i <= |tokens|
      modifies this`i
      decreases |tokens| - i, 33
      ensures Agrees(r, i, Grammar.Assignment(tokens, old(i), fp))
    {
      var left :- Level(0);
      while Has(ASSIGNMENT)
        invariant old(i) < i <= |tokens|
        invariant Grammar.Assignment(tokens, old(i), fp) == Grammar.AssignFold(tokens, left, i, fp)
        decreases |tokens| - i
      {
        Advance();
        var right :- Level(0);
        left := Expressions.Assignment(left, right);
      }
      return Ok(left);
    }

    /** `level0()` to `level9()`, as `Level(0)` to `Level(9)`. */
    method Level(n: nat) returns (r: Result<Expr>)
      requires n <= 9 && i <= |tokens|
      modifies this`i
      decreases |tokens| - i, 30 - 2 * n
      ensures Agrees(r, i, Grammar.Level(n, tokens, old(i), fp))
    {
      var left :- Operand(n);
      while Grammar.OperatorAt(n, tokens, i).Some?
        invariant old(i) < i <= |tokens|
        invariant Grammar.Level(n, tokens, old(i), fp) == Grammar.Fold(n, tokens, left, i, fp)
        decreases |tokens| - i
      {
        var op := Grammar.OperatorAt(n, tokens, i).value;
        Advance();
        var right :- Operand(n);
        left := Binary(op, left, right);
      }
      return Ok(left);
    }

    /** An operand of level `n`: `level10()` under level 9, otherwise the
        next level. */
    method Operand(n: nat) returns (r: Result<Expr>)
      requires n <= 9 && i <= |tokens|
      modifies this`i
      decreases |tokens| - i, 29 - 2 * n
      ensures Agrees(r, i, Grammar.Operand(n, tokens, old(i), fp))
    {
      if n == 9 {
        r := Power();
      } else {
        r := Level(n + 1);
      }
    }

    /** `level10()`. */
    method Power() returns (r: Result<Expr>)
      requires i <= |tokens|
      modifies this`i
      decreases |tokens| - i, 4
      ensures Agrees(r, i, Grammar.Power(tokens, old(i), fp))
    {
      var left :- Prefix();
      if Has(EXPONENTIATE) {
        Advance();
        var right :- Power();
        left := Binary(Exponentiation, left, right);
      }
      return Ok(left);
    }

    /** `level11()`. */
    method Prefix() returns (r: Result<Expr>)
      requires i <= |tokens|
      modifies this`i
      decreases |tokens| - i, 3
      ensures Agrees(r, i, Grammar.Prefix(tokens, old(i), fp))
    {
      var u := Grammar.PrefixAt(tokens, i);
      if u.Some? {
        Advance();
        var x :- Prefix();
        return Ok(Unary(u.value, x));
      }
      r := Primary();
    }

    /** `level12()`. */
    method Primary() returns (r: Result<Expr>)
      requires i <= |tokens|
      modifies this`i
      decreases |tokens| - i, 2
      ensures Agrees(r, i, Grammar.Primary(tokens, old(i), fp))
    {
      if i == |tokens| {
        return Err(Grammar.RangeError(i, |tokens|));
      }
      var t := tokens[i].tokenType;
      if t == LEFTPARENTHESIS {
        r := Parenthesised();
      } else if t in {INTEGER, FLOAT, BOOLEAN, STRING, VARIABLE} {
        r := Single();
      } else if t == LEFTBRACKET || t == HASHTAG {
        r := Reference();
      } else if t == INTTOFLOAT {
        r := Conversion(IntToFloat);
      } else if t == FLOATTOINT {
        r := Conversion(FloatToInt);
      } else if t == MAX {
        r := Statistic(Max);
      } else if t == MIN {
        r := Statistic(Min);
      } else if t == SUM {
        r := Statistic(Sum);
      } else if t == MEAN {
        r := Statistic(Mean);
      } else if t == IF {
        r := If();
      } else if t == FOR {
        r := For();
      } else {
        r := Err(Grammar.UnexpectedToken(tokens[i].text));
      }
    }

    /** The primaries made of one token: literals and variables. */
    method Single() returns (r: Result<Expr>)
      requires i < |tokens|
      requires tokens[i].tokenType in {INTEGER, FLOAT, BOOLEAN, STRING, VARIABLE}
      modifies this`i
      ensures Agrees(r, i, Grammar.Single(tokens, old(i), fp))
    {
      var t := tokens[i];
      if t.tokenType == INTEGER {
        var v :- Stoi(t.text);
        r := Ok(Literal(Integer(v)));
      } else if t.tokenType == FLOAT {
        var f := fp.parse(t.text);
        if f.None? {
          return Err("stof");
        }
        r := Ok(Literal(Float(f.value)));
      } else if t.tokenType == BOOLEAN {
        r := Ok(Literal(Boolean(t.text == "true")));
      } else if t.tokenType == STRING {
        r := Ok(Literal(Str(t.text)));
      } else {
        r := Ok(Variable(t.text));
      }
      Advance();
    }

    /** `[row, col]` and `#[row, col]`, starting at the bracket or hashtag. */
    method Reference() returns (r: Result<Expr>)
      requires Has(LEFTBRACKET) || Has(HASHTAG)
      modifies this`i
      decreases |tokens| - i, 1
      ensures Agrees(r, i, Grammar.Reference(tokens, old(i), fp))
    {
      var lvalue := Has(LEFTBRACKET);
      Advance();
      if !lvalue {
        var _ :- Expect(LEFTBRACKET, Grammar.ExpectedLeftBracket, true);
      }
      var p :- Pair(RIGHTBRACKET, Grammar.ExpectedRightBracket);
      if lvalue {
        r := Ok(LValue(p.0, p.1));
      } else {
        r := Ok(RValue(p.0, p.1));
      }
    }

    /** `( e )`, starting at the left parenthesis.  Past the end of the
        tokens the error branch reads `tokens[i]` unchecked: undefined. */
    method Parenthesised() returns (r: Result<Expr>)
      requires Has(LEFTPARENTHESIS)
      modifies this`i
      decreases |tokens| - i, 1
      ensures Agrees(r, i, Grammar.Parenthesised(tokens, old(i), fp))
    {
      Advance();
      var inner :- Level(0);
      if !Has(RIGHTPARENTHESIS) {
        if i < |tokens| {
          return Err(Grammar.ExpectedRightParenthesis + Grammar.StartText(tokens, i));
        }
        return Err(Operators.Undefined);
      }
      Advance();
      return Ok(inner);
    }

    /** A level-0 expression and the delimiter `t` after it. */
    method Clause(t: TokenType, message: string, withIndex: bool) returns (r: Result<Expr>)
      requires i <= |tokens|
      modifies this`i
      decreases |tokens| - i, 31
      ensures Agrees(r, i, Grammar.Clause(tokens, old(i), t, message, withIndex, fp))
    {
      var x :- Level(0);
      var _ :- Expect(t, message, withIndex);
      return Ok(x);
    }

    /** `left , right` and the token `close`; the index ends past `close`. */
    method Pair(close: TokenType, closeMessage: string) returns (r: Result<(Expr, Expr)>)
      requires i <= |tokens|
      modifies this`i
      decreases |tokens| - i, 32
      ensures match Grammar.Pair(tokens, old(i), close, closeMessage, fp)
              case Ok(p) => r == Ok((p.first, p.second)) && i == p.next
              case Err(m) => r == Err(m)
    {
      var left :- Clause(COMMA, Grammar.ExpectedComma, true);
      var right :- Clause(close, closeMessage, true);
      return Ok((left, right));
    }

    /** `int(x)` and `float(x)`, starting at the keyword. */
    method Conversion(u: UnOp) returns (r: Result<Expr>)
      requires i < |tokens|
      modifies this`i
      decreases |tokens| - i, 1
      ensures Agrees(r, i, Grammar.Conversion(tokens, old(i), u, fp))
    {
      Advance();
      var _ :- Expect(LEFTPARENTHESIS, Grammar.ExpectedLeftParenthesis, true);
      var x :- Clause(RIGHTPARENTHESIS, Grammar.ExpectedRightParenthesis, true);
      return Ok(Unary(u, x));
    }

    /** `max`, `min`, `sum` and `mean`, starting at the function name. */
    method Statistic(kind: StatKind) returns (r: Result<Expr>)
      requires i < |tokens|
      modifies this`i
      decreases |tokens| - i, 1
      ensures Agrees(r, i, Grammar.Statistic(tokens, old(i), kind, fp))
    {
      Advance();
      var _ :- Expect(LEFTPARENTHESIS, Grammar.ExpectedLeftParenthesis, true);
      var p :- Pair(RIGHTPARENTHESIS, Grammar.ExpectedRightParenthesis);
      return Ok(Stat(kind, p.0, p.1));
    }

    /** `if`, starting at IF. */
    method If() returns (r: Result<Expr>)
      requires i < |tokens|
      modifies this`i
      decreases |tokens| - i, 1
      ensures Agrees(r, i, Grammar.If(tokens, old(i), fp))
    {
      Advance();
      var condition :- Clause(NEWLINE, Grammar.ExpectedNewlineInIf, false);
      var block1 :- Block();
      if !Has(ELSE) {
        return Err(Grammar.ExpectedElse);
      }
      r := Otherwise(condition, block1);
    }

    /** The rest of an if, starting at its ELSE. */
    method Otherwise(condition: Expr, block1: Expr) returns (r: Result<Expr>)
      requires Has(ELSE)
      modifies this`i
      decreases |tokens| - i, 1
      ensures Agrees(r, i, Grammar.Otherwise(tokens, old(i), condition, block1, fp))
    {
      ghost var spec := Grammar.Otherwise(tokens, i, condition, block1, fp);
      Advance();
      SkipNewlines();
      ghost var b := Grammar.Block(tokens, i, fp);
      assert spec == (if b.Err? then Err(b.error) else if !Grammar.Has(tokens, b.value.next, END) then Err(Grammar.ExpectedEndOfIf)
                      else Ok(Grammar.Parsed(IfExpr(condition, block1, b.value.e), b.value.next + 1)));
      var block2 :- Block();
      if !Has(END) {
        return Err(Grammar.ExpectedEndOfIf);
      }
      Advance();
      return Ok(IfExpr(condition, block1, block2));
    }

    /** `for`, starting at FOR. */
    method For() returns (r: Result<Expr>)
      requires i < |tokens|
      modifies this`i
      decreases |tokens| - i, 1
      ensures Agrees(r, i, Grammar.For(tokens, old(i), fp))
    {
      Advance();
      var variable :- Clause(IN, Grammar.ExpectedIn, false);
      var left :- Clause(DOTDOT, Grammar.ExpectedDotDot, true);
      var right :- Clause(NEWLINE, Grammar.ExpectedNewlineInFor, false);
      var loopBlock :- Block();
      if !Has(END) {
        return Err(Grammar.ExpectedEndOfFor);
      }
      Advance();
      return Ok(ForExpr(variable, left, right, loopBlock));
    }
  }
}
