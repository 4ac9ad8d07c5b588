/**
 * What `serialize` prints, related to the token rendering the grammar laws
 * parse back: apart from its spaces, the text of a node is exactly the
 * texts of its rendering's tokens one after the other, a variable being
 * printed as `Variable:` and its name.
 */
module PrintLaws {
  import opened Int32
  import opened Tokens
  import opened Expressions
  import opened GrammarLaws

  /** The text a token sequence spells, each variable as `Serialize`
      prints it. */
  function Spell(toks: seq<Token>): string
    decreases |toks|
  {
    if toks == [] then ""
    else Shown(toks[0]) + Spell(toks[1..])
  }

  function Shown(t: Token): string {
    if t.tokenType == VARIABLE then "Variable:" + t.text else t.text
  }

  /** `s` with every space removed. */
  function Squeeze(s: string): string
    decreases |s|
  {
    if s == [] then ""
    else (if s[0] == ' ' then "" else [s[0]]) + Squeeze(s[1..])
  }

  /** No string literal and no variable name of `e` holds a space. */
  predicate SpaceFree(e: Expr) {
    match e
    case Literal(p) => p.Str? ==> ' ' !in p.s
    case Variable(n) => ' ' !in n
    case Binary(_, l, r) => SpaceFree(l) && SpaceFree(r)
    case Unary(_, x) => SpaceFree(x)
    case LValue(a, b) => SpaceFree(a) && SpaceFree(b)
    case RValue(a, b) => SpaceFree(a) && SpaceFree(b)
    case Stat(_, a, b) => SpaceFree(a) && SpaceFree(b)
    case _ => true
  }

  lemma {:induction false} SpellAppend(a: seq<Token>, b: seq<Token>)
    ensures Spell(a + b) == Spell(a) + Spell(b)
    decreases |a|
  {
    if a != [] {
      assert (a + b)[0] == a[0] && (a + b)[1..] == a[1..] + b;
      SpellAppend(a[1..], b);
      calc {
        Spell(a + b);
        Shown(a[0]) + Spell(a[1..] + b);
        Shown(a[0]) + (Spell(a[1..]) + Spell(b));
        (Shown(a[0]) + Spell(a[1..])) + Spell(b);
      }
    } else {
      assert a + b == b;
    }
  }

  lemma {:induction false} SqueezeAppend(a: string, b: string)
    ensures Squeeze(a + b) == Squeeze(a) + Squeeze(b)
    decreases |a|
  {
    if a != [] {
      assert (a + b)[0] == a[0] && (a + b)[1..] == a[1..] + b;
      SqueezeAppend(a[1..], b);
    } else {
      assert a + b == b;
    }
  }

  lemma {:induction false} SqueezeSpaceless(s: string)
    requires ' ' !in s
    ensures Squeeze(s) == s
    decreases |s|
  {
    if s != [] {
      assert ' ' !in s[1..];
      SqueezeSpaceless(s[1..]);
    }
  }

  /** A decimal numeral holds no space. */
  lemma NumeralSpaceless(n: nat)
    ensures ' ' !in IntToString(n)
  {
    var d := IntToString(n);
    assert d == NatToString(n);
    assert forall k :: 0 <= k < |d| ==> d[k] != ' ';
  }

  lemma SqueezeBlank()
    ensures Squeeze(" ") == ""
  {
    assert " "[1..] == "";
  }

  lemma SqueezeAfter(x: string, y: string)
    requires ' ' !in y
    ensures Squeeze(x + y) == Squeeze(x) + y
  {
    SqueezeAppend(x, y);
    SqueezeSpaceless(y);
  }

  lemma SqueezeBefore(x: string, y: string)
    requires ' ' !in x
    ensures Squeeze(x + y) == x + Squeeze(y)
  {
    SqueezeAppend(x, y);
    SqueezeSpaceless(x);
  }

  /** `x + " " + m` without spaces, for an operator symbol `m`. */
  lemma SqueezeGap(x: string, m: string)
    requires ' ' !in m
    ensures Squeeze(x + " " + m) == Squeeze(x) + m
  {
    SqueezeAppend(x + " ", m);
    SqueezeAppend(x, " ");
    SqueezeBlank();
    SqueezeSpaceless(m);
  }

  lemma SqueezeThen(x: string, y: string)
    ensures Squeeze(x + " " + y) == Squeeze(x) + Squeeze(y)
  {
    SqueezeAppend(x + " ", y);
    SqueezeAppend(x, " ");
    SqueezeBlank();
  }

  lemma SqueezeComma(x: string, y: string)
    ensures Squeeze(x + ", " + y) == Squeeze(x) + "," + Squeeze(y)
  {
    SqueezeAppend(x + ", ", y);
    SqueezeAppend(x, ", ");
    assert ", "[0] == ',' && ", "[1..] == " ";
    SqueezeBlank();
  }

  /** The printed operand text `(l m r)` without spaces. */
  lemma SqueezeInfix(l: string, m: string, r: string)
    requires ' ' !in m
    ensures Squeeze("(" + l + " " + m + " " + r + ")") == "(" + Squeeze(l) + m + Squeeze(r) + ")"
  {
    var a1 := "(" + l;
    var a3 := a1 + " " + m;
    var a5 := a3 + " " + r;
    SqueezeAfter(a5, ")");
    SqueezeThen(a3, r);
    SqueezeGap(a1, m);
    SqueezeBefore("(", l);
  }

  /** `open + a + ", " + b + close` without spaces. */
  lemma SqueezePair(open: string, a: string, b: string, close: string)
    requires ' ' !in open && ' ' !in close
    ensures Squeeze(open + a + ", " + b + close) == open + Squeeze(a) + "," + Squeeze(b) + close
  {
    var a1 := open + a;
    var a3 := a1 + ", " + b;
    SqueezeAfter(a3, close);
    SqueezeComma(a1, b);
    SqueezeBefore(open, a);
  }

  /** `open + x + close` without spaces. */
  lemma SqueezeAround(open: string, x: string, close: string)
    requires ' ' !in open && ' ' !in close
    ensures Squeeze(open + x + close) == open + Squeeze(x) + close
  {
    SqueezeAfter(open + x, close);
    SqueezeBefore(open, x);
  }

  // ------------------------------------------------- regrouping a text

  lemma Assoc(a: string, b: string, c: string)
    ensures a + (b + c) == (a + b) + c
  {
  }

  lemma Regroup3(p: string, a: string, b: string, c: string)
    ensures p + (a + b + c) == p + a + b + c
  {
    Assoc(p, a + b, c);
    Assoc(p, a, b);
  }

  lemma Regroup5(p: string, a: string, b: string, c: string, d: string, f: string)
    ensures p + (a + b + c + d + f) == p + a + b + c + d + f
  {
    Assoc(p, a + b + c + d, f);
    Assoc(p, a + b + c, d);
    Regroup3(p, a, b, c);
  }

  lemma Regroup6(p: string, a: string, b: string, c: string, d: string, f: string, g: string)
    ensures p + (a + b + c + d + f + g) == p + a + b + c + d + f + g
  {
    Assoc(p, a + b + c + d + f, g);
    Regroup5(p, a, b, c, d, f);
  }

  lemma CloseTwice(x: string)
    ensures x + ")" + ")" == x + "))"
  {
    Assoc(x, ")", ")");
    assert ")" + ")" == "))";
  }

  // ------------------------------------------------- spelling tokens

  lemma SpellOne(t: Token)
    ensures Spell([t]) == Shown(t)
  {
    assert [t][1..] == [];
  }

  lemma SpellSnoc(x: seq<Token>, t: Token)
    ensures Spell(x + [t]) == Spell(x) + Shown(t)
  {
    SpellAppend(x, [t]);
    SpellOne(t);
  }

  lemma SpellCons(t: Token, x: seq<Token>)
    ensures Spell([t] + x) == Shown(t) + Spell(x)
  {
    SpellAppend([t], x);
    SpellOne(t);
  }

  lemma SpellParen(s: seq<Token>)
    ensures Spell(Paren(s)) == "(" + Spell(s) + ")"
  {
    SpellSnoc([Open] + s, Close);
    SpellCons(Open, s);
  }

  lemma SpellInfix(l: seq<Token>, t: Token, r: seq<Token>)
    requires t.tokenType != VARIABLE
    ensures Spell(Paren(l + [t] + r)) == "(" + Spell(l) + t.text + Spell(r) + ")"
  {
    SpellParen(l + [t] + r);
    SpellAppend(l + [t], r);
    SpellSnoc(l, t);
    Regroup3("(", Spell(l), t.text, Spell(r));
  }

  lemma SpellCell(a: seq<Token>, b: seq<Token>)
    ensures Spell(Cell(a, b)) == "[" + Spell(a) + "," + Spell(b) + "]"
  {
    var c1 := [Tok("[", LEFTBRACKET)] + a;
    var c2 := c1 + [Comma];
    var c3 := c2 + b;
    SpellSnoc(c3, Tok("]", RIGHTBRACKET));
    SpellAppend(c2, b);
    SpellSnoc(c1, Comma);
    SpellCons(Tok("[", LEFTBRACKET), a);
  }

  lemma SpellCall(name: Token, a: seq<Token>, b: seq<Token>)
    requires name.tokenType != VARIABLE
    ensures Spell(Call(name, a, b)) == name.text + "(" + Spell(a) + "," + Spell(b) + ")"
  {
    var c0 := [name, Open];
    var c1 := c0 + a;
    var c2 := c1 + [Comma];
    var c3 := c2 + b;
    SpellSnoc(c3, Close);
    SpellAppend(c2, b);
    SpellSnoc(c1, Comma);
    SpellAppend(c0, a);
    assert c0 == [name] + [Open];
    SpellSnoc([name], Open);
    SpellOne(name);
  }

  // ------------------------------------------------- the shapes of a node

  /** `t(s)`, for `!` and `~`. */
  lemma PrefixSpell(t: Token, r: seq<Token>)
    requires t.tokenType != VARIABLE
    ensures Spell([t] + Paren(r)) == t.text + "(" + Spell(r) + ")"
  {
    SpellParen(r);
    SpellCons(t, Paren(r));
    Regroup3(t.text, "(", Spell(r), ")");
  }

  lemma PrefixShape(t: Token, open: string, s: string, r: seq<Token>)
    requires t.tokenType != VARIABLE && ' ' !in open && open == t.text + "(" && Squeeze(s) == Spell(r)
    ensures Squeeze(open + s + ")") == Spell([t] + Paren(r))
  {
    SqueezeAround(open, s, ")");
    PrefixSpell(t, r);
  }

  /** `(t(s))`, for negation and the conversions. */
  lemma WrapShape(t: Token, open: string, s: string, r: seq<Token>)
    requires t.tokenType != VARIABLE && ' ' !in open && Squeeze(s) == Spell(r)
    requires open == "(" + t.text + "("
    ensures Squeeze(open + s + "))") == Spell(Paren([t] + Paren(r)))
  {
    var w := Spell(r);
    SqueezeAround(open, s, "))");
    PrefixSpell(t, r);
    SpellParen([t] + Paren(r));
    Regroup3("(", t.text + "(", w, ")");
    Assoc("(", t.text, "(");
    CloseTwice(open + w);
  }

  lemma UnaryShape(u: UnOp, s: string, r: seq<Token>)
    requires Squeeze(s) == Spell(r)
    ensures Squeeze(SerializeUnary(u, s)) == Spell(if u in {Not, BitNot} then [UnaryTok(u)] + Paren(r) else Paren([UnaryTok(u)] + Paren(r)))
  {
    match u
    case Not => PrefixShape(Tok("!", NOT), "!(", s, r);
    case BitNot => PrefixShape(Tok("~", BITNOT), "~(", s, r);
    case Negation => WrapShape(Tok("-", MINUS), "(-(", s, r);
    case FloatToInt => WrapShape(Tok("int", FLOATTOINT), "(int(", s, r);
    case IntToFloat => WrapShape(Tok("float", INTTOFLOAT), "(float(", s, r);
  }

  /** `t(a, b)`, for `mean` and `sum`. */
  lemma CallShape(t: Token, open: string, sa: string, sb: string, a: seq<Token>, b: seq<Token>)
    requires t.tokenType != VARIABLE && ' ' !in open && open == t.text + "("
    requires Squeeze(sa) == Spell(a) && Squeeze(sb) == Spell(b)
    ensures Squeeze(open + sa + ", " + sb + ")") == Spell(Call(t, a, b))
  {
    SqueezePair(open, sa, sb, ")");
    SpellCall(t, a, b);
  }

  /** `(t(a, b))`, for `max` and `min`. */
  lemma ParenCallShape(t: Token, open: string, sa: string, sb: string, a: seq<Token>, b: seq<Token>)
    requires t.tokenType != VARIABLE && ' ' !in open && open == "(" + t.text + "("
    requires Squeeze(sa) == Spell(a) && Squeeze(sb) == Spell(b)
    ensures Squeeze(open + sa + ", " + sb + "))") == Spell(Paren(Call(t, a, b)))
  {
    var x, y := Spell(a), Spell(b);
    SqueezePair(open, sa, sb, "))");
    SpellCall(t, a, b);
    SpellParen(Call(t, a, b));
    Regroup6("(", t.text, "(", x, ",", y, ")");
    Assoc("(", t.text, "(");
    CloseTwice(open + x + "," + y);
  }

  lemma StatShape(k: StatKind, sa: string, sb: string, a: seq<Token>, b: seq<Token>)
    requires Squeeze(sa) == Spell(a) && Squeeze(sb) == Spell(b)
    ensures Squeeze(SerializeStat(k, sa, sb)) == Spell(if k == Max || k == Min then Paren(Call(StatTok(k), a, b)) else Call(StatTok(k), a, b))
  {
    match k
    case Max => ParenCallShape(Tok("max", MAX), "(max(", sa, sb, a, b);
    case Min => ParenCallShape(Tok("min", MIN), "(min(", sa, sb, a, b);
    case Mean => CallShape(Tok("mean", MEAN), "mean(", sa, sb, a, b);
    case Sum => CallShape(Tok("sum", SUM), "sum(", sa, sb, a, b);
  }

  /** `#[a, b]` */
  lemma HashShape(sa: string, sb: string, a: seq<Token>, b: seq<Token>)
    requires Squeeze(sa) == Spell(a) && Squeeze(sb) == Spell(b)
    ensures Squeeze("#[" + sa + ", " + sb + "]") == Spell([Tok("#", HASHTAG)] + Cell(a, b))
  {
    SqueezePair("#[", sa, sb, "]");
    SpellCons(Tok("#", HASHTAG), Cell(a, b));
    SpellCell(a, b);
    HashText(Spell(a), Spell(b));
  }

  lemma HashText(x: string, y: string)
    ensures "#" + ("[" + x + "," + y + "]") == "#[" + x + "," + y + "]"
  {
    Regroup5("#", "[", x, ",", y, "]");
    assert "#" + "[" == "#[";
  }

  // ------------------------------------------------- the whole print

  /** Without its spaces, what `serialize` prints for `e` is what the
      tokens of `e`'s rendering spell. */
  lemma {:induction false} SerializeSpellsRender(e: Expr, fp: FloatOps)
    requires Renderable(e) && SpaceFree(e)
    ensures Squeeze(Serialize(e, fp)) == Spell(Render(e))
    decreases e
  {
    match e
    case Literal(p) =>
      LiteralSpells(p, fp);
    case Variable(n) =>
      SqueezeSpaceless("Variable:" + n);
      SpellOne(Tok(n, VARIABLE));
    case Binary(op, l, r) =>
      SerializeSpellsRender(l, fp);
      SerializeSpellsRender(r, fp);
      BinarySpells(op, l, r, fp);
    case Unary(u, x) =>
      SerializeSpellsRender(x, fp);
      UnarySpells(u, x, fp);
    case LValue(a, b) =>
      SerializeSpellsRender(a, fp);
      SerializeSpellsRender(b, fp);
      ReferenceSpells(e, fp);
    case RValue(a, b) =>
      SerializeSpellsRender(a, fp);
      SerializeSpellsRender(b, fp);
      ReferenceSpells(e, fp);
    case Stat(k, a, b) =>
      SerializeSpellsRender(a, fp);
      SerializeSpellsRender(b, fp);
      StatSpells(k, a, b, fp);
  }

  lemma BinarySpells(op: BinOp, l: Expr, r: Expr, fp: FloatOps)
    requires Renderable(l) && Squeeze(Serialize(l, fp)) == Spell(Render(l))
    requires Renderable(r) && Squeeze(Serialize(r, fp)) == Spell(Render(r))
    ensures Squeeze(Serialize(Binary(op, l, r), fp)) == Spell(Render(Binary(op, l, r)))
  {
    SqueezeInfix(Serialize(l, fp), Symbol(op), Serialize(r, fp));
    SpellInfix(Render(l), OpTok(op), Render(r));
  }

  lemma UnarySpells(u: UnOp, x: Expr, fp: FloatOps)
    requires Renderable(x) && Squeeze(Serialize(x, fp)) == Spell(Render(x))
    ensures Squeeze(Serialize(Unary(u, x), fp)) == Spell(Render(Unary(u, x)))
  {
    UnaryShape(u, Serialize(x, fp), Render(x));
  }

  lemma ReferenceSpells(e: Expr, fp: FloatOps)
    requires e.LValue? || e.RValue?
    requires Renderable(e.row) && Squeeze(Serialize(e.row, fp)) == Spell(Render(e.row))
    requires Renderable(e.col) && Squeeze(Serialize(e.col, fp)) == Spell(Render(e.col))
    ensures Squeeze(Serialize(e, fp)) == Spell(Render(e))
  {
    if e.LValue? {
      SqueezePair("[", Serialize(e.row, fp), Serialize(e.col, fp), "]");
      SpellCell(Render(e.row), Render(e.col));
    } else {
      HashShape(Serialize(e.row, fp), Serialize(e.col, fp), Render(e.row), Render(e.col));
    }
  }

  lemma StatSpells(k: StatKind, a: Expr, b: Expr, fp: FloatOps)
    requires Renderable(a) && Squeeze(Serialize(a, fp)) == Spell(Render(a))
    requires Renderable(b) && Squeeze(Serialize(b, fp)) == Spell(Render(b))
    ensures Squeeze(Serialize(Stat(k, a, b), fp)) == Spell(Render(Stat(k, a, b)))
  {
    var sa, sb, ra, rb := Serialize(a, fp), Serialize(b, fp), Render(a), Render(b);
    assert Serialize(Stat(k, a, b), fp) == SerializeStat(k, sa, sb);
    assert Render(Stat(k, a, b)) == if k == Max || k == Min then Paren(Call(StatTok(k), ra, rb)) else Call(StatTok(k), ra, rb);
    StatShape(k, sa, sb, ra, rb);
  }

  lemma LiteralSpells(p: Prim, fp: FloatOps)
    requires Renderable(Literal(p)) && SpaceFree(Literal(p))
    ensures Squeeze(Serialize(Literal(p), fp)) == Spell(Render(Literal(p)))
  {
    var t := Render(Literal(p))[0];
    assert Render(Literal(p)) == [t];
    SpellOne(t);
    if p.Integer? {
      NumeralSpaceless(p.i);
      SqueezeSpaceless(IntToString(p.i));
    } else if p.Boolean? {
      SqueezeSpaceless(if p.b then "true" else "false");
    } else {
      SqueezeSpaceless(p.s);
    }
  }
}
