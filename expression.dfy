/**
 * The formula language's values and syntax trees: the primitives a formula
 * evaluates to, the expression nodes the parser builds, and `Serialize`,
 * the text every node prints as.
 *
 * `float` is kept opaque: a Float primitive holds a 32-bit pattern, and every
 * float operation the evaluator needs is a field of a `FloatOps` value that
 * the caller supplies.
 */
module Expressions {
  import opened Wrappers
  import opened Int32

  /** The five primitive kinds: what `typeid` tells apart. */
  datatype Kind = IntegerKind | FloatKind | BooleanKind | StringKind | CellAddressKind

  /** A primitive value. */
  datatype Prim =
    | Integer(i: int32)
    | Float(f: bv32)
    | Boolean(b: bool)
    | Str(s: string)
    | CellAddress(row: int32, col: int32)

  function KindOf(p: Prim): Kind {
    match p
    case Integer(_) => IntegerKind
    case Float(_) => FloatKind
    case Boolean(_) => BooleanKind
    case Str(_) => StringKind
    case CellAddress(_, _) => CellAddressKind
  }

  /** What an evaluation hands back: a primitive, or `None` for the null
      pointer an empty block or an empty cell yields. */
  type Value = Option<Prim>

  /** The float behaviour the model leaves to its caller: conversions, the
      arithmetic and comparison operators, `std::pow`, `std::stof`,
      formatting with "{:.2f}", and the values statistics work with. */
  datatype FloatOps = FloatOps(
    ofInt: int32 -> bv32,            // static_cast<float>(int)
    toInt: bv32 -> Option<int32>,    // static_cast<int>(float); None when undefined
    add: (bv32, bv32) -> bv32,
    sub: (bv32, bv32) -> bv32,
    mul: (bv32, bv32) -> bv32,
    div: (bv32, bv32) -> bv32,
    pow: (bv32, bv32) -> bv32,
    neg: bv32 -> bv32,
    eq: (bv32, bv32) -> bool,
    lt: (bv32, bv32) -> bool,
    le: (bv32, bv32) -> bool,
    gt: (bv32, bv32) -> bool,
    ge: (bv32, bv32) -> bool,
    parse: string -> Option<bv32>,   // std::stof; None when it throws
    show: bv32 -> string,            // std::format("{:.2f}", f)
    toReal: bv32 -> real,            // the value a double accumulator receives
    fromReal: real -> bv32,          // a double narrowed to float
    negInf: bv32,
    posInf: bv32)

  /** The binary operator nodes. */
  datatype BinOp =
    | Add | Subtract | Multiply | Divide | Modulo | Exponentiation
    | And | Or
    | BitAnd | BitOr | BitXor | LeftShift | RightShift
    | Equals | NotEquals | LessThan | LessThanEqual | GreaterThan | GreaterThanEqual

  /** The unary operator nodes. */
  datatype UnOp = Negation | Not | BitNot | FloatToInt | IntToFloat

  /** The statistical functions over a rectangle of cells. */
  datatype StatKind = Max | Min | Mean | Sum

  /** An expression node. */
  datatype Expr =
    | Literal(p: Prim)
    | Binary(op: BinOp, left: Expr, right: Expr)
    | Unary(uop: UnOp, operand: Expr)
    | LValue(row: Expr, col: Expr)
    | RValue(row: Expr, col: Expr)
    | Stat(kind: StatKind, topLeft: Expr, bottomRight: Expr)
    | Block(statements: seq<Expr>)
    | Variable(name: string)
    | Assignment(target: Expr, source: Expr)
    | IfExpr(condition: Expr, ifTrue: Expr, ifFalse: Expr)
    | ForExpr(variable: Expr, from: Expr, to: Expr, body: Expr)

  // ------------------------------------------------------------ serialize

  /** The symbol each binary operator prints between its operands. */
  function Symbol(op: BinOp): string {
    match op
    case Add => "+" case Subtract => "-" case Multiply => "*" case Divide => "/"
    case Modulo => "%" case Exponentiation => "**"
    case And => "&&" case Or => "||"
    case BitAnd => "&" case BitOr => "|" case BitXor => "^^"
    case LeftShift => "<<" case RightShift => ">>"
    case Equals => "==" case NotEquals => "!=" case LessThan => "<"
    case LessThanEqual => "<=" case GreaterThan => ">" case GreaterThanEqual => ">="
  }

  function SerializePrim(p: Prim, fp: FloatOps): string {
    match p
    case Integer(v) => IntToString(v)
    case Float(f) => fp.show(f)
    case Boolean(b) => if b then "true" else "false"
    case Str(s) => s
    case CellAddress(r, c) => "[" + IntToString(r) + ", " + IntToString(c) + "]"
  }

  function SerializeUnary(u: UnOp, inner: string): string {
    match u
    case Negation => "(-(" + inner + "))"
    case Not => "!(" + inner + ")"
    case BitNot => "~(" + inner + ")"
    case FloatToInt => "(int(" + inner + "))"
    case IntToFloat => "(float(" + inner + "))"
  }

  function SerializeStat(k: StatKind, a: string, b: string): string {
    match k
    case Max => "(max(" + a + ", " + b + "))"
    case Min => "(min(" + a + ", " + b + "))"
    case Mean => "mean(" + a + ", " + b + ")"
    case Sum => "sum(" + a + ", " + b + ")"
  }

  /** The string `serialize()` returns for a node. */
  function Serialize(e: Expr, fp: FloatOps): string
    decreases e, 1
  {
    match e
    case Literal(p) => SerializePrim(p, fp)
    case Binary(op, l, r) => "(" + Serialize(l, fp) + " " + Symbol(op) + " " + Serialize(r, fp) + ")"
    case Unary(u, x) => SerializeUnary(u, Serialize(x, fp))
    case LValue(r, c) => "[" + Serialize(r, fp) + ", " + Serialize(c, fp) + "]"
    case RValue(r, c) => "#[" + Serialize(r, fp) + ", " + Serialize(c, fp) + "]"
    case Stat(k, a, b) => SerializeStat(k, Serialize(a, fp), Serialize(b, fp))
    case Block(stmts) => "Block: {" + SerializeStatements(e, 0, fp)
    case Variable(n) => "Variable:" + n
    case Assignment(l, r) => Serialize(l, fp) + " = " + Serialize(r, fp)
    case IfExpr(c, t, f) =>
      "IF <" + Serialize(c, fp) + ">: <" + Serialize(t, fp) + "> ELSE <" + Serialize(f, fp) + ">"
    case ForExpr(v, a, b, body) =>
      "FOR <" + Serialize(v, fp) + "> IN " + Serialize(a, fp) + ".." + Serialize(b, fp)
      + ": <" + Serialize(body, fp) + ">"
  }

  /** Each statement of the block `b` from the `k`-th on, followed by "; ". */
  function SerializeStatements(b: Expr, k: nat, fp: FloatOps): string
    requires b.Block? && k <= |b.statements|
    decreases b, 0, |b.statements| - k
  {
    if k == |b.statements| then ""
    else Serialize(b.statements[k], fp) + "; " + SerializeStatements(b, k + 1, fp)
  }
}
