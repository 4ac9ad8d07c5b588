/**
 * The primitive operations behind every operator node: what each
 * `evaluate` does once its operands have been evaluated.
 *
 * Each operation follows its chain of `typeid` tests in source order.
 * Testing the kind of a null operand throws `std::bad_typeid`, so a null
 * operand is an error only where the chain actually looks at it.  Where
 * the C++ behaviour is undefined (signed overflow, a shift by a negative
 * amount or by 32 or more, `INT_MIN / -1`, a float or `pow` result that
 * does not fit an int) the operation returns the error `Undefined`.
 */
module Operators {
  import opened Wrappers
  import opened Int32
  import opened Expressions

  const BadTypeid: string := "std::bad_typeid"
  const Undefined: string := "undefined behaviour"

  /** The operands of a chain whose every test looks at the left operand
      first and, only when its kind is one of `tested`, at the right one. */
  function Operands(l: Value, r: Value, tested: set<Kind>, unsupported: string): (res: Result<(Prim, Prim)>)
    ensures res.Ok? <==> l.Some? && r.Some?
    ensures res.Ok? ==> res.value == (l.value, r.value)
    ensures res.Err? && res.error != BadTypeid ==>
              l.Some? && res.error == unsupported && KindOf(l.value) !in tested
  {
    if l.None? then Err(BadTypeid)
    else if r.None? then Err(if KindOf(l.value) in tested then BadTypeid else unsupported)
    else Ok((l.value, r.value))
  }

  /** The operands of a chain that first compares the two kinds. */
  function SameKind(l: Value, r: Value, mismatch: string): (res: Result<(Prim, Prim)>)
    ensures res.Ok? <==> l.Some? && r.Some? && KindOf(l.value) == KindOf(r.value)
    ensures res.Ok? ==> res.value == (l.value, r.value)
  {
    if l.None? || r.None? then Err(BadTypeid)
    else if KindOf(l.value) != KindOf(r.value) then Err(mismatch)
    else Ok((l.value, r.value))
  }

  /** The single operand of a unary chain. */
  function Operand(v: Value): (res: Result<Prim>)
    ensures res.Ok? <==> v.Some?
  {
    if v.None? then Err(BadTypeid) else Ok(v.value)
  }

  /** An int result, or `Undefined` when the exact value overflows. */
  function IntResult(x: int): (res: Result<Prim>)
    ensures res.Ok? <==> InRange(x)
    ensures res.Ok? ==> res.value == Integer(x)
  {
    if InRange(x) then Ok(Integer(x)) else Err(Undefined)
  }

  // -------------------------------------------------------- arithmetic

  const AddUnsupported := "Unsupported types for Add operation"
  const SubtractUnsupported := "Unsupported types for Subtract operation"
  const MultiplyUnsupported := "Unsupported types for Multiply operation"
  const DivideUnsupported := "Unsupported types for Divide operation"
  const ModuloUnsupported := "Unsupported types for Modulo operation"
  const DivisionByZero := "Division by zero error"
  const ModuloByZero := "Modulo by zero error"

  function AddPrims(l: Value, r: Value, fp: FloatOps): Result<Prim> {
    var ops :- Operands(l, r, {IntegerKind, FloatKind, StringKind}, AddUnsupported);
    match ops
    case (Integer(a), Integer(b)) => IntResult(a + b)
    case (Float(x), Float(y)) => Ok(Float(fp.add(x, y)))
    case (Integer(a), Float(y)) => Ok(Float(fp.add(fp.ofInt(a), y)))
    case (Float(x), Integer(b)) => Ok(Float(fp.add(x, fp.ofInt(b))))
    case (Str(s), Str(t)) => Ok(Str(s + t))
    case _ => Err(AddUnsupported)
  }

  function SubtractPrims(l: Value, r: Value, fp: FloatOps): Result<Prim> {
    var ops :- Operands(l, r, {IntegerKind, FloatKind}, SubtractUnsupported);
    match ops
    case (Integer(a), Integer(b)) => IntResult(a - b)
    case (Float(x), Float(y)) => Ok(Float(fp.sub(x, y)))
    case (Float(x), Integer(b)) => Ok(Float(fp.sub(x, fp.ofInt(b))))
    case (Integer(a), Float(y)) => Ok(Float(fp.sub(fp.ofInt(a), y)))
    case _ => Err(SubtractUnsupported)
  }

  function MultiplyPrims(l: Value, r: Value, fp: FloatOps): Result<Prim> {
    var ops :- Operands(l, r, {IntegerKind, FloatKind}, MultiplyUnsupported);
    match ops
    case (Integer(a), Integer(b)) => IntResult(a * b)
    case (Float(x), Float(y)) => Ok(Float(fp.mul(x, y)))
    case (Float(x), Integer(b)) => Ok(Float(fp.mul(x, fp.ofInt(b))))
    case (Integer(a), Float(y)) => Ok(Float(fp.mul(fp.ofInt(a), y)))
    case _ => Err(MultiplyUnsupported)
  }

  /** Whether a float equals `0.0f`. */
  predicate IsFloatZero(fp: FloatOps, x: bv32) {
    fp.eq(x, fp.ofInt(0))
  }

  function DividePrims(l: Value, r: Value, fp: FloatOps): Result<Prim> {
    var ops :- Operands(l, r, {IntegerKind, FloatKind}, DivideUnsupported);
    match ops
    case (Integer(a), Integer(b)) =>
      if b == 0 then Err(DivisionByZero) else IntResult(TruncDiv(a, b))
    case (Float(x), Float(y)) =>
      if IsFloatZero(fp, y) then Err(DivisionByZero) else Ok(Float(fp.div(x, y)))
    case (Float(x), Integer(b)) =>
      if b == 0 then Err(DivisionByZero) else Ok(Float(fp.div(x, fp.ofInt(b))))
    case (Integer(a), Float(y)) =>
      if IsFloatZero(fp, y) then Err(DivisionByZero) else Ok(Float(fp.div(fp.ofInt(a), y)))
    case _ => Err(DivideUnsupported)
  }

  function ModuloPrims(l: Value, r: Value): Result<Prim> {
    var ops :- Operands(l, r, {IntegerKind}, ModuloUnsupported);
    match ops
    case (Integer(a), Integer(b)) =>
      if b == 0 then Err(ModuloByZero)
      else if a == MIN && b == -1 then Err(Undefined)
      else Ok(Integer(TruncRem(a, b)))
    case _ => Err(ModuloUnsupported)
  }

  function ExponentiationPrims(l: Value, r: Value, fp: FloatOps): Result<Prim> {
    var ops :- SameKind(l, r, "Type mismatch in Exponentiation operation");
    match ops
    case (Integer(a), Integer(b)) =>
      (match IntPow(a, b) case Some(v) => Ok(Integer(v)) case None => Err(Undefined))
    case (Float(x), Float(y)) => Ok(Float(fp.pow(x, y)))
    case _ => Err("Unsupported types for Exponentiation operation")
  }

  function NegationPrim(v: Value, fp: FloatOps): Result<Prim> {
    var p :- Operand(v);
    match p
    case Integer(a) => IntResult(-(a as int))
    case Float(x) => Ok(Float(fp.neg(x)))
    case _ => Err("Unsupported type for Negation operation")
  }

  // ----------------------------------------------------------- logical

  const AndUnsupported := "Unsupported type for And operation"
  const OrUnsupported := "Unsupported type for Or operation"

  /** `And`: a false left operand decides the result without the right
      operand's kind being looked at. */
  function AndPrims(l: Value, r: Value): Result<Prim> {
    var a :- Operand(l);
    if !a.Boolean? then Err(AndUnsupported)
    else if !a.b then Ok(Boolean(false))
    else
      var b :- Operand(r);
      if b.Boolean? then Ok(Boolean(a.b && b.b)) else Err(AndUnsupported)
  }

  /** `Or` as written: a true left operand decides the result, but a false
      one is combined with the right operand by `&&`. */
  function OrPrimsAsWritten(l: Value, r: Value): Result<Prim> {
    var a :- Operand(l);
    if !a.Boolean? then Err(OrUnsupported)
    else if a.b then Ok(Boolean(true))
    else
      var b :- Operand(r);
      if b.Boolean? then Ok(Boolean(Conjunction(a.b, b.b))) else Err(OrUnsupported)
  }

  function Conjunction(x: bool, y: bool): bool {
    x && y
  }

  /** `Or` as intended: the same dispatch, combining by `||`. */
  function OrPrims(l: Value, r: Value): Result<Prim> {
    var a :- Operand(l);
    if !a.Boolean? then Err(OrUnsupported)
    else if a.b then Ok(Boolean(true))
    else
      var b :- Operand(r);
      if b.Boolean? then Ok(Boolean(a.b || b.b)) else Err(OrUnsupported)
  }

  function NotPrim(v: Value): Result<Prim> {
    var p :- Operand(v);
    if p.Boolean? then Ok(Boolean(!p.b)) else Err("Unsupported types for Not operation")
  }

  // ----------------------------------------------------------- bitwise

  function IntPair(l: Value, r: Value, unsupported: string): Result<(int32, int32)> {
    var ops :- Operands(l, r, {IntegerKind}, unsupported);
    if ops.0.Integer? && ops.1.Integer? then Ok((ops.0.i, ops.1.i)) else Err(unsupported)
  }

  function BitAndPrims(l: Value, r: Value): Result<Prim> {
    var (a, b) :- IntPair(l, r, "Unsupported types for BitAnd operation");
    Ok(Integer(Int32.BitAnd(a, b)))
  }

  function BitOrPrims(l: Value, r: Value): Result<Prim> {
    var (a, b) :- IntPair(l, r, "Unsupported types for BitOr operation");
    Ok(Integer(Int32.BitOr(a, b)))
  }

  function BitXorPrims(l: Value, r: Value): Result<Prim> {
    var (a, b) :- IntPair(l, r, "Unsupported types for BitXor operation");
    Ok(Integer(Int32.BitXor(a, b)))
  }

  function BitNotPrim(v: Value): Result<Prim> {
    var p :- Operand(v);
    if p.Integer? then Ok(Integer(Int32.BitNot(p.i))) else Err("Unsupported types for BitNot operation")
  }

  function LeftShiftPrims(l: Value, r: Value): Result<Prim> {
    var (a, s) :- IntPair(l, r, "Unsupported types for LeftShift operation");
    if 0 <= s < 32 then Ok(Integer(Int32.LeftShift(a, s))) else Err(Undefined)
  }

  function RightShiftPrims(l: Value, r: Value): Result<Prim> {
    var (a, s) :- IntPair(l, r, "Unsupported types for RightShift operation");
    if 0 <= s < 32 then Ok(Integer(Int32.RightShift(a, s))) else Err(Undefined)
  }

  // -------------------------------------------------------- relational

  function EqualsPrims(l: Value, r: Value, fp: FloatOps): Result<Prim> {
    var ops :- SameKind(l, r, "Type mismatch in Equals operation");
    match ops
    case (Integer(a), Integer(b)) => Ok(Boolean(a == b))
    case (Float(x), Float(y)) => Ok(Boolean(fp.eq(x, y)))
    case (Boolean(a), Boolean(b)) => Ok(Boolean(a == b))
    case (Str(s), Str(t)) => Ok(Boolean(s == t))
    case _ => Err("Unsupported types for Equals operation")
  }

  function NotEqualsPrims(l: Value, r: Value, fp: FloatOps): Result<Prim> {
    var ops :- SameKind(l, r, "Type mismatch in NotEquals operation");
    match ops
    case (Integer(a), Integer(b)) => Ok(Boolean(a != b))
    case (Float(x), Float(y)) => Ok(Boolean(!fp.eq(x, y)))
    case (Boolean(a), Boolean(b)) => Ok(Boolean(a != b))
    case (Str(s), Str(t)) => Ok(Boolean(s != t))
    case _ => Err("Unsupported types for NotEqual operation")
  }

  /** The four orderings, on ints and through `FloatOps` on floats. */
  datatype Ordering = Less | LessEqual | Greater | GreaterEqual

  function OrderingName(o: Ordering): string {
    match o
    case Less => "LessThan" case LessEqual => "LessThanEqual"
    case Greater => "GreaterThan" case GreaterEqual => "GreaterThanEqual"
  }

  function CompareInts(o: Ordering, a: int, b: int): bool {
    match o
    case Less => a < b case LessEqual => a <= b
    case Greater => a > b case GreaterEqual => a >= b
  }

  function CompareFloats(o: Ordering, fp: FloatOps, x: bv32, y: bv32): bool {
    match o
    case Less => fp.lt(x, y) case LessEqual => fp.le(x, y)
    case Greater => fp.gt(x, y) case GreaterEqual => fp.ge(x, y)
  }

  function ComparePrims(o: Ordering, l: Value, r: Value, fp: FloatOps): Result<Prim> {
    var ops :- SameKind(l, r, "Type mismatch in " + OrderingName(o) + " operation");
    match ops
    case (Integer(a), Integer(b)) => Ok(Boolean(CompareInts(o, a, b)))
    case (Float(x), Float(y)) => Ok(Boolean(CompareFloats(o, fp, x, y)))
    case _ => Err("Unsupported types for " + OrderingName(o) + " operation")
  }

  // ----------------------------------------------------------- casting

  function FloatToIntPrim(v: Value, fp: FloatOps): Result<Prim> {
    var p :- Operand(v);
    match p
    case Float(x) => (match fp.toInt(x) case Some(n) => Ok(Integer(n)) case None => Err(Undefined))
    case Integer(_) => Ok(p)
    case _ => Err("Unsupported types for FloatToInt operation")
  }

  function IntToFloatPrim(v: Value, fp: FloatOps): Result<Prim> {
    var p :- Operand(v);
    match p
    case Integer(a) => Ok(Float(fp.ofInt(a)))
    case Float(_) => Ok(p)
    case _ => Err("Unsupported types for IntToFloatoperation")
  }

  // -------------------------------------------------------- dispatch

  /** The operation behind each binary operator node. */
  function ApplyBinary(op: BinOp, l: Value, r: Value, fp: FloatOps): Result<Prim> {
    match op
    case Add => AddPrims(l, r, fp)
    case Subtract => SubtractPrims(l, r, fp)
    case Multiply => MultiplyPrims(l, r, fp)
    case Divide => DividePrims(l, r, fp)
    case Modulo => ModuloPrims(l, r)
    case Exponentiation => ExponentiationPrims(l, r, fp)
    case And => AndPrims(l, r)
    case Or => OrPrimsAsWritten(l, r)
    case BitAnd => BitAndPrims(l, r)
    case BitOr => BitOrPrims(l, r)
    case BitXor => BitXorPrims(l, r)
    case LeftShift => LeftShiftPrims(l, r)
    case RightShift => RightShiftPrims(l, r)
    case Equals => EqualsPrims(l, r, fp)
    case NotEquals => NotEqualsPrims(l, r, fp)
    case LessThan => ComparePrims(Less, l, r, fp)
    case LessThanEqual => ComparePrims(LessEqual, l, r, fp)
    case GreaterThan => ComparePrims(Greater, l, r, fp)
    case GreaterThanEqual => ComparePrims(GreaterEqual, l, r, fp)
  }

  /** The operation behind each unary operator node. */
  function ApplyUnary(u: UnOp, v: Value, fp: FloatOps): Result<Prim> {
    match u
    case Negation => NegationPrim(v, fp)
    case Not => NotPrim(v)
    case BitNot => BitNotPrim(v)
    case FloatToInt => FloatToIntPrim(v, fp)
    case IntToFloat => IntToFloatPrim(v, fp)
  }

  // -------------------------------------------------------- properties

  predicate IsNumber(p: Prim) {
    p.Integer? || p.Float?
  }

  /** `Add` on two primitives: ints add exactly (or overflow), any mix of
      int and float gives a float, strings concatenate, and every other
      pair is unsupported. */
  lemma AddTable(a: Prim, b: Prim, fp: FloatOps)
    ensures var r := AddPrims(Some(a), Some(b), fp);
      && (a.Integer? && b.Integer? ==> r == IntResult(a.i + b.i))
      && (IsNumber(a) && IsNumber(b) && (a.Float? || b.Float?) ==> r.Ok? && r.value.Float?)
      && (a.Str? && b.Str? ==> r == Ok(Str(a.s + b.s)))
      && (r == Err(AddUnsupported) <==> !(IsNumber(a) && IsNumber(b)) && !(a.Str? && b.Str?))
  {
  }

  /** `Subtract`, `Multiply` and `Divide` take exactly the pairs of
      numbers, an int pair giving an int and any other pair a float. */
  lemma NumericOperatorsTakeNumbers(op: BinOp, a: Prim, b: Prim, fp: FloatOps)
    requires op == Subtract || op == Multiply || op == Divide
    ensures var r := ApplyBinary(op, Some(a), Some(b), fp);
      && (!(IsNumber(a) && IsNumber(b)) <==> r == Err(NumericUnsupported(op)))
      && (r.Ok? ==> (r.value.Integer? <==> a.Integer? && b.Integer?) && (r.value.Float? <==> !(a.Integer? && b.Integer?)))
  {
    match op
    case Subtract => assert ApplyBinary(op, Some(a), Some(b), fp) == SubtractPrims(Some(a), Some(b), fp);
    case Multiply => assert ApplyBinary(op, Some(a), Some(b), fp) == MultiplyPrims(Some(a), Some(b), fp);
    case Divide => assert ApplyBinary(op, Some(a), Some(b), fp) == DividePrims(Some(a), Some(b), fp);
  }

  function NumericUnsupported(op: BinOp): string {
    match op
    case Subtract => SubtractUnsupported
    case Multiply => MultiplyUnsupported
    case _ => DivideUnsupported
  }

  /** Int division truncates toward zero: the quotient times the divisor
      plus a remainder smaller than the divisor, with the dividend's sign,
      gives back the dividend.  A zero divisor is an error of its own. */
  lemma IntDivisionTruncates(a: int32, b: int32, fp: FloatOps)
    ensures var r := DividePrims(Some(Integer(a)), Some(Integer(b)), fp);
      && (b == 0 <==> r == Err(DivisionByZero))
      && (r.Ok? <==> b != 0 && !(a == MIN && b == -1))
      && (r.Ok? ==> r.value.Integer? && r.value.i * b + TruncRem(a, b) == a
                    && Abs(TruncRem(a, b)) < Abs(b)
                    && (TruncRem(a, b) == 0 || (TruncRem(a, b) < 0 <==> a < 0)))
  {
    if b != 0 {
      TruncRemBounds(a, b);
      TruncDivRange(a, b);
    }
  }

  /** `%` accepts only two ints, rejects a zero divisor, and otherwise
      gives the remainder of truncating division. */
  lemma ModuloTable(a: Prim, b: Prim)
    ensures var r := ModuloPrims(Some(a), Some(b));
      && (!(a.Integer? && b.Integer?) <==> r == Err(ModuloUnsupported))
      && (a.Integer? && b.Integer? ==> (b.i == 0 <==> r == Err(ModuloByZero)))
      && (r.Ok? ==> a.Integer? && b.Integer? && b.i != 0 && r.value == Integer(a.i - b.i * TruncDiv(a.i, b.i)))
  {
  }

  /** `==`, `!=`, `**` and the orderings reject two primitives of different
      kinds before looking at anything else. */
  lemma MismatchedKindsRejected(o: Ordering, a: Prim, b: Prim, fp: FloatOps)
    requires KindOf(a) != KindOf(b)
    ensures EqualsPrims(Some(a), Some(b), fp) == Err("Type mismatch in Equals operation")
    ensures NotEqualsPrims(Some(a), Some(b), fp) == Err("Type mismatch in NotEquals operation")
    ensures ExponentiationPrims(Some(a), Some(b), fp) == Err("Type mismatch in Exponentiation operation")
    ensures ComparePrims(o, Some(a), Some(b), fp) == Err("Type mismatch in " + OrderingName(o) + " operation")
  {
  }

  /** On same-kind operands `!=` is the negation of `==`: both fail
      together, and when they succeed their answers are opposite. */
  lemma NotEqualsNegatesEquals(l: Value, r: Value, fp: FloatOps)
    requires l.Some? && r.Some? && KindOf(l.value) == KindOf(r.value)
    ensures EqualsPrims(l, r, fp).Ok? <==> NotEqualsPrims(l, r, fp).Ok?
    ensures EqualsPrims(l, r, fp).Ok? ==>
              exists x :: EqualsPrims(l, r, fp) == Ok(Boolean(x)) && NotEqualsPrims(l, r, fp) == Ok(Boolean(!x))
  {
    if EqualsPrims(l, r, fp).Ok? {
      var x := EqualsPrims(l, r, fp).value.b;
      assert NotEqualsPrims(l, r, fp) == Ok(Boolean(!x));
    }
  }

  /** `==` is supported exactly on ints, floats, Booleans and strings. */
  lemma EqualsSupportedKinds(a: Prim, b: Prim, fp: FloatOps)
    requires KindOf(a) == KindOf(b)
    ensures EqualsPrims(Some(a), Some(b), fp).Ok? <==> !a.CellAddress?
  {
  }

  /** The orderings are supported exactly on ints and floats; on ints they
      are the mathematical orderings, and `a < b` is `b > a`. */
  lemma OrderingsOnInts(o: Ordering, a: int32, b: int32, fp: FloatOps)
    ensures ComparePrims(o, Some(Integer(a)), Some(Integer(b)), fp) == Ok(Boolean(CompareInts(o, a, b)))
    ensures CompareInts(Less, a, b) == CompareInts(Greater, b, a)
    ensures CompareInts(LessEqual, a, b) == !CompareInts(Greater, a, b)
  {
  }

  lemma OrderingsSupportedKinds(o: Ordering, a: Prim, b: Prim, fp: FloatOps)
    requires KindOf(a) == KindOf(b)
    ensures ComparePrims(o, Some(a), Some(b), fp).Ok? <==> IsNumber(a)
  {
  }

  /** `And` returns false for a false left operand whatever the right one
      is, even a non-Boolean or null one; with a true left operand it is
      the right operand, which must be a Boolean. */
  lemma AndShortCircuits(r: Value)
    ensures AndPrims(Some(Boolean(false)), r) == Ok(Boolean(false))
    ensures AndPrims(Some(Boolean(true)), r).Ok? <==> r.Some? && r.value.Boolean?
    ensures r.Some? && r.value.Boolean? ==> AndPrims(Some(Boolean(true)), r) == Ok(r.value)
  {
  }

  /** `Or` as written answers false whenever its left operand is false and
      its right one a Boolean: `false || true` is false.  It differs from
      the intended `Or` on exactly that input. */
  lemma OrAsWrittenIsConjunction()
    ensures OrPrimsAsWritten(Some(Boolean(false)), Some(Boolean(true))) == Ok(Boolean(false))
    ensures OrPrims(Some(Boolean(false)), Some(Boolean(true))) == Ok(Boolean(true))
    ensures forall l: Value, r: Value :: OrPrimsAsWritten(l, r) != OrPrims(l, r) <==>
              l == Some(Boolean(false)) && r == Some(Boolean(true))
  {
  }

  /** The intended `Or` is the disjunction on Booleans, short-circuits on a
      true left operand, and is De Morgan's dual of `And`. */
  lemma OrIsDisjunction(x: bool, y: bool, r: Value)
    ensures OrPrims(Some(Boolean(x)), Some(Boolean(y))) == Ok(Boolean(x || y))
    ensures OrPrims(Some(Boolean(true)), r) == Ok(Boolean(true))
    ensures OrPrims(Some(Boolean(x)), Some(Boolean(y)))
         == NotPrim(Some(AndPrims(Some(Boolean(!x)), Some(Boolean(!y))).value))
  {
  }

  /** An `or` node combines its operands as written: on two Booleans it
      gives its left operand, so `false or true` is false. */
  lemma OrNodeGivesLeft(x: bool, y: bool, fp: FloatOps)
    ensures ApplyBinary(Or, Some(Boolean(x)), Some(Boolean(y)), fp) == Ok(Boolean(x))
    ensures ApplyBinary(Or, Some(Boolean(false)), Some(Boolean(true)), fp) != OrPrims(Some(Boolean(false)), Some(Boolean(true)))
  {
  }

  /** `!` flips a Boolean and rejects every other kind; applied twice it
      gives the Boolean back. */
  lemma NotTable(p: Prim)
    ensures NotPrim(Some(p)).Ok? <==> p.Boolean?
    ensures p.Boolean? ==> NotPrim(Some(NotPrim(Some(p)).value)) == Ok(p)
  {
  }

  /** Negation takes ints (all but INT_MIN) and floats; `~` takes only
      ints, where it is `-a - 1` and undoes itself. */
  lemma NegationAndBitNotTable(p: Prim, fp: FloatOps)
    ensures NegationPrim(Some(p), fp).Ok? <==> p.Float? || (p.Integer? && p.i != MIN)
    ensures p.Integer? && p.i != MIN ==> NegationPrim(Some(p), fp) == Ok(Integer(-(p.i as int)))
    ensures BitNotPrim(Some(p)).Ok? <==> p.Integer?
    ensures p.Integer? ==> BitNotPrim(Some(p)) == Ok(Integer(-(p.i as int) - 1))
    ensures p.Integer? ==> BitNotPrim(Some(BitNotPrim(Some(p)).value)) == Ok(p)
  {
    if p.Integer? {
      BitNotIsNegatePred(p.i);
      BitNotIsNegatePred(Int32.BitNot(p.i));
    }
  }

  /** `int(x)` of an int and `float(x)` of a float return the operand
      itself; the other direction converts; every other kind is an error. */
  lemma CastsTable(p: Prim, fp: FloatOps)
    ensures p.Integer? ==> FloatToIntPrim(Some(p), fp) == Ok(p)
    ensures p.Float? ==> IntToFloatPrim(Some(p), fp) == Ok(p)
    ensures p.Integer? ==> IntToFloatPrim(Some(p), fp) == Ok(Float(fp.ofInt(p.i)))
    ensures FloatToIntPrim(Some(p), fp).Err? && FloatToIntPrim(Some(p), fp).error != Undefined <==> !IsNumber(p)
    ensures IntToFloatPrim(Some(p), fp).Ok? <==> IsNumber(p)
  {
  }

  /** The bitwise operators take exactly two ints; `&`, `|` and `^` do not
      care about operand order, and `a ^ a` is 0. */
  lemma BitwiseTable(a: Prim, b: Prim)
    ensures BitAndPrims(Some(a), Some(b)).Ok? <==> a.Integer? && b.Integer?
    ensures BitOrPrims(Some(a), Some(b)).Ok? <==> a.Integer? && b.Integer?
    ensures BitXorPrims(Some(a), Some(b)).Ok? <==> a.Integer? && b.Integer?
    ensures BitAndPrims(Some(a), Some(b)) == BitAndPrims(Some(b), Some(a)) || !(a.Integer? && b.Integer?)
    ensures BitOrPrims(Some(a), Some(b)) == BitOrPrims(Some(b), Some(a)) || !(a.Integer? && b.Integer?)
    ensures BitXorPrims(Some(a), Some(b)) == BitXorPrims(Some(b), Some(a)) || !(a.Integer? && b.Integer?)
    ensures a.Integer? ==> BitXorPrims(Some(a), Some(a)) == Ok(Integer(0))
  {
    if a.Integer? {
      BitwiseLaws(Unsigned(a.i), Unsigned(a.i), 32);
    }
    if a.Integer? && b.Integer? {
      var x, y := Unsigned(a.i), Unsigned(b.i);
      BitwiseCommutes(AndOp, x, y, 32);
      BitwiseCommutes(OrOp, x, y, 32);
      BitwiseCommutes(XorOp, x, y, 32);
    }
  }

  /** A shift takes two ints and is defined for amounts 0 to 31; `>>` of a
      non-negative int by `s` is the int divided by 2^s. */
  lemma ShiftTable(a: Prim, b: Prim)
    ensures LeftShiftPrims(Some(a), Some(b)).Ok? <==> a.Integer? && b.Integer? && 0 <= b.i < 32
    ensures RightShiftPrims(Some(a), Some(b)).Ok? <==> a.Integer? && b.Integer? && 0 <= b.i < 32
    ensures a.Integer? && b.Integer? && 0 <= b.i < 32 && a.i >= 0 ==>
              RightShiftPrims(Some(a), Some(b)) == Ok(Integer(a.i / Pow2(b.i)))
    ensures a.Integer? && b.Integer? && !(0 <= b.i < 32) ==> LeftShiftPrims(Some(a), Some(b)) == Err(Undefined)
  {
  }

  /** A null operand is an error exactly where a `typeid` test looks at it:
      always on the left, and on the right once the left operand's kind has
      matched a branch. */
  lemma NullOperands(p: Prim, fp: FloatOps)
    ensures AddPrims(None, Some(p), fp) == Err(BadTypeid)
    ensures AddPrims(Some(p), None, fp) == Err(if p.Boolean? || p.CellAddress? then AddUnsupported else BadTypeid)
    ensures EqualsPrims(Some(p), None, fp) == Err(BadTypeid)
    ensures AndPrims(Some(Boolean(false)), None) == Ok(Boolean(false))
    ensures AndPrims(Some(Boolean(true)), None) == Err(BadTypeid)
    ensures forall u :: ApplyUnary(u, None, fp) == Err(BadTypeid)
  {
  }
}
