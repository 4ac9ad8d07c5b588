/**
 * What evaluating an expression tree does: the value it returns or the
 * exception it raises, and what it leaves in the runtime's variable table.
 *
 * Evaluation reads the grid but never writes it, so the grid appears here
 * as a `Snapshot` of the primitive every cell holds, row by row.  The
 * variable table is a map from names to (possibly null) primitives. Its
 * `getVariable` inserts an empty entry for a name it has never seen, so
 * even reading a variable can change the table.
 */
module Evaluation {
  import opened Wrappers
  import opened Int32
  import opened Expressions
  import opened Operators

  const Rows: int := 20
  const Cols: int := 13
  const CellCount: nat := 260

  /** The primitive of every cell, the cell at (r, c) at index r * 13 + c. */
  type Snapshot = s: seq<Value> | |s| == CellCount witness seq(CellCount, _ => None)

  predicate InGrid(r: int, c: int) {
    0 <= r < Rows && 0 <= c < Cols
  }

  function Index(r: int, c: int): (k: nat)
    requires InGrid(r, c)
    ensures k < CellCount
  {
    r * 13 + c
  }

  /** Distinct cells occupy distinct places of a snapshot. */
  lemma IndexInjective(r: int, c: int, r': int, c': int)
    requires InGrid(r, c) && InGrid(r', c')
    ensures Index(r, c) == Index(r', c') <==> r == r' && c == c'
  {
  }

  /** Index k of a snapshot holds the cell (k / 13, k % 13). */
  lemma IndexOfDivMod(k: int)
    requires 0 <= k < CellCount
    ensures InGrid(k / 13, k % 13) && Index(k / 13, k % 13) == k
  {
  }

  const OutOfRange: string := "Cell address out of range, sorry user, code is wrong."

  /** `Grid::getValue`: a copy of the primitive held by the cell, or the
      out-of-range error for an address outside the 20 by 13 grid. */
  function CellValue(cells: Snapshot, r: int, c: int): (res: Result<Value>)
    ensures res.Ok? <==> InGrid(r, c)
    ensures res.Err? ==> res.error == OutOfRange
  {
    if InGrid(r, c) then Ok(cells[Index(r, c)]) else Err(OutOfRange)
  }

  // --------------------------------------------------------- variables

  type Env = map<string, Value>

  /** `Runtime::getVariable`: the stored primitive, or the integer 0 when the
      name holds null or has never been set; `variables[name]` inserts a
      null entry for a name it has never seen. */
  function GetVariable(env: Env, name: string): (r: (Prim, Env))
    ensures name in r.1 && r.1.Keys == env.Keys + {name}
    ensures forall k :: k in env ==> r.1[k] == env[k]
    ensures name !in env ==> r.1[name] == None
    ensures r.0 == if name in env && env[name].Some? then env[name].value else Integer(0)
  {
    var env' := if name in env then env else env[name := None];
    (if env'[name].Some? then env'[name].value else Integer(0), env')
  }

  /** `Runtime::setVariable`. */
  function SetVariable(env: Env, name: string, v: Value): Env {
    env[name := v]
  }

  /** Setting a variable twice leaves only the second value. */
  lemma SetTwice(env: Env, name: string, v: Value, w: Value)
    ensures SetVariable(SetVariable(env, name, v), name, w) == SetVariable(env, name, w)
  {
    assert SetVariable(env, name, v)[name := w] == env[name := w];
  }

  /** Reading a variable after setting it gives the value set, whatever
      the table held before; a null value reads back as 0. */
  lemma GetAfterSet(env: Env, name: string, v: Value)
    ensures GetVariable(SetVariable(env, name, v), name)
         == (if v.Some? then v.value else Integer(0), SetVariable(env, name, v))
  {
  }

  /** Setting one name leaves what every other name reads unchanged. */
  lemma SetLeavesOtherNames(env: Env, name: string, other: string, v: Value)
    requires name != other
    ensures GetVariable(SetVariable(env, name, v), other).0 == GetVariable(env, other).0
  {
  }

  /** Reading twice reads the same: the second read changes nothing more. */
  lemma GetVariableIdempotent(env: Env, name: string)
    ensures var (p, env') := GetVariable(env, name);
            GetVariable(env', name) == (p, env')
  {
  }

  // ---------------------------------------------------------- outcomes

  /** The result of one `evaluate` call: the returned primitive or the
      message of the exception that escaped, with the variable table as the
      call left it. */
  datatype Outcome =
    | Returned(value: Value, env: Env)
    | Raised(message: string, env: Env)

  function Deliver(res: Result<Prim>, env: Env): (o: Outcome)
    ensures o.env == env
    ensures o.Returned? <==> res.Ok?
  {
    match res
    case Ok(p) => Returned(Some(p), env)
    case Err(m) => Raised(m, env)
  }

  const BadCast: string := "std::bad_cast"
  const NotBoolean: string := "Condition must evaluate to a boolean"
  const InvalidLoopVariable: string := "Invalid variable in For loop"

  /** `LValue`: the address of the two ints it evaluates to. */
  function AddressOf(row: Value, col: Value): (res: Result<Prim>)
    ensures res.Ok? <==> row.Some? && col.Some? && row.value.Integer? && col.value.Integer?
    ensures res.Ok? ==> res == Ok(CellAddress(row.value.i, col.value.i))
  {
    var (r, c) :- IntPair(row, col, "Unsupported types for LValue");
    Ok(CellAddress(r, c))
  }

  // ---------------------------------------------------------- rectangles

  /** The rectangle between two corner cells, the top-left one first. */
  datatype Rect = Rect(top: int, left: int, bottom: int, right: int)
  {
    predicate Ordered() {
      top <= bottom && left <= right
    }

    predicate Inside() {
      InGrid(top, left) && InGrid(bottom, right)
    }

    /** Whether the cell (r, c) is in the grid and in the rectangle. */
    predicate Holds(r: int, c: int) {
      InGrid(r, c) && top <= r <= bottom && left <= c <= right
    }
  }

  /** The corners of a statistic or a `for` loop: two addresses, the first
      above and to the left of the second. */
  function Corners(a: Value, b: Value): (res: Result<Rect>)
    ensures res.Ok? <==> a.Some? && b.Some? && a.value.CellAddress? && b.value.CellAddress?
                         && a.value.row <= b.value.row && a.value.col <= b.value.col
    ensures res.Ok? ==> res.value == Rect(a.value.row, a.value.col, b.value.row, b.value.col)
    ensures res.Ok? ==> res.value.Ordered()
  {
    if a.None? then Err(BadTypeid)
    else if !a.value.CellAddress? then Err("Invalid left address")
    else if b.None? then Err(BadTypeid)
    else if !b.value.CellAddress? then Err("Invalid right address")
    else if a.value.row > b.value.row || a.value.col > b.value.col then
      Err("Cells must be ordered (topLeft, bottomRight)")
    else Ok(Rect(a.value.row, a.value.col, b.value.row, b.value.col))
  }

  /** The primitive of the cell (r, c), null outside the grid. */
  function CellAt(cells: Snapshot, r: int, c: int): Value {
    if InGrid(r, c) then cells[Index(r, c)] else None
  }

  /** The cells of `rect` that row-major order visits before (i, j). */
  function Before(cells: Snapshot, rect: Rect, i: int, j: int): seq<Value>
    requires rect.Ordered() && rect.top <= i <= rect.bottom && rect.left <= j <= rect.right + 1
    decreases i - rect.top, j - rect.left
  {
    if j > rect.left then Before(cells, rect, i, j - 1) + [CellAt(cells, i, j - 1)]
    else if i > rect.top then Before(cells, rect, i - 1, rect.right + 1)
    else []
  }

  /** Every cell of the rectangle in row-major order. */
  function RectValues(cells: Snapshot, rect: Rect): seq<Value>
    requires rect.Ordered()
  {
    Before(cells, rect, rect.bottom, rect.right + 1)
  }

  /** Whether (r, c) comes before (i, j) in row-major order. */
  predicate Precedes(r: int, c: int, i: int, j: int) {
    r < i || (r == i && c < j)
  }

  /** `Before` lists the cells of the rectangle preceding (i, j), and
      nothing else. */
  lemma {:induction false} BeforeMembers(cells: Snapshot, rect: Rect, i: int, j: int, v: Value)
    requires rect.Ordered() && rect.top <= i <= rect.bottom && rect.left <= j <= rect.right + 1
    requires v in Before(cells, rect, i, j)
    ensures exists r, c :: rect.top <= r <= rect.bottom && rect.left <= c <= rect.right
                           && Precedes(r, c, i, j) && CellAt(cells, r, c) == v
    decreases i - rect.top, j - rect.left
  {
    if j > rect.left {
      if v == CellAt(cells, i, j - 1) {
        assert Precedes(i, j - 1, i, j);
      } else {
        BeforeMembers(cells, rect, i, j - 1, v);
      }
    } else if i > rect.top {
      BeforeMembers(cells, rect, i - 1, rect.right + 1, v);
    }
  }

  lemma {:induction false} BeforeContains(cells: Snapshot, rect: Rect, i: int, j: int, r: int, c: int)
    requires rect.Ordered() && rect.top <= i <= rect.bottom && rect.left <= j <= rect.right + 1
    requires rect.top <= r <= rect.bottom && rect.left <= c <= rect.right && Precedes(r, c, i, j)
    ensures CellAt(cells, r, c) in Before(cells, rect, i, j)
    decreases i - rect.top, j - rect.left
  {
    if j > rect.left {
      if !(r == i && c == j - 1) {
        BeforeContains(cells, rect, i, j - 1, r, c);
      }
    } else if i > rect.top {
      BeforeContains(cells, rect, i - 1, rect.right + 1, r, c);
    }
  }

  // ---------------------------------------------------------- statistics

  /** The number a cell contributes to a statistic, or `None` for the cells
      statistics skip: empty cells, Booleans, strings and addresses. */
  function NumberOf(v: Value, fp: FloatOps): Option<real> {
    match v
    case Some(Integer(n)) => Some(n as real)
    case Some(Float(x)) => Some(fp.toReal(x))
    case _ => None
  }

  /** The numbers of a sequence of cells, in order. */
  function Numbers(vs: seq<Value>, fp: FloatOps): (xs: seq<real>)
    ensures |xs| <= |vs|
  {
    if vs == [] then []
    else
      var xs := Numbers(vs[..|vs| - 1], fp);
      match NumberOf(vs[|vs| - 1], fp)
      case Some(x) => xs + [x]
      case None => xs
  }

  /** Every number comes from one of the cells ... */
  lemma {:induction false} NumberFromCell(vs: seq<Value>, x: real, fp: FloatOps)
    requires x in Numbers(vs, fp)
    ensures exists v :: v in vs && NumberOf(v, fp) == Some(x)
  {
    var init, last := vs[..|vs| - 1], vs[|vs| - 1];
    assert vs == init + [last];
    if NumberOf(last, fp) != Some(x) {
      NumberFromCell(init, x, fp);
    }
  }

  /** ... and every cell holding a number contributes it. */
  lemma {:induction false} CellGivesNumber(vs: seq<Value>, v: Value, fp: FloatOps)
    requires v in vs && NumberOf(v, fp).Some?
    ensures NumberOf(v, fp).value in Numbers(vs, fp)
  {
    var init, last := vs[..|vs| - 1], vs[|vs| - 1];
    assert vs == init + [last];
    if v != last {
      CellGivesNumber(init, v, fp);
    }
  }

  /** The running maximum of a `double` seeded with -infinity and updated
      when a number is strictly greater; `None` stands for -infinity. */
  function MaxOf(xs: seq<real>): Option<real> {
    if xs == [] then None
    else
      var m := MaxOf(xs[..|xs| - 1]);
      var x := xs[|xs| - 1];
      if m.None? || x > m.value then Some(x) else m
  }

  /** The running minimum, seeded with +infinity (`None`). */
  function MinOf(xs: seq<real>): Option<real> {
    if xs == [] then None
    else
      var m := MinOf(xs[..|xs| - 1]);
      var x := xs[|xs| - 1];
      if m.None? || x < m.value then Some(x) else m
  }

  function SumOf(xs: seq<real>): real {
    if xs == [] then 0.0 else SumOf(xs[..|xs| - 1]) + xs[|xs| - 1]
  }

  /** One more cell extends the numbers by that cell's number, if any. */
  lemma NumbersAppend(vs: seq<Value>, v: Value, fp: FloatOps)
    ensures Numbers(vs + [v], fp)
         == Numbers(vs, fp) + (if NumberOf(v, fp).Some? then [NumberOf(v, fp).value] else [])
  {
    assert (vs + [v])[..|vs|] == vs;
  }

  /** One more number updates the running maximum, minimum and sum as one
      more loop iteration does. */
  lemma AccumulatorsAppend(xs: seq<real>, x: real)
    ensures MaxOf(xs + [x]) == if MaxOf(xs).None? || x > MaxOf(xs).value then Some(x) else MaxOf(xs)
    ensures MinOf(xs + [x]) == if MinOf(xs).None? || x < MinOf(xs).value then Some(x) else MinOf(xs)
    ensures SumOf(xs + [x]) == SumOf(xs) + x
  {
    assert (xs + [x])[..|xs|] == xs;
  }

  /** The maximum is one of the numbers and no number exceeds it; there is
      one exactly when there is a number at all. */
  lemma {:induction false} MaxIsGreatest(xs: seq<real>)
    ensures MaxOf(xs).Some? <==> |xs| > 0
    ensures MaxOf(xs).Some? ==> MaxOf(xs).value in xs
    ensures forall x :: x in xs ==> MaxOf(xs).Some? && x <= MaxOf(xs).value
  {
    if xs != [] {
      var init := xs[..|xs| - 1];
      MaxIsGreatest(init);
      assert xs == init + [xs[|xs| - 1]];
    }
  }

  lemma {:induction false} MinIsLeast(xs: seq<real>)
    ensures MinOf(xs).Some? <==> |xs| > 0
    ensures MinOf(xs).Some? ==> MinOf(xs).value in xs
    ensures forall x :: x in xs ==> MinOf(xs).Some? && MinOf(xs).value <= x
  {
    if xs != [] {
      var init := xs[..|xs| - 1];
      MinIsLeast(init);
      assert xs == init + [xs[|xs| - 1]];
    }
  }

  /** The sum of numbers in a given range lies within count times that
      range. */
  lemma {:induction false} SumBounds(xs: seq<real>, lo: real, hi: real)
    requires forall x :: x in xs ==> lo <= x <= hi
    ensures (|xs| as real) * lo <= SumOf(xs) <= (|xs| as real) * hi
  {
    if xs != [] {
      var init := xs[..|xs| - 1];
      assert forall x :: x in init ==> x in xs;
      SumBounds(init, lo, hi);
      assert xs[|xs| - 1] in xs;
    }
  }

  lemma QuotientBounds(s: real, n: real, lo: real, hi: real)
    requires n > 0.0 && n * lo <= s <= n * hi
    ensures (s / n) * n == s
    ensures lo <= s / n <= hi
  {
    var q := s / n;
    assert q * n == s;
  }

  /** The four running values of a statistic's traversal: the maximum and
      the minimum (`None` while they are still -infinity and +infinity),
      the sum and the count of the numbers seen. */
  datatype Tally = Tally(max: Option<real>, min: Option<real>, sum: real, count: nat)

  /** What the traversal has accumulated after visiting the cells `vs`:
      one `Count` per cell, from the seeds -infinity, +infinity, 0 and 0. */
  function TallyOf(vs: seq<Value>, fp: FloatOps): Tally {
    if vs == [] then Tally(None, None, 0.0, 0)
    else Count(TallyOf(vs[..|vs| - 1], fp), NumberOf(vs[|vs| - 1], fp))
  }

  /** One loop iteration: a cell without a number changes nothing; a number
      replaces the maximum when strictly greater, the minimum when strictly
      less, and is added to the sum and the count. */
  function Count(t: Tally, n: Option<real>): Tally {
    match n
    case None => t
    case Some(x) =>
      Tally(if t.max.None? || x > t.max.value then Some(x) else t.max,
            if t.min.None? || x < t.min.value then Some(x) else t.min,
            t.sum + x, t.count + 1)
  }

  /** Visiting one more cell is one more iteration. */
  lemma TallyAppend(vs: seq<Value>, v: Value, fp: FloatOps)
    ensures TallyOf(vs + [v], fp) == Count(TallyOf(vs, fp), NumberOf(v, fp))
  {
    assert (vs + [v])[..|vs|] == vs;
  }

  /** The traversal ends with the maximum, the minimum, the sum and the
      count of the numbers among the cells. */
  lemma {:induction false} TallyAccumulates(vs: seq<Value>, fp: FloatOps)
    ensures var xs := Numbers(vs, fp);
            TallyOf(vs, fp) == Tally(MaxOf(xs), MinOf(xs), SumOf(xs), |xs|)
  {
    if vs != [] {
      var init, v := vs[..|vs| - 1], vs[|vs| - 1];
      TallyAccumulates(init, fp);
      assert vs == init + [v];
      NumbersAppend(init, v, fp);
      if NumberOf(v, fp).Some? {
        AccumulatorsAppend(Numbers(init, fp), NumberOf(v, fp).value);
      }
    }
  }

  /** The float each statistic returns once the traversal is done: a
      `double` narrowed to float; `mean` of no numbers is 0. */
  function Finish(k: StatKind, t: Tally, fp: FloatOps): Prim {
    match k
    case Max => Float(match t.max case None => fp.negInf case Some(m) => fp.fromReal(m))
    case Min => Float(match t.min case None => fp.posInf case Some(m) => fp.fromReal(m))
    case Mean => if t.count == 0 then Float(fp.ofInt(0)) else Float(fp.fromReal(t.sum / (t.count as real)))
    case Sum => Float(fp.fromReal(t.sum))
  }

  /** The primitive a statistic over the cells `vs` returns. */
  function StatOf(k: StatKind, vs: seq<Value>, fp: FloatOps): Prim {
    Finish(k, TallyOf(vs, fp), fp)
  }

  /** The average of some numbers lies between their minimum and their
      maximum. */
  lemma AverageBetweenMinAndMax(xs: seq<real>)
    requires |xs| > 0
    ensures MinOf(xs).Some? && MaxOf(xs).Some?
    ensures MinOf(xs).value <= SumOf(xs) / (|xs| as real) <= MaxOf(xs).value
  {
    MaxIsGreatest(xs);
    MinIsLeast(xs);
    var lo, hi := MinOf(xs).value, MaxOf(xs).value;
    SumBounds(xs, lo, hi);
    QuotientBounds(SumOf(xs), |xs| as real, lo, hi);
  }

  /** `mean` is 0 over a rectangle without numbers, and otherwise the
      average of its numbers, which lies between their minimum and maximum. */
  lemma MeanBetweenMinAndMax(vs: seq<Value>, fp: FloatOps)
    ensures |Numbers(vs, fp)| == 0 ==> StatOf(Mean, vs, fp) == Float(fp.ofInt(0))
    ensures |Numbers(vs, fp)| > 0 ==>
              var xs := Numbers(vs, fp);
              var avg := SumOf(xs) / (|xs| as real);
              && StatOf(Mean, vs, fp) == Float(fp.fromReal(avg))
              && MinOf(xs).value <= avg <= MaxOf(xs).value
  {
    var xs := Numbers(vs, fp);
    TallyAccumulates(vs, fp);
    if |xs| > 0 {
      AverageBetweenMinAndMax(xs);
    }
  }

  // ---------------------------------------------------------- evaluate

  /** `evaluate` on a node, in a runtime whose variable table is `env` and
      whose grid holds `cells`. */
  function Evaluate(e: Expr, env: Env, cells: Snapshot, fp: FloatOps): Outcome
    decreases e, 2
  {
    match e
    case Literal(p) => Returned(Some(p), env)
    case Binary(_, _, _) => EvalBinary(e, env, cells, fp)
    case Unary(_, _) => EvalUnary(e, env, cells, fp)
    case LValue(_, _) => EvalLValue(e, env, cells, fp)
    case RValue(_, _) => EvalRValue(e, env, cells, fp)
    case Stat(_, _, _) => EvalStat(e, env, cells, fp)
    case Block(_) => EvalStatements(e, 0, env, None, cells, fp)
    case Variable(n) =>
      var (p, env') := GetVariable(env, n);
      Returned(Some(p), env')
    case Assignment(_, _) => EvalAssignment(e, env, cells, fp)
    case IfExpr(_, _, _) => EvalIf(e, env, cells, fp)
    case ForExpr(_, _, _, _) => EvalFor(e, env, cells, fp)
  }

  /** `BinaryOperator::evaluate`: the left operand, then the right one in
      the table the left one left, then the operation. */
  function EvalBinary(e: Expr, env: Env, cells: Snapshot, fp: FloatOps): Outcome
    requires e.Binary?
    decreases e, 1
  {
    var a := Evaluate(e.left, env, cells, fp);
    if a.Raised? then a else EvalRight(e, a.value, a.env, cells, fp)
  }

  /** The rest of `BinaryOperator::evaluate` once the left operand has
      given `l`: the right operand, then the operation. */
  function EvalRight(e: Expr, l: Value, env: Env, cells: Snapshot, fp: FloatOps): Outcome
    requires e.Binary?
    decreases e, 0
  {
    var b := Evaluate(e.right, env, cells, fp);
    if b.Raised? then b else
    Deliver(ApplyBinary(e.op, l, b.value, fp), b.env)
  }

  /** The `evaluate` of the unary operators and conversions. */
  function EvalUnary(e: Expr, env: Env, cells: Snapshot, fp: FloatOps): Outcome
    requires e.Unary?
    decreases e, 1
  {
    var a := Evaluate(e.operand, env, cells, fp);
    if a.Raised? then a else
    Deliver(ApplyUnary(e.uop, a.value, fp), a.env)
  }

  /** `LValue::evaluate`: the address the two operands give. */
  function EvalLValue(e: Expr, env: Env, cells: Snapshot, fp: FloatOps): Outcome
    requires e.LValue?
    decreases e, 1
  {
    var a := Evaluate(e.row, env, cells, fp);
    if a.Raised? then a else
    var b := Evaluate(e.col, a.env, cells, fp);
    if b.Raised? then b else
    Deliver(AddressOf(a.value, b.value), b.env)
  }

  /** `RValue::evaluate`: the primitive of the cell the two operands give. */
  function EvalRValue(e: Expr, env: Env, cells: Snapshot, fp: FloatOps): Outcome
    requires e.RValue?
    decreases e, 1
  {
    var a := Evaluate(e.row, env, cells, fp);
    if a.Raised? then a else
    var b := Evaluate(e.col, a.env, cells, fp);
    if b.Raised? then b else
    match IntPair(a.value, b.value, "Unsupported types for RValue")
    case Err(m) => Raised(m, b.env)
    case Ok((row, col)) =>
      match CellValue(cells, row, col)
      case Err(m) => Raised(m, b.env)
      case Ok(v) => Returned(v, b.env)
  }

  /** `Max::evaluate` and its siblings: the statistic of the rectangle the
      two corners give. */
  function EvalStat(e: Expr, env: Env, cells: Snapshot, fp: FloatOps): Outcome
    requires e.Stat?
    decreases e, 1
  {
    var a := Evaluate(e.topLeft, env, cells, fp);
    if a.Raised? then a else
    var b := Evaluate(e.bottomRight, a.env, cells, fp);
    if b.Raised? then b else
    match Corners(a.value, b.value)
    case Err(m) => Raised(m, b.env)
    case Ok(rect) =>
      if !rect.Inside() then Raised(OutOfRange, b.env)
      else Returned(Some(StatOf(e.kind, RectValues(cells, rect), fp)), b.env)
  }

  /** `Assignment::evaluate`: the source, stored in the variable, and then
      the source once more for the result. */
  function EvalAssignment(e: Expr, env: Env, cells: Snapshot, fp: FloatOps): Outcome
    requires e.Assignment?
    decreases e, 1
  {
    var a := Evaluate(e.source, env, cells, fp);
    if a.Raised? then a
    else if !e.target.Variable? then Raised(BadCast, a.env)
    else Evaluate(e.source, SetVariable(a.env, e.target.name, a.value), cells, fp)
  }

  /** `IfExpr::evaluate`: the condition, which has to be a Boolean, and
      then one of the branches. */
  function EvalIf(e: Expr, env: Env, cells: Snapshot, fp: FloatOps): Outcome
    requires e.IfExpr?
    decreases e, 1
  {
    var a := Evaluate(e.condition, env, cells, fp);
    if a.Raised? then a
    else if a.value.None? then Raised(BadTypeid, a.env)
    else if !a.value.value.Boolean? then Raised(NotBoolean, a.env)
    else if a.value.value.b then Evaluate(e.ifTrue, a.env, cells, fp)
    else Evaluate(e.ifFalse, a.env, cells, fp)
  }

  /** `ForExpr::evaluate`: the variable test, the two corners, and then
      the loop over the rectangle they give. */
  function EvalFor(e: Expr, env: Env, cells: Snapshot, fp: FloatOps): Outcome
    requires e.ForExpr?
    decreases e, 1
  {
    if !e.variable.Variable? then Raised(InvalidLoopVariable, env) else
    var a := Evaluate(e.from, env, cells, fp);
    if a.Raised? then a else
    var b := Evaluate(e.to, a.env, cells, fp);
    if b.Raised? then b else
    match Corners(a.value, b.value)
    case Err(m) => Raised(m, b.env)
    case Ok(rect) => ForCells(e, rect, rect.top, rect.left, b.env, None, cells, fp)
  }

  /** A block's statements from the `k`-th on, `last` being what the one
      before returned. */
  function EvalStatements(b: Expr, k: nat, env: Env, last: Value, cells: Snapshot, fp: FloatOps): Outcome
    requires b.Block? && k <= |b.statements|
    decreases b, 0, |b.statements| - k
  {
    if k == |b.statements| then Returned(last, env)
    else
      var o := Evaluate(b.statements[k], env, cells, fp);
      if o.Raised? then o else EvalStatements(b, k + 1, o.env, o.value, cells, fp)
  }

  /** A `for` loop's iterations from cell (i, j) on: bind the loop variable
      to the cell's primitive and run the body, `last` being what the
      previous iteration returned. */
  function ForCells(f: Expr, rect: Rect, i: int, j: int, env: Env, last: Value,
                    cells: Snapshot, fp: FloatOps): Outcome
    requires f.ForExpr? && f.variable.Variable? && rect.Ordered()
    requires rect.top <= i <= rect.bottom + 1 && rect.left <= j <= rect.right + 1
    decreases f, 0, rect.bottom + 1 - i, rect.right + 1 - j
  {
    if i > rect.bottom then Returned(last, env)
    else if j > rect.right then ForCells(f, rect, i + 1, rect.left, env, last, cells, fp)
    else
      match CellValue(cells, i, j)
      case Err(m) => Raised(m, env)
      case Ok(v) =>
        var o := Evaluate(f.body, SetVariable(env, f.variable.name, v), cells, fp);
        if o.Raised? then o else ForCells(f, rect, i, j + 1, o.env, o.value, cells, fp)
  }

  /** The end of a row is the start of the next one. */
  lemma ForRowEnd(f: Expr, rect: Rect, i: int, env: Env, last: Value, cells: Snapshot, fp: FloatOps)
    requires f.ForExpr? && f.variable.Variable? && rect.Ordered() && rect.top <= i <= rect.bottom
    ensures ForCells(f, rect, i, rect.right + 1, env, last, cells, fp) == ForCells(f, rect, i + 1, rect.left, env, last, cells, fp)
  {
  }

  // ---------------------------------------------------------- properties

  /** A variable always evaluates: the "Undefined variable found" error can
      never be raised, because `getVariable` never returns null. */
  lemma VariableNeverRaises(n: string, env: Env, cells: Snapshot, fp: FloatOps)
    ensures var o := Evaluate(Variable(n), env, cells, fp);
      && o.Returned? && o.value.Some?
      && o.value.value == (if n in env && env[n].Some? then env[n].value else Integer(0))
  {
  }

  /** Assigning a literal stores it and returns it. */
  lemma AssignmentStoresValue(n: string, p: Prim, env: Env, cells: Snapshot, fp: FloatOps)
    ensures Evaluate(Assignment(Variable(n), Literal(p)), env, cells, fp) == Returned(Some(p), env[n := Some(p)])
    ensures Evaluate(Variable(n), env[n := Some(p)], cells, fp).value == Some(p)
  {
    assert Evaluate(Literal(p), env, cells, fp) == Returned(Some(p), env);
    assert Evaluate(Literal(p), env[n := Some(p)], cells, fp) == Returned(Some(p), env[n := Some(p)]);
  }

  /** `false or true` evaluates to false and leaves the variables alone. */
  lemma FalseOrTrueIsFalse(env: Env, cells: Snapshot, fp: FloatOps)
    ensures Evaluate(Binary(Or, Literal(Boolean(false)), Literal(Boolean(true))), env, cells, fp)
            == Returned(Some(Boolean(false)), env)
  {
    assert Evaluate(Literal(Boolean(false)), env, cells, fp) == Returned(Some(Boolean(false)), env);
    assert Evaluate(Literal(Boolean(true)), env, cells, fp) == Returned(Some(Boolean(true)), env);
  }

  /** The source of an assignment is evaluated twice, the second time after
      the variable has been set: `x = x + 1` in a fresh runtime stores 1
      and returns 2. */
  lemma AssignmentEvaluatesSourceTwice(cells: Snapshot, fp: FloatOps)
    ensures var inc := Binary(Add, Variable("x"), Literal(Integer(1)));
            Evaluate(Assignment(Variable("x"), inc), map[], cells, fp)
            == Returned(Some(Integer(2)), map["x" := Some(Integer(1))])
  {
    var inc := Binary(Add, Variable("x"), Literal(Integer(1)));
    var env1 := map["x" := None];
    assert Evaluate(Variable("x"), map[], cells, fp) == Returned(Some(Integer(0)), env1);
    assert Evaluate(inc, map[], cells, fp) == Returned(Some(Integer(1)), env1);
    var env2 := map["x" := Some(Integer(1))];
    assert env1["x" := Some(Integer(1))] == env2;
    assert Evaluate(Variable("x"), env2, cells, fp) == Returned(Some(Integer(1)), env2);
  }

  /** An assignment whose target is not a variable (as in `a = b = 1`,
      which groups as `(a = b) = 1`) throws `std::bad_cast`, after its
      source has been evaluated. */
  lemma ChainedAssignmentRaises(a: string, b: string, p: Prim, env: Env, cells: Snapshot, fp: FloatOps)
    ensures Evaluate(Assignment(Assignment(Variable(a), Variable(b)), Literal(p)), env, cells, fp)
            == Raised(BadCast, env)
  {
    assert Evaluate(Literal(p), env, cells, fp) == Returned(Some(p), env);
  }

  /** An `if` evaluates its condition, then exactly the branch the Boolean
      selects, in the table the condition left; any other condition value
      is an error. */
  lemma IfSelectsBranch(c: Expr, t: Expr, f: Expr, env: Env, cells: Snapshot, fp: FloatOps)
    ensures var a := Evaluate(c, env, cells, fp);
            var o := Evaluate(IfExpr(c, t, f), env, cells, fp);
      && (a.Raised? ==> o == a)
      && (a.Returned? && a.value.Some? && a.value.value.Boolean? ==>
            o == (if a.value.value.b then Evaluate(t, a.env, cells, fp) else Evaluate(f, a.env, cells, fp)))
      && (a.Returned? && a.value.Some? && !a.value.value.Boolean? ==> o == Raised(NotBoolean, a.env))
      && (a.Returned? && a.value.None? ==> o == Raised(BadTypeid, a.env))
  {
    assert Evaluate(IfExpr(c, t, f), env, cells, fp) == EvalIf(IfExpr(c, t, f), env, cells, fp);
  }

  /** A `for` loop whose first part is not a variable fails before
      evaluating anything. */
  lemma ForRejectsNonVariable(v: Expr, a: Expr, b: Expr, body: Expr, env: Env, cells: Snapshot, fp: FloatOps)
    requires !v.Variable?
    ensures Evaluate(ForExpr(v, a, b, body), env, cells, fp) == Raised(InvalidLoopVariable, env)
  {
  }

  // Names only accumulate.

  lemma {:induction false} EvaluateKeepsNames(e: Expr, env: Env, cells: Snapshot, fp: FloatOps)
    ensures env.Keys <= Evaluate(e, env, cells, fp).env.Keys
    decreases e, 2
  {
    match e
    case Literal(_) =>
    case Binary(_, _, _) => BinaryKeepsNames(e, env, cells, fp);
    case Unary(_, _) => UnaryKeepsNames(e, env, cells, fp);
    case LValue(_, _) => LValueKeepsNames(e, env, cells, fp);
    case RValue(_, _) => RValueKeepsNames(e, env, cells, fp);
    case Stat(_, _, _) => StatKeepsNames(e, env, cells, fp);
    case Block(_) => StatementsKeepNames(e, 0, env, None, cells, fp);
    case Variable(_) =>
    case Assignment(_, _) => AssignmentKeepsNames(e, env, cells, fp);
    case IfExpr(_, _, _) => IfKeepsNames(e, env, cells, fp);
    case ForExpr(_, _, _, _) => ForKeepsNames(e, env, cells, fp);
  }

  lemma {:induction false} BinaryKeepsNames(e: Expr, env: Env, cells: Snapshot, fp: FloatOps)
    requires e.Binary?
    ensures env.Keys <= EvalBinary(e, env, cells, fp).env.Keys
    decreases e, 1
  {
    PairKeepsNames(e, e.left, e.right, env, cells, fp);
  }

  lemma {:induction false} UnaryKeepsNames(e: Expr, env: Env, cells: Snapshot, fp: FloatOps)
    requires e.Unary?
    ensures env.Keys <= EvalUnary(e, env, cells, fp).env.Keys
    decreases e, 1
  {
    EvaluateKeepsNames(e.operand, env, cells, fp);
  }

  lemma {:induction false} LValueKeepsNames(e: Expr, env: Env, cells: Snapshot, fp: FloatOps)
    requires e.LValue?
    ensures env.Keys <= EvalLValue(e, env, cells, fp).env.Keys
    decreases e, 1
  {
    PairKeepsNames(e, e.row, e.col, env, cells, fp);
  }

  lemma {:induction false} RValueKeepsNames(e: Expr, env: Env, cells: Snapshot, fp: FloatOps)
    requires e.RValue?
    ensures env.Keys <= EvalRValue(e, env, cells, fp).env.Keys
    decreases e, 1
  {
    PairKeepsNames(e, e.row, e.col, env, cells, fp);
  }

  lemma {:induction false} StatKeepsNames(e: Expr, env: Env, cells: Snapshot, fp: FloatOps)
    requires e.Stat?
    ensures env.Keys <= EvalStat(e, env, cells, fp).env.Keys
    decreases e, 1
  {
    PairKeepsNames(e, e.topLeft, e.bottomRight, env, cells, fp);
  }

  lemma {:induction false} AssignmentKeepsNames(e: Expr, env: Env, cells: Snapshot, fp: FloatOps)
    requires e.Assignment?
    ensures env.Keys <= EvalAssignment(e, env, cells, fp).env.Keys
    decreases e, 1
  {
    EvaluateKeepsNames(e.source, env, cells, fp);
    var a := Evaluate(e.source, env, cells, fp);
    if a.Returned? && e.target.Variable? {
      EvaluateKeepsNames(e.source, SetVariable(a.env, e.target.name, a.value), cells, fp);
    }
  }

  lemma {:induction false} IfKeepsNames(e: Expr, env: Env, cells: Snapshot, fp: FloatOps)
    requires e.IfExpr?
    ensures env.Keys <= EvalIf(e, env, cells, fp).env.Keys
    decreases e, 1
  {
    EvaluateKeepsNames(e.condition, env, cells, fp);
    var a := Evaluate(e.condition, env, cells, fp);
    EvaluateKeepsNames(e.ifTrue, a.env, cells, fp);
    EvaluateKeepsNames(e.ifFalse, a.env, cells, fp);
  }

  lemma {:induction false} ForKeepsNames(e: Expr, env: Env, cells: Snapshot, fp: FloatOps)
    requires e.ForExpr?
    ensures env.Keys <= EvalFor(e, env, cells, fp).env.Keys
    decreases e, 1
  {
    if e.variable.Variable? {
      PairKeepsNames(e, e.from, e.to, env, cells, fp);
      var a := Evaluate(e.from, env, cells, fp);
      if a.Returned? {
        var b := Evaluate(e.to, a.env, cells, fp);
        if b.Returned? && Corners(a.value, b.value).Ok? {
          var rect := Corners(a.value, b.value).value;
          ForCellsKeepNames(e, rect, rect.top, rect.left, b.env, None, cells, fp);
        }
      }
    }
  }

  /** The two operands of `parent`, evaluated left to right, keep every name. */
  lemma {:induction false} PairKeepsNames(parent: Expr, l: Expr, r: Expr, env: Env, cells: Snapshot, fp: FloatOps)
    requires l < parent && r < parent
    ensures var a := Evaluate(l, env, cells, fp);
      && env.Keys <= a.env.Keys
      && (a.Returned? ==> env.Keys <= Evaluate(r, a.env, cells, fp).env.Keys)
    decreases parent, 0
  {
    EvaluateKeepsNames(l, env, cells, fp);
    var a := Evaluate(l, env, cells, fp);
    if a.Returned? {
      EvaluateKeepsNames(r, a.env, cells, fp);
    }
  }

  lemma {:induction false} StatementsKeepNames(b: Expr, k: nat, env: Env, last: Value, cells: Snapshot, fp: FloatOps)
    requires b.Block? && k <= |b.statements|
    ensures env.Keys <= EvalStatements(b, k, env, last, cells, fp).env.Keys
    decreases b, 0, |b.statements| - k
  {
    if k < |b.statements| {
      EvaluateKeepsNames(b.statements[k], env, cells, fp);
      var o := Evaluate(b.statements[k], env, cells, fp);
      if o.Returned? {
        StatementsKeepNames(b, k + 1, o.env, o.value, cells, fp);
      }
    }
  }

  lemma {:induction false} ForCellsKeepNames(f: Expr, rect: Rect, i: int, j: int, env: Env, last: Value,
                                             cells: Snapshot, fp: FloatOps)
    requires f.ForExpr? && f.variable.Variable? && rect.Ordered()
    requires rect.top <= i <= rect.bottom + 1 && rect.left <= j <= rect.right + 1
    ensures env.Keys <= ForCells(f, rect, i, j, env, last, cells, fp).env.Keys
    decreases f, 0, rect.bottom + 1 - i, rect.right + 1 - j
  {
    if i > rect.bottom {
    } else if j > rect.right {
      ForCellsKeepNames(f, rect, i + 1, rect.left, env, last, cells, fp);
    } else if InGrid(i, j) {
      var env' := SetVariable(env, f.variable.name, cells[Index(i, j)]);
      EvaluateKeepsNames(f.body, env', cells, fp);
      var o := Evaluate(f.body, env', cells, fp);
      if o.Returned? {
        ForCellsKeepNames(f, rect, i, j + 1, o.env, o.value, cells, fp);
      }
    }
  }

  /** Whether a node contains no assignment and no `for` loop. */
  predicate WriteFree(e: Expr) {
    match e
    case Literal(_) => true
    case Binary(_, l, r) => WriteFree(l) && WriteFree(r)
    case Unary(_, x) => WriteFree(x)
    case LValue(l, r) => WriteFree(l) && WriteFree(r)
    case RValue(l, r) => WriteFree(l) && WriteFree(r)
    case Stat(_, l, r) => WriteFree(l) && WriteFree(r)
    case Block(ss) => forall k :: 0 <= k < |ss| ==> WriteFree(ss[k])
    case Variable(_) => true
    case Assignment(_, _) => false
    case IfExpr(c, t, f) => WriteFree(c) && WriteFree(t) && WriteFree(f)
    case ForExpr(_, _, _, _) => false
  }

  /** `env'` is `env` with, at most, empty entries for new names. */
  predicate Extends(env: Env, env': Env) {
    && env.Keys <= env'.Keys
    && (forall k :: k in env ==> env'[k] == env[k])
    && (forall k :: k in env' && k !in env ==> env'[k] == None)
  }

  lemma ExtendsTransitive(e1: Env, e2: Env, e3: Env)
    requires Extends(e1, e2) && Extends(e2, e3)
    ensures Extends(e1, e3)
  {
  }

  /** Without assignments and loops, evaluation changes no variable: it
      at most adds empty entries for names it read. */
  lemma {:induction false} WriteFreeChangesNoVariable(e: Expr, env: Env, cells: Snapshot, fp: FloatOps)
    requires WriteFree(e)
    ensures Extends(env, Evaluate(e, env, cells, fp).env)
    decreases e, 2
  {
    match e
    case Literal(_) =>
    case Binary(_, _, _) => BinaryChangesNoVariable(e, env, cells, fp);
    case Unary(_, _) => UnaryChangesNoVariable(e, env, cells, fp);
    case LValue(_, _) => LValueChangesNoVariable(e, env, cells, fp);
    case RValue(_, _) => RValueChangesNoVariable(e, env, cells, fp);
    case Stat(_, _, _) => StatChangesNoVariable(e, env, cells, fp);
    case Block(_) => StatementsChangeNoVariable(e, 0, env, None, cells, fp);
    case Variable(_) =>
    case IfExpr(_, _, _) => IfChangesNoVariable(e, env, cells, fp);
  }

  lemma {:induction false} BinaryChangesNoVariable(e: Expr, env: Env, cells: Snapshot, fp: FloatOps)
    requires e.Binary? && WriteFree(e)
    ensures Extends(env, EvalBinary(e, env, cells, fp).env)
    decreases e, 1
  {
    PairChangesNoVariable(e, e.left, e.right, env, cells, fp);
  }

  lemma {:induction false} UnaryChangesNoVariable(e: Expr, env: Env, cells: Snapshot, fp: FloatOps)
    requires e.Unary? && WriteFree(e)
    ensures Extends(env, EvalUnary(e, env, cells, fp).env)
    decreases e, 1
  {
    WriteFreeChangesNoVariable(e.operand, env, cells, fp);
  }

  lemma {:induction false} LValueChangesNoVariable(e: Expr, env: Env, cells: Snapshot, fp: FloatOps)
    requires e.LValue? && WriteFree(e)
    ensures Extends(env, EvalLValue(e, env, cells, fp).env)
    decreases e, 1
  {
    PairChangesNoVariable(e, e.row, e.col, env, cells, fp);
  }

  lemma {:induction false} RValueChangesNoVariable(e: Expr, env: Env, cells: Snapshot, fp: FloatOps)
    requires e.RValue? && WriteFree(e)
    ensures Extends(env, EvalRValue(e, env, cells, fp).env)
    decreases e, 1
  {
    PairChangesNoVariable(e, e.row, e.col, env, cells, fp);
  }

  lemma {:induction false} StatChangesNoVariable(e: Expr, env: Env, cells: Snapshot, fp: FloatOps)
    requires e.Stat? && WriteFree(e)
    ensures Extends(env, EvalStat(e, env, cells, fp).env)
    decreases e, 1
  {
    PairChangesNoVariable(e, e.topLeft, e.bottomRight, env, cells, fp);
  }

  lemma {:induction false} IfChangesNoVariable(e: Expr, env: Env, cells: Snapshot, fp: FloatOps)
    requires e.IfExpr? && WriteFree(e)
    ensures Extends(env, EvalIf(e, env, cells, fp).env)
    decreases e, 1
  {
    WriteFreeChangesNoVariable(e.condition, env, cells, fp);
    var a := Evaluate(e.condition, env, cells, fp);
    WriteFreeChangesNoVariable(e.ifTrue, a.env, cells, fp);
    WriteFreeChangesNoVariable(e.ifFalse, a.env, cells, fp);
    ExtendsTransitive(env, a.env, Evaluate(e.ifTrue, a.env, cells, fp).env);
    ExtendsTransitive(env, a.env, Evaluate(e.ifFalse, a.env, cells, fp).env);
  }

  lemma {:induction false} PairChangesNoVariable(parent: Expr, l: Expr, r: Expr, env: Env, cells: Snapshot, fp: FloatOps)
    requires l < parent && r < parent && WriteFree(l) && WriteFree(r)
    ensures var a := Evaluate(l, env, cells, fp);
      && Extends(env, a.env)
      && (a.Returned? ==> Extends(env, Evaluate(r, a.env, cells, fp).env))
    decreases parent, 0
  {
    WriteFreeChangesNoVariable(l, env, cells, fp);
    var a := Evaluate(l, env, cells, fp);
    if a.Returned? {
      WriteFreeChangesNoVariable(r, a.env, cells, fp);
      ExtendsTransitive(env, a.env, Evaluate(r, a.env, cells, fp).env);
    }
  }

  lemma {:induction false} StatementsChangeNoVariable(b: Expr, k: nat, env: Env, last: Value, cells: Snapshot, fp: FloatOps)
    requires b.Block? && k <= |b.statements| && WriteFree(b)
    ensures Extends(env, EvalStatements(b, k, env, last, cells, fp).env)
    decreases b, 0, |b.statements| - k
  {
    if k < |b.statements| {
      WriteFreeChangesNoVariable(b.statements[k], env, cells, fp);
      var o := Evaluate(b.statements[k], env, cells, fp);
      if o.Returned? {
        StatementsChangeNoVariable(b, k + 1, o.env, o.value, cells, fp);
        ExtendsTransitive(env, o.env, EvalStatements(b, k + 1, o.env, o.value, cells, fp).env);
      }
    }
  }

  // Blocks.

  /** A block returns what its last statement returns, in the table the
      statements before it left; a statement that raises ends the block;
      an empty block returns null. */
  lemma BlockReturnsLast(stmts: seq<Expr>, s: Expr, env: Env, cells: Snapshot, fp: FloatOps)
    ensures Evaluate(Block([]), env, cells, fp) == Returned(None, env)
    ensures var o := Evaluate(Block(stmts), env, cells, fp);
      && (o.Returned? ==> Evaluate(Block(stmts + [s]), env, cells, fp) == Evaluate(s, o.env, cells, fp))
      && (o.Raised? ==> Evaluate(Block(stmts + [s]), env, cells, fp) == o)
  {
    StatementsPrefix(stmts, s, 0, env, None, cells, fp);
  }

  lemma {:induction false} StatementsPrefix(stmts: seq<Expr>, s: Expr, k: nat, env: Env, last: Value,
                                            cells: Snapshot, fp: FloatOps)
    requires k <= |stmts|
    ensures var o := EvalStatements(Block(stmts), k, env, last, cells, fp);
            var o' := EvalStatements(Block(stmts + [s]), k, env, last, cells, fp);
      && (o.Returned? ==> o' == Evaluate(s, o.env, cells, fp))
      && (o.Raised? ==> o' == o)
    decreases |stmts| - k
  {
    var full := Block(stmts + [s]);
    assert full.statements[k] == (if k < |stmts| then stmts[k] else s);
    if k == |stmts| {
      var o := Evaluate(s, env, cells, fp);
      if o.Returned? {
        assert EvalStatements(full, k + 1, o.env, o.value, cells, fp) == Returned(o.value, o.env);
      }
    } else {
      var o := Evaluate(stmts[k], env, cells, fp);
      if o.Returned? {
        StatementsPrefix(stmts, s, k + 1, o.env, o.value, cells, fp);
      }
    }
  }

  // Statistics.

  /** A statistic over two literal addresses fails exactly when they are
      out of order or the rectangle leaves the grid, changes no variable,
      and otherwise returns the statistic of the rectangle's cells taken in
      row-major order. */
  lemma StatOverLiterals(k: StatKind, r0: int32, c0: int32, r1: int32, c1: int32,
                         env: Env, cells: Snapshot, fp: FloatOps)
    ensures var rect := Rect(r0, c0, r1, c1);
            var o := Evaluate(Stat(k, Literal(CellAddress(r0, c0)), Literal(CellAddress(r1, c1))), env, cells, fp);
      && o.env == env
      && (o.Raised? <==> !rect.Ordered() || !rect.Inside())
      && (!rect.Ordered() ==> o.message == "Cells must be ordered (topLeft, bottomRight)")
      && (rect.Ordered() && !rect.Inside() ==> o.message == OutOfRange)
      && (rect.Ordered() && rect.Inside() ==> o.value == Some(StatOf(k, RectValues(cells, rect), fp)))
  {
    var tl, br := Literal(CellAddress(r0, c0)), Literal(CellAddress(r1, c1));
    assert Evaluate(tl, env, cells, fp) == Returned(Some(CellAddress(r0, c0)), env);
    assert Evaluate(br, env, cells, fp) == Returned(Some(CellAddress(r1, c1)), env);
    assert Evaluate(Stat(k, tl, br), env, cells, fp) == EvalStat(Stat(k, tl, br), env, cells, fp);
  }

  /** `max` over a rectangle inside the grid: -infinity when it holds no
      number, and otherwise the float of a number held by one of its cells
      that no cell's number exceeds. */
  lemma MaxOverRectangle(cells: Snapshot, rect: Rect, fp: FloatOps)
    requires rect.Inside() && rect.Ordered()
    ensures var xs := Numbers(RectValues(cells, rect), fp);
      && (xs == [] ==> StatOf(Max, RectValues(cells, rect), fp) == Float(fp.negInf))
      && (xs != [] ==> exists m, r, c ::
            && StatOf(Max, RectValues(cells, rect), fp) == Float(fp.fromReal(m))
            && rect.Holds(r, c)
            && NumberOf(cells[Index(r, c)], fp) == Some(m)
            && forall r', c' :: rect.Holds(r', c') && NumberOf(cells[Index(r', c')], fp).Some? ==> NumberOf(cells[Index(r', c')], fp).value <= m)
  {
    var vs := RectValues(cells, rect);
    var xs := Numbers(vs, fp);
    TallyAccumulates(vs, fp);
    MaxIsGreatest(xs);
    if xs != [] {
      var m := MaxOf(xs).value;
      NumberFromCell(vs, m, fp);
      var v :| v in vs && NumberOf(v, fp) == Some(m);
      BeforeMembers(cells, rect, rect.bottom, rect.right + 1, v);
      var r, c :| rect.top <= r <= rect.bottom && rect.left <= c <= rect.right
                  && Precedes(r, c, rect.bottom, rect.right + 1) && CellAt(cells, r, c) == v;
      assert rect.Holds(r, c);
      forall r', c' | rect.Holds(r', c')
                      && NumberOf(cells[Index(r', c')], fp).Some?
        ensures NumberOf(cells[Index(r', c')], fp).value <= m
      {
        BeforeContains(cells, rect, rect.bottom, rect.right + 1, r', c');
        CellGivesNumber(vs, cells[Index(r', c')], fp);
      }
    }
  }

  /** `min` mirrors `max`, seeded with +infinity. */
  lemma MinOverRectangle(cells: Snapshot, rect: Rect, fp: FloatOps)
    requires rect.Inside() && rect.Ordered()
    ensures var xs := Numbers(RectValues(cells, rect), fp);
      && (xs == [] ==> StatOf(Min, RectValues(cells, rect), fp) == Float(fp.posInf))
      && (xs != [] ==> exists m, r, c ::
            && StatOf(Min, RectValues(cells, rect), fp) == Float(fp.fromReal(m))
            && rect.Holds(r, c)
            && NumberOf(cells[Index(r, c)], fp) == Some(m)
            && forall r', c' :: rect.Holds(r', c') && NumberOf(cells[Index(r', c')], fp).Some? ==> m <= NumberOf(cells[Index(r', c')], fp).value)
  {
    var vs := RectValues(cells, rect);
    var xs := Numbers(vs, fp);
    TallyAccumulates(vs, fp);
    MinIsLeast(xs);
    if xs != [] {
      var m := MinOf(xs).value;
      NumberFromCell(vs, m, fp);
      var v :| v in vs && NumberOf(v, fp) == Some(m);
      BeforeMembers(cells, rect, rect.bottom, rect.right + 1, v);
      var r, c :| rect.top <= r <= rect.bottom && rect.left <= c <= rect.right
                  && Precedes(r, c, rect.bottom, rect.right + 1) && CellAt(cells, r, c) == v;
      assert rect.Holds(r, c);
      forall r', c' | rect.Holds(r', c')
                      && NumberOf(cells[Index(r', c')], fp).Some?
        ensures m <= NumberOf(cells[Index(r', c')], fp).value
      {
        BeforeContains(cells, rect, rect.bottom, rect.right + 1, r', c');
        CellGivesNumber(vs, cells[Index(r', c')], fp);
      }
    }
  }

  // Loops.

  /** What a read of a cell's primitive through a variable gives. */
  function ReadBack(v: Value): Prim {
    if v.Some? then v.value else Integer(0)
  }

  /** A loop whose body just reads the loop variable, over a rectangle
      inside the grid, returns the primitive of the bottom-right cell and
      leaves the variable bound to that cell's primitive. */
  lemma {:induction false} ForReadingVariableEndsAtLastCell(f: Expr, rect: Rect, i: int, j: int, env: Env, last: Value,
                                                            cells: Snapshot, fp: FloatOps)
    requires f.ForExpr? && f.variable.Variable? && f.body == f.variable && rect.Ordered() && rect.Inside()
    requires rect.top <= i <= rect.bottom && rect.left <= j <= rect.right + 1
    requires i < rect.bottom || j <= rect.right
    ensures var v := cells[Index(rect.bottom, rect.right)];
            ForCells(f, rect, i, j, env, last, cells, fp)
            == Returned(Some(ReadBack(v)), SetVariable(env, f.variable.name, v))
    decreases rect.bottom + 1 - i, rect.right + 1 - j
  {
    var name := f.variable.name;
    if j > rect.right {
      ForReadingVariableEndsAtLastCell(f, rect, i + 1, rect.left, env, last, cells, fp);
    } else {
      var v := cells[Index(i, j)];
      var env' := SetVariable(env, name, v);
      assert Evaluate(f.body, env', cells, fp) == Returned(Some(ReadBack(v)), env');
      if i == rect.bottom && j == rect.right {
        assert ForCells(f, rect, i, j + 1, env', Some(ReadBack(v)), cells, fp) == Returned(Some(ReadBack(v)), env');
      } else {
        ForReadingVariableEndsAtLastCell(f, rect, i, j + 1, env', Some(ReadBack(v)), cells, fp);
        SetTwice(env, name, v, cells[Index(rect.bottom, rect.right)]);
      }
    }
  }
}
