/**
 * The objects a running spreadsheet is made of: cells, the 20 by 13 grid
 * holding them, and the runtime that evaluation reads the grid and the
 * variables through.  `Interpret` is `evaluate` as the program runs it,
 * step by step against a runtime, and is proved to do what the
 * `Evaluation.Evaluate` function says.
 */
module Spreadsheet {
  import opened Wrappers
  import opened Int32
  import opened Expressions
  import opened Operators
  import opened Evaluation

  /** A cell: the source text typed into it, its syntax tree, the primitive
      the tree last evaluated to, and the error shown for it. */
  class Cell {
    var src: string
    var exp: Option<Expr>
    var primitive: Value
    var error: string

    /** The error argument is ignored: a new cell's error is always empty. */
    constructor(src: string, exp: Option<Expr>, primitive: Value, error: string)
      ensures this.src == src && this.exp == exp && this.primitive == primitive
      ensures this.error == ""
    {
      this.src := src;
      this.exp := exp;
      this.primitive := primitive;
      this.error := "";
    }

    function GetString(): string
      reads this
    {
      src
    }

    function GetExpression(): Option<Expr>
      reads this
    {
      exp
    }

    /** A copy of the stored primitive, or null when there is none. */
    function GetPrimitive(): Value
      reads this
    {
      primitive
    }

    function GetError(): string
      reads this
    {
      error
    }

    method SetStr(s: string)
      modifies this
      ensures GetString() == s
      ensures exp == old(exp) && primitive == old(primitive) && error == old(error)
    {
      src := s;
    }

    /** Replaces the tree; the runtime argument of the source is unused. */
    method SetExpression(e: Option<Expr>)
      modifies this
      ensures GetExpression() == e
      ensures src == old(src) && primitive == old(primitive) && error == old(error)
    {
      exp := e;
    }

    method SetPrimitive(p: Value)
      modifies this
      ensures GetPrimitive() == p
      ensures src == old(src) && exp == old(exp) && error == old(error)
    {
      primitive := p;
    }

    method SetError(e: string)
      modifies this
      ensures GetError() == e
      ensures src == old(src) && exp == old(exp) && primitive == old(primitive)
    {
      error := e;
    }
  }

  /** What one `updateGrid` pass has done once it has visited the first
      cells in row-major order: the primitives, the variables, and the
      message of the exception that ended the pass early, if one did. */
  datatype PassState = PassState(cells: Snapshot, env: Env, failure: Option<string>)

  /** What visiting cell `k`, whose tree is `e`, does to the state of the
      pass: a cell with a tree gets the primitive the tree evaluates to
      against the grid as the pass has left it so far; an exception ends
      the pass. */
  function PassStep(e: Option<Expr>, s: PassState, k: nat, fp: FloatOps): PassState
    requires k < CellCount
  {
    if s.failure.Some? || e.None? then s
    else
      var o := Evaluate(e.value, s.env, s.cells, fp);
      if o.Raised? then PassState(s.cells, o.env, Some(o.message))
      else PassState(s.cells[k := o.value], o.env, None)
  }

  /** The state after the first `k` cells of the pass. */
  function PassUpTo(exprs: seq<Option<Expr>>, cells: Snapshot, env: Env, k: nat, fp: FloatOps): PassState
    requires |exprs| == CellCount && k <= CellCount
  {
    if k == 0 then PassState(cells, env, None)
    else PassStep(exprs[k - 1], PassUpTo(exprs, cells, env, k - 1, fp), k - 1, fp)
  }

  /** The fixed 20 by 13 table of cells. */
  class Grid {
    const cells: array2<Cell?>
    ghost var Repr: set<Cell>

    /** Every place holds its own cell. */
    ghost predicate Valid()
      reads this, cells
    {
      && cells.Length0 == Rows && cells.Length1 == Cols
      && (forall i, j :: 0 <= i < Rows && 0 <= j < Cols ==> cells[i, j] != null && cells[i, j] in Repr)
      && (forall i, j, i', j' ::
            0 <= i < Rows && 0 <= j < Cols && 0 <= i' < Rows && 0 <= j' < Cols && cells[i, j] == cells[i', j'] ==>
              i == i' && j == j')
    }

    /** The primitive of every cell, row by row. */
    ghost function Values(): Snapshot
      requires Valid()
      reads this, cells, Repr
    {
      seq(CellCount, k requires 0 <= k < CellCount && Valid() reads this, cells, Repr =>
        IndexOfDivMod(k); cells[k / 13, k % 13].primitive)
    }

    /** The tree of every cell, row by row. */
    ghost function Exprs(): (es: seq<Option<Expr>>)
      requires Valid()
      reads this, cells, Repr
      ensures |es| == CellCount
    {
      seq(CellCount, k requires 0 <= k < CellCount && Valid() reads this, cells, Repr =>
        IndexOfDivMod(k); cells[k / 13, k % 13].exp)
    }

    /** The source text and the error of every cell, row by row. */
    ghost function Texts(): (ts: seq<(string, string)>)
      requires Valid()
      reads this, cells, Repr
      ensures |ts| == CellCount
    {
      seq(CellCount, k requires 0 <= k < CellCount && Valid() reads this, cells, Repr =>
        IndexOfDivMod(k); (cells[k / 13, k % 13].src, cells[k / 13, k % 13].error))
    }

    lemma ValuesAt(r: int, c: int)
      requires Valid() && InGrid(r, c)
      ensures Values()[Index(r, c)] == cells[r, c].primitive
      ensures Exprs()[Index(r, c)] == cells[r, c].exp
      ensures Texts()[Index(r, c)] == (cells[r, c].src, cells[r, c].error)
    {
      IndexOfDivMod(Index(r, c));
      IndexInjective(r, c, Index(r, c) / 13, Index(r, c) % 13);
    }

    /** Every cell gets the source "", the tree `""`, the primitive that
        tree evaluates to (the string ""), and no error. */
    constructor()
      ensures Valid() && fresh(cells) && fresh(Repr)
      ensures forall i, j :: 0 <= i < Rows && 0 <= j < Cols ==>
                && cells[i, j].src == "" && cells[i, j].exp == Some(Literal(Str("")))
                && cells[i, j].primitive == Some(Str("")) && cells[i, j].error == ""
    {
      var a := new Cell?[Rows, Cols]((i, j) => null);
      ghost var R: set<Cell> := {};
      var i := 0;
      while i < Rows
        invariant 0 <= i <= Rows
        invariant forall r, c :: 0 <= r < i && 0 <= c < Cols ==>
                    && a[r, c] != null && a[r, c] in R
                    && a[r, c].src == "" && a[r, c].exp == Some(Literal(Str("")))
                    && a[r, c].primitive == Some(Str("")) && a[r, c].error == ""
        invariant forall r, c, r', c' ::
                    0 <= r < i && 0 <= c < Cols && 0 <= r' < i && 0 <= c' < Cols && a[r, c] == a[r', c'] ==>
                      r == r' && c == c'
        invariant forall x :: x in R ==> fresh(x)
      {
        var j := 0;
        while j < Cols
          invariant 0 <= j <= Cols
          invariant forall r, c :: Precedes(r, c, i, j) && 0 <= r && 0 <= c < Cols ==>
                      && a[r, c] != null && a[r, c] in R
                      && a[r, c].src == "" && a[r, c].exp == Some(Literal(Str("")))
                      && a[r, c].primitive == Some(Str("")) && a[r, c].error == ""
          invariant forall r, c, r', c' ::
                      (Precedes(r, c, i, j) && 0 <= r && 0 <= c < Cols) && (Precedes(r', c', i, j) && 0 <= r' && 0 <= c' < Cols)
                      && a[r, c] == a[r', c'] ==>
                        r == r' && c == c'
          invariant forall x :: x in R ==> fresh(x)
        {
          var cell := new Cell("", Some(Literal(Str(""))), Some(Str("")), "");
          a[i, j] := cell;
          R := R + {cell};
          j := j + 1;
        }
        i := i + 1;
      }
      cells := a;
      Repr := R;
    }

    /** `getValue`: the primitive of the cell at (row, col), or the
        out-of-range error. */
    method GetValue(row: int, col: int) returns (res: Result<Value>)
      requires Valid()
      ensures res == CellValue(Values(), row, col)
    {
      if row < 0 || row >= Rows || col < 0 || col >= Cols {
        return Err(OutOfRange);
      }
      var cell := cells[row, col];
      ValuesAt(row, col);
      res := Ok(cell.GetPrimitive());
    }

    method GetCell(row: int, col: int) returns (cell: Cell)
      requires Valid() && InGrid(row, col)
      ensures cell == cells[row, col]
    {
      cell := cells[row, col];
    }

    /** Replaces the primitive of one cell and nothing else. */
    method SetPrimitiveAt(row: int, col: int, p: Value)
      requires Valid() && InGrid(row, col)
      modifies cells[row, col]
      ensures Valid()
      ensures Values() == old(Values())[Index(row, col) := p]
      ensures Exprs() == old(Exprs()) && Texts() == old(Texts())
    {
      ghost var before, exprs, texts := Values(), Exprs(), Texts();
      var cell := cells[row, col];
      cell.SetPrimitive(p);
      forall k | 0 <= k < CellCount
        ensures Values()[k] == before[Index(row, col) := p][k] && Exprs()[k] == exprs[k] && Texts()[k] == texts[k]
      {
        IndexOfDivMod(k);
        IndexInjective(row, col, k / 13, k % 13);
      }
    }

    /** One step of `updateGrid`: a cell with a tree gets the primitive the
        tree evaluates to; nothing else in the grid changes. */
    method RefreshCell(row: int, col: int, runtime: Runtime, ghost exprs: seq<Option<Expr>>, ghost s: PassState)
      returns (raised: Option<string>)
      requires Valid() && runtime.grid == this && InGrid(row, col)
      requires exprs == Exprs() && s == PassState(Values(), runtime.variables, None)
      modifies cells[row, col], runtime
      ensures Valid() && Exprs() == exprs && Texts() == old(Texts())
      ensures PassState(Values(), runtime.variables, raised) == PassStep(exprs[Index(row, col)], s, Index(row, col), runtime.fp)
    {
      ValuesAt(row, col);
      var cell := cells[row, col];
      var exp := cell.GetExpression();
      raised := None;
      if exp.Some? {
        var r := Interpret(exp.value, runtime);
        if r.Err? {
          return Some(r.error);
        }
        SetPrimitiveAt(row, col, r.value);
      }
    }

    /** Cell (row, col) as the pass reaches it. */
    method VisitCell(row: int, col: int, runtime: Runtime, ghost cells0: Snapshot, ghost env0: Env)
      returns (raised: Option<string>)
      requires Valid() && runtime.grid == this && InGrid(row, col)
      requires PassUpTo(Exprs(), cells0, env0, Index(row, col), runtime.fp) == PassState(Values(), runtime.variables, None)
      modifies cells[row, col], runtime
      ensures Valid() && Exprs() == old(Exprs()) && Texts() == old(Texts())
      ensures raised.None? ==>
        PassUpTo(Exprs(), cells0, env0, Index(row, col) + 1, runtime.fp) == PassState(Values(), runtime.variables, None)
      ensures raised.Some? ==>
        PassUpTo(Exprs(), cells0, env0, CellCount, runtime.fp) == PassState(Values(), runtime.variables, raised)
    {
      ghost var exprs := Exprs();
      ghost var k := Index(row, col);
      ghost var before := PassState(Values(), runtime.variables, None);
      raised := RefreshCell(row, col, runtime, exprs, before);
      PassNext(exprs, cells0, env0, k, runtime.fp);
      if raised.Some? {
        PassStops(exprs, cells0, env0, k + 1, runtime.fp);
      }
    }

    /** `setCell`: the tree is evaluated first; when that throws, the cell
        is left as it was (though the variables keep what evaluation did to
        them); otherwise the cell gets the primitive, the tree, the source
        and the error. No other cell changes. */
    method SetCell(row: int, col: int, src: string, exp: Expr, runtime: Runtime, error: string)
      returns (raised: Option<string>)
      requires Valid() && runtime.grid.Valid() && InGrid(row, col)
      modifies cells[row, col], runtime
      ensures Valid()
      ensures var o := Evaluate(exp, old(runtime.variables), old(runtime.grid.Values()), runtime.fp);
        && runtime.variables == o.env
        && (o.Raised? ==> raised == Some(o.message) && Values() == old(Values()) && Exprs() == old(Exprs())
                          && Texts() == old(Texts()))
        && (o.Returned? ==> raised == None && Values() == old(Values())[Index(row, col) := o.value]
                            && Exprs() == old(Exprs())[Index(row, col) := Some(exp)]
                            && Texts() == old(Texts())[Index(row, col) := (src, error)])
    {
      var r := Interpret(exp, runtime);
      match r
      case Err(m) =>
        raised := Some(m);
      case Ok(v) =>
        StoreAt(row, col, v, exp, src, error);
        raised := None;
    }

    /** The four setters `setCell` calls on the cell at (row, col), once
        its tree has evaluated to `p`; no other cell changes. */
    method StoreAt(row: int, col: int, p: Value, exp: Expr, src: string, error: string)
      requires Valid() && InGrid(row, col)
      modifies cells[row, col]
      ensures Valid()
      ensures Values() == old(Values())[Index(row, col) := p]
      ensures Exprs() == old(Exprs())[Index(row, col) := Some(exp)]
      ensures Texts() == old(Texts())[Index(row, col) := (src, error)]
    {
      ghost var before, exprs, texts := Values(), Exprs(), Texts();
      var cell := cells[row, col];
      cell.SetPrimitive(p);
      cell.SetExpression(Some(exp));
      cell.SetStr(src);
      cell.SetError(error);
      forall k | 0 <= k < CellCount
        ensures Values()[k] == before[Index(row, col) := p][k]
        ensures Exprs()[k] == exprs[Index(row, col) := Some(exp)][k]
        ensures Texts()[k] == texts[Index(row, col) := (src, error)][k]
      {
        IndexOfDivMod(k);
        IndexInjective(row, col, k / 13, k % 13);
      }
    }

    /** `updateGrid`: one pass over the cells in row-major order that
        re-evaluates each tree and replaces only the cell's primitive; an
        exception ends the pass. */
    method UpdateGrid(runtime: Runtime) returns (raised: Option<string>)
      requires Valid() && runtime.grid == this
      modifies Repr, runtime
      ensures Valid()
      ensures var s := PassUpTo(old(Exprs()), old(Values()), old(runtime.variables), CellCount, runtime.fp);
        Values() == s.cells && runtime.variables == s.env && raised == s.failure
      ensures Exprs() == old(Exprs()) && Texts() == old(Texts())
    {
      ghost var exprs, texts, cells0, env0 := Exprs(), Texts(), Values(), runtime.variables;
      var i := 0;
      while i < Rows
        invariant 0 <= i <= Rows
        invariant Valid() && Exprs() == exprs && Texts() == texts
        invariant PassUpTo(exprs, cells0, env0, i * Cols, runtime.fp) == PassState(Values(), runtime.variables, None)
      {
        raised := RefreshRow(i, runtime, cells0, env0);
        if raised.Some? {
          return;
        }
        i := i + 1;
      }
      raised := None;
    }

    /** The inner loop of `updateGrid`: the cells of row `i`, left to right. */
    method RefreshRow(i: int, runtime: Runtime, ghost cells0: Snapshot, ghost env0: Env) returns (raised: Option<string>)
      requires Valid() && runtime.grid == this && 0 <= i < Rows
      requires PassUpTo(Exprs(), cells0, env0, i * Cols, runtime.fp) == PassState(Values(), runtime.variables, None)
      modifies Repr, runtime
      ensures Valid() && Exprs() == old(Exprs()) && Texts() == old(Texts())
      ensures raised.Some? ==>
                PassUpTo(Exprs(), cells0, env0, CellCount, runtime.fp) == PassState(Values(), runtime.variables, raised)
      ensures raised.None? ==>
                PassUpTo(Exprs(), cells0, env0, (i + 1) * Cols, runtime.fp) == PassState(Values(), runtime.variables, None)
    {
      ghost var exprs, texts := Exprs(), Texts();
      var j := 0;
      while j < Cols
        invariant 0 <= j <= Cols
        invariant Valid() && Exprs() == exprs && Texts() == texts
        invariant PassUpTo(exprs, cells0, env0, i * Cols + j, runtime.fp) == PassState(Values(), runtime.variables, None)
      {
        assert Index(i, j) == i * Cols + j;
        raised := VisitCell(i, j, runtime, cells0, env0);
        if raised.Some? {
          return;
        }
        j := j + 1;
      }
      assert i * Cols + j == (i + 1) * Cols;
      raised := None;
    }
  }

  /** Visiting one more cell is one more step. */
  lemma PassNext(exprs: seq<Option<Expr>>, cells: Snapshot, env: Env, k: nat, fp: FloatOps)
    requires |exprs| == CellCount && k < CellCount
    ensures PassUpTo(exprs, cells, env, k + 1, fp) == PassStep(exprs[k], PassUpTo(exprs, cells, env, k, fp), k, fp)
  {
  }

  /** Once the pass has failed, the later cells change nothing. */
  lemma {:induction false} PassStops(exprs: seq<Option<Expr>>, cells: Snapshot, env: Env, k: nat, fp: FloatOps)
    requires |exprs| == CellCount && k <= CellCount
    requires PassUpTo(exprs, cells, env, k, fp).failure.Some?
    ensures PassUpTo(exprs, cells, env, CellCount, fp) == PassUpTo(exprs, cells, env, k, fp)
    decreases CellCount - k
  {
    if k < CellCount {
      PassStops(exprs, cells, env, k + 1, fp);
    }
  }

  /** During the pass, the cells not yet visited still hold the primitives
      they held before it: a tree reading a later cell sees that cell's old
      value. */
  lemma {:induction false} PassLeavesLaterCells(exprs: seq<Option<Expr>>, cells: Snapshot, env: Env, k: nat, m: nat, fp: FloatOps)
    requires |exprs| == CellCount && k <= m < CellCount
    ensures PassUpTo(exprs, cells, env, k, fp).cells[m] == cells[m]
  {
    if k > 0 {
      PassLeavesLaterCells(exprs, cells, env, k - 1, m, fp);
    }
  }

  /** ... while a visited cell keeps the primitive the pass gave it: a tree
      reading an earlier cell sees that cell's new value. */
  lemma {:induction false} PassKeepsEarlierCells(exprs: seq<Option<Expr>>, cells: Snapshot, env: Env, k: nat, m: nat, fp: FloatOps)
    requires |exprs| == CellCount && m < k <= CellCount
    ensures PassUpTo(exprs, cells, env, k, fp).cells[m] == PassUpTo(exprs, cells, env, m + 1, fp).cells[m]
  {
    if k > m + 1 {
      PassKeepsEarlierCells(exprs, cells, env, k - 1, m, fp);
    }
  }

  /** The variables and the grid an evaluation reads. */
  class Runtime {
    const grid: Grid
    const fp: FloatOps
    var variables: Env

    /** A runtime over `grid`, with no variables; `fp` supplies the float
        behaviour. */
    constructor(grid: Grid, fp: FloatOps)
      ensures this.grid == grid && this.fp == fp && variables == map[]
    {
      this.grid := grid;
      this.fp := fp;
      variables := map[];
    }

    /** `getCell`: the grid's `getValue`. */
    method GetCell(row: int, col: int) returns (res: Result<Value>)
      requires grid.Valid()
      ensures res == CellValue(grid.Values(), row, col)
    {
      res := grid.GetValue(row, col);
    }

    method SetVariable(name: string, v: Value)
      modifies this
      ensures variables == Evaluation.SetVariable(old(variables), name, v)
    {
      variables := variables[name := v];
    }

    /** `getVariable`: `variables[name]` inserts a null entry for an unknown
        name; null reads as 0, anything else as a copy. */
    method GetVariable(name: string) returns (p: Prim)
      modifies this
      ensures (p, variables) == Evaluation.GetVariable(old(variables), name)
    {
      if name !in variables {
        variables := variables[name := None];
      }
      var stored := variables[name];
      if stored.None? {
        return Integer(0);
      }
      match stored.value
      case Integer(n) => p := Integer(n);
      case Float(x) => p := Float(x);
      case Boolean(b) => p := Boolean(b);
      case Str(s) => p := Str(s);
      case CellAddress(r, c) => p := CellAddress(r, c);
    }
  }

  /** The result `evaluate` hands its caller: the primitive, or the
      exception's message. */
  function Reported(o: Outcome): Result<Value> {
    if o.Returned? then Ok(o.value) else Err(o.message)
  }

  function Lift(res: Result<Prim>): Result<Value> {
    match res
    case Ok(p) => Ok(Some(p))
    case Err(m) => Err(m)
  }

  /** `evaluate` of `e` against the runtime `rt`. */
  method Interpret(e: Expr, rt: Runtime) returns (r: Result<Value>)
    requires rt.grid.Valid()
    modifies rt
    ensures var o := Evaluate(e, old(rt.variables), old(rt.grid.Values()), rt.fp);
            r == Reported(o) && rt.variables == o.env
    decreases e, 2
  {
    match e
    case Literal(p) =>
      r := Ok(Some(p));
    case Binary(_, _, _) =>
      r := InterpretBinary(e, rt);
    case Unary(u, x) =>
      var a :- Interpret(x, rt);
      r := Lift(ApplyUnary(u, a, rt.fp));
    case LValue(_, _) =>
      r := InterpretLValue(e, rt);
    case RValue(_, _) =>
      r := InterpretRValue(e, rt);
    case Stat(_, _, _) =>
      r := InterpretStat(e, rt);
    case Block(_) =>
      r := RunBlock(e, rt);
    case Variable(n) =>
      var p := rt.GetVariable(n);
      r := Ok(Some(p));
    case Assignment(_, _) =>
      r := InterpretAssignment(e, rt);
    case IfExpr(_, _, _) =>
      r := InterpretIf(e, rt);
    case ForExpr(_, _, _, _) =>
      r := InterpretFor(e, rt);
  }

  /** `BinaryOperator::evaluate`: both operands, left first, and then the
      operator on their primitives. */
  method InterpretBinary(e: Expr, rt: Runtime) returns (r: Result<Value>)
    requires e.Binary? && rt.grid.Valid()
    modifies rt
    ensures var o := Evaluate(e, old(rt.variables), old(rt.grid.Values()), rt.fp);
            r == Reported(o) && rt.variables == o.env
    decreases e, 1
  {
    ghost var env0, cells := rt.variables, rt.grid.Values();
    assert Evaluate(e, env0, cells, rt.fp) == EvalBinary(e, env0, cells, rt.fp);
    var a :- Interpret(e.left, rt);
    assert EvalBinary(e, env0, cells, rt.fp) == EvalRight(e, a, rt.variables, cells, rt.fp);
    var b :- Interpret(e.right, rt);
    r := Lift(ApplyBinary(e.op, a, b, rt.fp));
  }

  /** `LValue::evaluate`: the address the row and column operands give. */
  method InterpretLValue(e: Expr, rt: Runtime) returns (r: Result<Value>)
    requires e.LValue? && rt.grid.Valid()
    modifies rt
    ensures var o := Evaluate(e, old(rt.variables), old(rt.grid.Values()), rt.fp);
            r == Reported(o) && rt.variables == o.env
    decreases e, 1
  {
    var a :- Interpret(e.row, rt);
    var b :- Interpret(e.col, rt);
    r := Lift(AddressOf(a, b));
  }

  /** `RValue::evaluate`: the primitive of the cell whose row and column
      the two operands give. */
  method InterpretRValue(e: Expr, rt: Runtime) returns (r: Result<Value>)
    requires e.RValue? && rt.grid.Valid()
    modifies rt
    ensures var o := Evaluate(e, old(rt.variables), old(rt.grid.Values()), rt.fp);
            r == Reported(o) && rt.variables == o.env
    decreases e, 1
  {
    var a :- Interpret(e.row, rt);
    var b :- Interpret(e.col, rt);
    var pair := IntPair(a, b, "Unsupported types for RValue");
    if pair.Err? {
      return Err(pair.error);
    }
    r := rt.GetCell(pair.value.0, pair.value.1);
  }

  /** `Max::evaluate` and its siblings: the statistic over the rectangle
      the two corner operands give. */
  method InterpretStat(e: Expr, rt: Runtime) returns (r: Result<Value>)
    requires e.Stat? && rt.grid.Valid()
    modifies rt
    ensures var o := Evaluate(e, old(rt.variables), old(rt.grid.Values()), rt.fp);
            r == Reported(o) && rt.variables == o.env
    decreases e, 1
  {
    var a :- Interpret(e.topLeft, rt);
    var b :- Interpret(e.bottomRight, rt);
    var corners := Corners(a, b);
    if corners.Err? {
      return Err(corners.error);
    }
    r := Statistic(e.kind, corners.value, rt);
  }

  /** `Assignment::evaluate`: the source is evaluated, stored in the
      variable, and evaluated once more for the result. */
  method InterpretAssignment(e: Expr, rt: Runtime) returns (r: Result<Value>)
    requires e.Assignment? && rt.grid.Valid()
    modifies rt
    ensures var o := Evaluate(e, old(rt.variables), old(rt.grid.Values()), rt.fp);
            r == Reported(o) && rt.variables == o.env
    decreases e, 1
  {
    var a :- Interpret(e.source, rt);
    if !e.target.Variable? {
      return Err(BadCast);
    }
    rt.SetVariable(e.target.name, a);
    r := Interpret(e.source, rt);
  }

  /** `IfExpr::evaluate`: the condition has to be a Boolean. */
  method InterpretIf(e: Expr, rt: Runtime) returns (r: Result<Value>)
    requires e.IfExpr? && rt.grid.Valid()
    modifies rt
    ensures var o := Evaluate(e, old(rt.variables), old(rt.grid.Values()), rt.fp);
            r == Reported(o) && rt.variables == o.env
    decreases e, 1
  {
    var a :- Interpret(e.condition, rt);
    if a.None? {
      return Err(BadTypeid);
    }
    if !a.value.Boolean? {
      return Err(NotBoolean);
    }
    if a.value.b {
      r := Interpret(e.ifTrue, rt);
    } else {
      r := Interpret(e.ifFalse, rt);
    }
  }

  /** `ForExpr::evaluate`: the loop variable has to be a variable, and the
      two bounds give the rectangle of cells to run the body for. */
  method InterpretFor(e: Expr, rt: Runtime) returns (r: Result<Value>)
    requires e.ForExpr? && rt.grid.Valid()
    modifies rt
    ensures var o := Evaluate(e, old(rt.variables), old(rt.grid.Values()), rt.fp);
            r == Reported(o) && rt.variables == o.env
    decreases e, 1
  {
    if !e.variable.Variable? {
      return Err(InvalidLoopVariable);
    }
    var a :- Interpret(e.from, rt);
    var b :- Interpret(e.to, rt);
    var corners := Corners(a, b);
    if corners.Err? {
      return Err(corners.error);
    }
    r := RunFor(e, corners.value, rt);
  }

  /** `Block::evaluate`: each statement in turn, keeping what the last one
      returned. */
  method RunBlock(b: Expr, rt: Runtime) returns (r: Result<Value>)
    requires b.Block? && rt.grid.Valid()
    modifies rt
    ensures var o := EvalStatements(b, 0, old(rt.variables), None, old(rt.grid.Values()), rt.fp);
            r == Reported(o) && rt.variables == o.env
    decreases b, 1
  {
    ghost var cells, env0 := rt.grid.Values(), rt.variables;
    var ret: Value := None;
    var k := 0;
    while k < |b.statements|
      invariant 0 <= k <= |b.statements|
      invariant rt.grid.Valid() && rt.grid.Values() == cells
      invariant EvalStatements(b, k, rt.variables, ret, cells, rt.fp) == EvalStatements(b, 0, env0, None, cells, rt.fp)
    {
      ret :- Interpret(b.statements[k], rt);
      k := k + 1;
    }
    r := Ok(ret);
  }

  /** `ForExpr::evaluate` once the corners are known: for each cell in
      row-major order, bind the variable to the cell's primitive and run
      the body; the result is what the last run returned. */
  method RunFor(f: Expr, rect: Rect, rt: Runtime) returns (r: Result<Value>)
    requires f.ForExpr? && f.variable.Variable? && rect.Ordered() && rt.grid.Valid()
    modifies rt
    ensures var o := ForCells(f, rect, rect.top, rect.left, old(rt.variables), None, old(rt.grid.Values()), rt.fp);
            r == Reported(o) && rt.variables == o.env
    decreases f, 0, 2
  {
    ghost var cells := rt.grid.Values();
    ghost var whole := ForCells(f, rect, rect.top, rect.left, rt.variables, None, cells, rt.fp);
    var ret: Value := None;
    var i := rect.top;
    while i <= rect.bottom
      invariant rect.top <= i <= rect.bottom + 1
      invariant rt.grid.Valid() && rt.grid.Values() == cells
      invariant ForCells(f, rect, i, rect.left, rt.variables, ret, cells, rt.fp) == whole
    {
      ret :- RunForRow(f, rect, i, rt, ret, cells, rt.variables);
      i := i + 1;
    }
    r := Ok(ret);
  }

  /** The cells of row `i` of a `for` loop, left to right, run against the
      variables `env` and the grid `cells`.  What is left of the loop
      afterwards is what was left of it before. */
  method RunForRow(f: Expr, rect: Rect, i: int, rt: Runtime, last: Value, ghost cells: Snapshot, ghost env: Env)
    returns (r: Result<Value>)
    requires f.ForExpr? && f.variable.Variable? && rect.Ordered() && rt.grid.Valid()
    requires rect.top <= i <= rect.bottom
    requires cells == rt.grid.Values() && env == rt.variables
    modifies rt
    ensures rt.grid.Valid() && rt.grid.Values() == cells
    ensures var rest := ForCells(f, rect, i, rect.left, env, last, cells, rt.fp);
            match r
            case Ok(v) => rest == ForCells(f, rect, i + 1, rect.left, rt.variables, v, cells, rt.fp)
            case Err(m) => rest == Raised(m, rt.variables)
    decreases f, 0, 1
  {
    ghost var rest := ForCells(f, rect, i, rect.left, env, last, cells, rt.fp);
    var ret := last;
    var j := rect.left;
    while j <= rect.right
      invariant rect.left <= j <= rect.right + 1
      invariant rt.grid.Valid() && rt.grid.Values() == cells
      invariant ForCells(f, rect, i, j, rt.variables, ret, cells, rt.fp) == rest
    {
      ret :- RunForCell(f, rect, i, j, rt, ret, cells, rt.variables);
      j := j + 1;
    }
    ForRowEnd(f, rect, i, rt.variables, ret, cells, rt.fp);
    r := Ok(ret);
  }

  /** One iteration of a `for` loop, at cell (i, j), run against the
      variables `env` and the grid `cells`: bind the variable to the cell's
      primitive and run the body.  What is left of the loop afterwards is
      what was left of it before. */
  method RunForCell(f: Expr, rect: Rect, i: int, j: int, rt: Runtime, last: Value, ghost cells: Snapshot, ghost env: Env)
    returns (r: Result<Value>)
    requires f.ForExpr? && f.variable.Variable? && rect.Ordered() && rt.grid.Valid()
    requires rect.top <= i <= rect.bottom && rect.left <= j <= rect.right
    requires cells == rt.grid.Values() && env == rt.variables
    modifies rt
    ensures rt.grid.Valid() && rt.grid.Values() == cells
    ensures var rest := ForCells(f, rect, i, j, env, last, cells, rt.fp);
            match r
            case Ok(v) => rest == ForCells(f, rect, i, j + 1, rt.variables, v, cells, rt.fp)
            case Err(m) => rest == Raised(m, rt.variables)
    decreases f, 0, 0
  {
    var v :- rt.GetCell(i, j);
    rt.SetVariable(f.variable.name, v);
    r := Interpret(f.body, rt);
  }

  /** The cells of `rect` in the rows above row `i`. */
  function Visited(cells: Snapshot, rect: Rect, i: int): seq<Value>
    requires rect.Ordered() && rect.top <= i <= rect.bottom + 1
  {
    if i <= rect.bottom then Before(cells, rect, i, rect.left) else RectValues(cells, rect)
  }

  /** `Max`, `Min`, `Mean` and `Sum` once the corners are known: one
      row-major traversal that skips every cell holding no number, keeping
      a running maximum (seeded with -infinity), minimum (+infinity), sum
      and count. The first cell outside the grid raises. */
  method Statistic(k: StatKind, rect: Rect, rt: Runtime) returns (r: Result<Value>)
    requires rect.Ordered() && rt.grid.Valid()
    ensures r == if rect.Inside() then Ok(Some(StatOf(k, RectValues(rt.grid.Values(), rect), rt.fp)))
                 else Err(OutOfRange)
  {
    ghost var cells := rt.grid.Values();
    var t := Tally(None, None, 0.0, 0);
    var i := rect.top;
    while i <= rect.bottom
      invariant rect.top <= i <= rect.bottom + 1
      invariant i > rect.top ==> InGrid(rect.top, rect.left) && InGrid(i - 1, rect.right)
      invariant t == TallyOf(Visited(cells, rect, i), rt.fp)
    {
      var row := TallyRow(rect, i, rt, t);
      if row.Err? {
        return Err(row.error);
      }
      t := row.value;
      i := i + 1;
    }
    r := Ok(Some(Finish(k, t, rt.fp)));
  }

  /** The inner loop of a statistic: the cells of row `i` of `rect`, left
      to right, added to what the earlier rows accumulated. */
  method TallyRow(rect: Rect, i: int, rt: Runtime, t: Tally) returns (res: Result<Tally>)
    requires rect.Ordered() && rect.top <= i <= rect.bottom && rt.grid.Valid()
    requires t == TallyOf(Before(rt.grid.Values(), rect, i, rect.left), rt.fp)
    ensures res.Ok? <==> InGrid(i, rect.left) && InGrid(i, rect.right)
    ensures res.Ok? ==> res.value == TallyOf(Before(rt.grid.Values(), rect, i, rect.right + 1), rt.fp)
    ensures res.Err? ==> res.error == OutOfRange
  {
    ghost var cells := rt.grid.Values();
    var acc := t;
    var j := rect.left;
    while j <= rect.right
      invariant rect.left <= j <= rect.right + 1
      invariant j > rect.left ==> InGrid(i, rect.left) && InGrid(i, j - 1)
      invariant rt.grid.Values() == cells
      invariant acc == TallyOf(Before(cells, rect, i, j), rt.fp)
    {
      acc :- TallyCell(rect, i, j, rt, acc);
      j := j + 1;
    }
    res := Ok(acc);
  }

  /** One cell of a statistic's loop: the cell at (i, j) added to what the
      cells before it accumulated; a cell outside the grid raises. */
  method TallyCell(rect: Rect, i: int, j: int, rt: Runtime, t: Tally) returns (res: Result<Tally>)
    requires rect.Ordered() && rect.top <= i <= rect.bottom && rect.left <= j <= rect.right && rt.grid.Valid()
    requires t == TallyOf(Before(rt.grid.Values(), rect, i, j), rt.fp)
    ensures res.Ok? <==> InGrid(i, j)
    ensures res.Ok? ==> res.value == TallyOf(Before(rt.grid.Values(), rect, i, j + 1), rt.fp)
    ensures res.Err? ==> res.error == OutOfRange
  {
    var v :- rt.GetCell(i, j);
    TallyNext(rt.grid.Values(), rect, i, j, rt.fp);
    var n := Classify(v, rt.fp);
    res := Ok(t);
    if n.Some? {
      var u := Accumulate(t, n.value);
      res := Ok(u);
    }
  }

  lemma TallyNext(cells: Snapshot, rect: Rect, i: int, j: int, fp: FloatOps)
    requires rect.Ordered() && rect.top <= i <= rect.bottom && rect.left <= j <= rect.right && InGrid(i, j)
    ensures TallyOf(Before(cells, rect, i, j + 1), fp)
         == Count(TallyOf(Before(cells, rect, i, j), fp), NumberOf(cells[Index(i, j)], fp))
  {
    assert Before(cells, rect, i, j + 1) == Before(cells, rect, i, j) + [CellAt(cells, i, j)];
    TallyAppend(Before(cells, rect, i, j), CellAt(cells, i, j), fp);
  }

  /** The type test of a statistic's loop: null cells, Booleans, strings
      and addresses are skipped, integers and floats give their number. */
  method Classify(v: Value, fp: FloatOps) returns (n: Option<real>)
    ensures n == NumberOf(v, fp)
    ensures n.Some? <==> v.Some? && (v.value.Integer? || v.value.Float?)
  {
    if v.None? || v.value.Boolean? || v.value.Str? || v.value.CellAddress? {
      n := None;
    } else if v.value.Integer? {
      n := Some(v.value.i as real);
    } else {
      n := Some(fp.toReal(v.value.f));
    }
  }

  /** The body of a statistic's loop for a cell holding the number `x`. */
  method Accumulate(t: Tally, x: real) returns (u: Tally)
    ensures u == Count(t, Some(x))
  {
    var max, min := t.max, t.min;
    if max.None? || x > max.value {
      max := Some(x);
    }
    if min.None? || x < min.value {
      min := Some(x);
    }
    u := Tally(max, min, t.sum + x, t.count + 1);
  }
}
