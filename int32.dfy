/**
 * The behaviour of C++ `int` that the formula language relies on: 32-bit
 * range, division and remainder truncating toward zero, two's-complement
 * bitwise operators, shifts, `std::pow` on two ints converted back to int,
 * and the decimal conversions `std::to_string` and `std::stoi`.
 *
 * Where C++ leaves a result undefined (signed overflow, a shift by a
 * negative amount or by 32 or more, `INT_MIN / -1`, converting an
 * out-of-range `double` to `int`) the functions here either require the
 * operands to avoid it or return `None`; the evaluator turns `None` into an
 * error outcome.
 */
module Int32 {
  import opened Wrappers

  const MIN: int := -0x8000_0000
  const MAX: int := 0x7FFF_FFFF
  const MODULUS: int := 0x1_0000_0000

  type int32 = x: int | MIN <= x <= MAX

  predicate InRange(x: int) {
    MIN <= x <= MAX
  }

  /** The result of a C++ int operation whose mathematical value is `x`:
      defined only when `x` fits. */
  function Checked(x: int): (r: Option<int32>)
    ensures r.Some? <==> InRange(x)
    ensures r.Some? ==> r.value == x
  {
    if InRange(x) then Some(x) else None
  }

  function Abs(x: int): nat {
    if x < 0 then -x else x
  }

  // ---------------------------------------------------------------- division

  /** C++ `/` on ints: the quotient truncated toward zero. */
  function TruncDiv(a: int, b: int): int
    requires b != 0
  {
    var q := Abs(a) / Abs(b);
    if (a < 0) == (b < 0) then q else -q
  }

  /** C++ `%` on ints: the remainder that goes with `TruncDiv`. */
  function TruncRem(a: int, b: int): int
    requires b != 0
  {
    a - b * TruncDiv(a, b)
  }

  /** The remainder is smaller than the divisor in magnitude and is zero or
      has the sign of the dividend: the two facts that single out
      truncating division among all quotient/remainder pairs. */
  lemma TruncRemBounds(a: int, b: int)
    requires b != 0
    ensures Abs(TruncRem(a, b)) < Abs(b)
    ensures TruncRem(a, b) == 0 || (TruncRem(a, b) < 0 <==> a < 0)
  {
    var q := Abs(a) / Abs(b);
    var r := Abs(a) % Abs(b);
    assert Abs(a) == Abs(b) * q + r;
    if a >= 0 && b > 0 {
      assert TruncRem(a, b) == r;
    } else if a >= 0 && b < 0 {
      assert TruncRem(a, b) == a - b * -q == r;
    } else if a < 0 && b > 0 {
      assert TruncRem(a, b) == a - b * -q == -r;
    } else {
      assert TruncRem(a, b) == a - b * q == -r;
    }
  }

  /** Truncating division commutes with negating the dividend, which is
      what distinguishes it from Dafny's Euclidean `/`. */
  lemma TruncDivNegate(a: int, b: int)
    requires b != 0
    ensures TruncDiv(-a, b) == -TruncDiv(a, b)
    ensures TruncRem(-a, b) == -TruncRem(a, b)
  {
    if a == 0 {
    } else {
      assert Abs(-a) == Abs(a);
    }
  }

  /** The one quotient of two ints that does not fit an int. */
  lemma TruncDivRange(a: int32, b: int32)
    requires b != 0
    ensures InRange(TruncDiv(a, b)) <==> !(a == MIN && b == -1)
  {
    var q := Abs(a) / Abs(b);
    assert q <= Abs(a) by {
      DivIsAtMost(Abs(a), Abs(b));
    }
    if a == MIN && b == -1 {
      assert TruncDiv(a, b) == MAX + 1;
    }
  }

  lemma DivIsAtMost(n: nat, d: nat)
    requires d > 0
    ensures 0 <= n / d <= n
  {
    MulAtLeast(n / d, d);
  }

  lemma MulAtLeast(x: nat, d: nat)
    requires d >= 1
    ensures x <= d * x
  {
  }

  lemma NegativeFactor(p: nat, q: int)
    requires p > 0 && p * q < 0
    ensures q < 0
  {
  }

  /** Dividing a negative number by a positive one (rounding down) stays
      negative and does not decrease it. */
  lemma DivNegative(a: int, p: nat)
    requires a < 0 && p > 0
    ensures a <= a / p < 0
  {
    var q, r := a / p, a % p;
    assert a == p * q + r;
    NegativeFactor(p, q);
    MulAtLeast(p - 1, -q);
    assert (p - 1) * (-q) == q - p * q;
  }

  // -------------------------------------------------------- bit operations

  function Pow2(n: nat): nat
    ensures Pow2(n) > 0
  {
    if n == 0 then 1 else 2 * Pow2(n - 1)
  }

  /** The two's-complement bit pattern of an int, read as an unsigned number. */
  function Unsigned(x: int32): (u: nat)
    ensures u < MODULUS
  {
    if x < 0 then x + MODULUS else x
  }

  /** The int whose two's-complement pattern, read unsigned, is `u`. */
  function Signed(u: nat): int32
    requires u < MODULUS
  {
    if u <= MAX then u else u - MODULUS
  }

  lemma Pow2Is32BitModulus()
    ensures Pow2(32) == MODULUS
  {
    assert Pow2(4) == 16;
    Pow2Add(4, 4);
    Pow2Add(8, 8);
    Pow2Add(16, 16);
  }

  lemma {:induction false} Pow2Add(a: nat, b: nat)
    ensures Pow2(a + b) == Pow2(a) * Pow2(b)
  {
    if a > 0 {
      Pow2Add(a - 1, b);
    }
  }

  lemma SignedUnsigned(x: int32)
    ensures Signed(Unsigned(x)) == x
  {
  }

  datatype BitOp = AndOp | OrOp | XorOp

  function CombineBit(op: BitOp, x: nat, y: nat): nat
    requires x < 2 && y < 2
  {
    match op
    case AndOp => if x == 1 && y == 1 then 1 else 0
    case OrOp => if x == 1 || y == 1 then 1 else 0
    case XorOp => if x != y then 1 else 0
  }

  /** The low `n` bits of `x` and `y` combined bit by bit. */
  function Bitwise(op: BitOp, x: nat, y: nat, n: nat): (r: nat)
    ensures r < Pow2(n)
  {
    if n == 0 then 0
    else 2 * Bitwise(op, x / 2, y / 2, n - 1) + CombineBit(op, x % 2, y % 2)
  }

  /** Each bitwise operator treats its two operands alike. */
  lemma {:induction false} BitwiseCommutes(op: BitOp, x: nat, y: nat, n: nat)
    ensures Bitwise(op, x, y, n) == Bitwise(op, y, x, n)
  {
    if n > 0 {
      BitwiseCommutes(op, x / 2, y / 2, n - 1);
    }
  }

  /** `x ^ x` clears every bit, and `x & y` has no bit that `x | y` lacks
      (it is never larger). */
  lemma {:induction false} BitwiseLaws(x: nat, y: nat, n: nat)
    ensures Bitwise(XorOp, x, x, n) == 0
    ensures Bitwise(AndOp, x, y, n) <= Bitwise(OrOp, x, y, n)
  {
    if n > 0 {
      BitwiseLaws(x / 2, y / 2, n - 1);
    }
  }

  function BitAnd(a: int32, b: int32): int32 {
    Pow2Is32BitModulus();
    Signed(Bitwise(AndOp, Unsigned(a), Unsigned(b), 32))
  }

  function BitOr(a: int32, b: int32): int32 {
    Pow2Is32BitModulus();
    Signed(Bitwise(OrOp, Unsigned(a), Unsigned(b), 32))
  }

  function BitXor(a: int32, b: int32): int32 {
    Pow2Is32BitModulus();
    Signed(Bitwise(XorOp, Unsigned(a), Unsigned(b), 32))
  }

  /** `~a`: every one of the 32 bits flipped. */
  function BitNot(a: int32): int32 {
    Signed(MODULUS - 1 - Unsigned(a))
  }

  /** `~a == -a - 1` in two's complement. */
  lemma BitNotIsNegatePred(a: int32)
    ensures BitNot(a) == -(a as int) - 1
  {
  }

  /** `a << s` (C++20: the int congruent to `a * 2^s` modulo 2^32). */
  function LeftShift(a: int32, s: int32): int32
    requires 0 <= s < 32
  {
    Signed((Unsigned(a) * Pow2(s)) % MODULUS)
  }

  /** `a >> s`: an arithmetic shift, the floor of `a / 2^s` (Dafny's `/` by a
      positive divisor rounds down). */
  function RightShift(a: int32, s: int32): int32
    requires 0 <= s < 32
  {
    RightShiftRange(a, s);
    a / Pow2(s)
  }

  /** An arithmetic right shift moves an int toward -1 or 0 and never
      out of range. */
  lemma RightShiftRange(a: int32, s: nat)
    ensures a >= 0 ==> 0 <= a / Pow2(s) <= a
    ensures a < 0 ==> a <= a / Pow2(s) < 0
  {
    var p := Pow2(s);
    if a >= 0 {
      DivIsAtMost(a, p);
    } else {
      DivNegative(a, p);
    }
  }

  // ------------------------------------------------------------------- pow

  function Power(b: int, e: nat): int {
    if e == 0 then 1 else b * Power(b, e - 1)
  }

  /** `int(std::pow(b, e))` for two ints: `pow` computes in `double`, and
      the result is converted back to `int`.  A non-negative exponent gives
      the exact power (exact in `double` whenever it fits an int); a
      negative exponent gives a fraction that truncates to 0 unless the
      base is 1 or -1; `pow(0, negative)` is infinite.  `None` where the
      conversion to `int` is undefined. */
  function IntPow(b: int32, e: int32): (r: Option<int32>)
    ensures e >= 0 ==> r == Checked(Power(b, e))
    ensures e < 0 && b == 0 ==> r.None?
    ensures e < 0 && Abs(b) >= 2 ==> r == Some(0)
  {
    if e >= 0 then Checked(Power(b, e))
    else if b == 0 then None
    else if b == 1 then Some(1)
    else if b == -1 then Some(if e % 2 == 0 then 1 else -1)
    else Some(0)
  }

  /** For a negative exponent the result is a power of the base's sign. */
  lemma IntPowNegativeExponent(b: int32, e: int32)
    requires e < 0 && Abs(b) == 1
    ensures IntPow(b, e) == Some(Power(b, -(e as int)))
  {
    PowerOfUnit(b, -(e as int));
  }

  lemma {:induction false} PowerOfUnit(b: int, e: nat)
    requires b == 1 || b == -1
    ensures Power(b, e) == if b == 1 || e % 2 == 0 then 1 else -1
  {
    if e > 0 {
      PowerOfUnit(b, e - 1);
    }
  }

  // ------------------------------------------------------- decimal strings

  function DigitChar(d: nat): char
    requires d < 10
  {
    "0123456789"[d]
  }

  predicate IsDigit(c: char) {
    '0' <= c <= '9'
  }

  function DigitValue(c: char): nat
    requires IsDigit(c)
  {
    (c as int) - ('0' as int)
  }

  /** The decimal digits of `n`, most significant first, with no leading
      zeros (`std::to_string` of a non-negative int). */
  function NatToString(n: nat): (s: string)
    ensures |s| > 0
    ensures forall k :: 0 <= k < |s| ==> IsDigit(s[k])
    decreases n
  {
    if n < 10 then [DigitChar(n)] else NatToString(n / 10) + [DigitChar(n % 10)]
  }

  /** `std::to_string` of an int. */
  function IntToString(x: int): string {
    if x < 0 then "-" + NatToString(-x) else NatToString(x)
  }

  /** Distinct natural numbers print differently. */
  lemma NatToStringInjective(m: nat, n: nat)
    ensures NatToString(m) == NatToString(n) ==> m == n
  {
    DigitsValueOfNatToString(m);
    DigitsValueOfNatToString(n);
  }

  /** A printed int starts with '-' exactly when it is negative. */
  lemma SignOfPrinted(x: int)
    ensures |IntToString(x)| > 0 && (IntToString(x)[0] == '-' <==> x < 0)
  {
    if x >= 0 {
      assert IsDigit(NatToString(x)[0]);
    }
  }

  /** Distinct ints print differently: a negative one starts with '-',
      where a natural number starts with a digit, and the digits read back. */
  lemma IntToStringInjective(x: int, y: int)
    ensures IntToString(x) == IntToString(y) <==> x == y
  {
    if IntToString(x) == IntToString(y) {
      var sx, sy := IntToString(x), IntToString(y);
      SignOfPrinted(x);
      SignOfPrinted(y);
      if x < 0 && y < 0 {
        assert NatToString(-x) == sx[1..];
        assert NatToString(-y) == sy[1..];
        NatToStringInjective(-x, -y);
      } else if x < 0 || y < 0 {
        assert false;
      } else {
        NatToStringInjective(x, y);
      }
    }
  }

  /** The value of a string of decimal digits (what `std::stoi` computes
      from the digits before checking the range). */
  function DigitsValue(s: string): nat
    requires forall k :: 0 <= k < |s| ==> IsDigit(s[k])
  {
    if |s| == 0 then 0 else 10 * DigitsValue(s[..|s| - 1]) + DigitValue(s[|s| - 1])
  }

  /** Reading back what `NatToString` wrote gives the number. */
  lemma {:induction false} DigitsValueOfNatToString(n: nat)
    ensures DigitsValue(NatToString(n)) == n
    decreases n
  {
    var s := NatToString(n);
    if n < 10 {
      assert DigitValue(DigitChar(n)) == n;
    } else {
      DigitsValueOfNatToString(n / 10);
      assert s[..|s| - 1] == NatToString(n / 10);
      assert DigitValue(DigitChar(n % 10)) == n % 10;
    }
  }

  /** `isspace` in the C locale. */
  predicate IsSpace(c: char) {
    c == ' ' || c == '\t' || c == '\n' || c == '\U{000B}' || c == '\U{000C}' || c == '\r'
  }

  /** The first position at or after `i` that is not white space. */
  function SkipSpace(s: string, i: nat): (k: nat)
    requires i <= |s|
    ensures i <= k <= |s| && (k == |s| || !IsSpace(s[k]))
    ensures forall m :: i <= m < k ==> IsSpace(s[m])
    decreases |s| - i
  {
    if i < |s| && IsSpace(s[i]) then SkipSpace(s, i + 1) else i
  }

  /** The end of the run of digits starting at `i`. */
  function DigitRun(s: string, i: nat): (k: nat)
    requires i <= |s|
    ensures i <= k <= |s| && (k == |s| || !IsDigit(s[k]))
    ensures forall m :: i <= m < k ==> IsDigit(s[m])
    decreases |s| - i
  {
    if i < |s| && IsDigit(s[i]) then DigitRun(s, i + 1) else i
  }

  /** `std::stoi(s)`: leading white space, an optional sign and at least one
      digit, read up to the first non-digit.  No digit is an
      `std::invalid_argument` and a value outside int an
      `std::out_of_range`; both report "stoi". */
  function Stoi(s: string): (r: Result<int32>)
    ensures r.Err? ==> r.error == "stoi"
  {
    var k := SkipSpace(s, 0);
    var signed := k < |s| && (s[k] == '+' || s[k] == '-');
    var d := if signed then k + 1 else k;
    var e := DigitRun(s, d);
    if e == d then Err("stoi")
    else
      var v := DigitsValue(s[d..e]);
      var x: int := if signed && s[k] == '-' then 0 - (v as int) else v;
      if InRange(x) then Ok(x) else Err("stoi")
  }

  /** On a string of digits, `Stoi` is its value exactly when that fits an
      int and "stoi" otherwise. */
  lemma StoiOfDigits(s: string)
    requires |s| > 0 && forall k :: 0 <= k < |s| ==> IsDigit(s[k])
    ensures Stoi(s) == if DigitsValue(s) <= MAX then Ok(DigitsValue(s) as int32) else Err("stoi")
  {
    assert SkipSpace(s, 0) == 0;
    DigitRunToEnd(s, 0);
    assert s[0..|s|] == s;
  }

  lemma {:induction false} DigitRunToEnd(s: string, i: nat)
    requires i <= |s| && forall k :: 0 <= k < |s| ==> IsDigit(s[k])
    ensures DigitRun(s, i) == |s|
    decreases |s| - i
  {
    if i < |s| {
      DigitRunToEnd(s, i + 1);
    }
  }

  /** `std::stoi(std::to_string(n))` returns `n` for every non-negative int. */
  lemma StoiOfToString(n: int32)
    requires n >= 0
    ensures Stoi(IntToString(n)) == Ok(n)
  {
    DigitsValueOfNatToString(n);
    StoiOfDigits(IntToString(n));
  }
}
