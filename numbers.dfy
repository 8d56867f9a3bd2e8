/**
 * The numbers a JavaScript calculator computes with, and its binary-operation
 * step `calculate` (script.js:182-224).
 *
 * A JavaScript number is modelled as an exact real when it is finite, plus the
 * three non-finite values.  The arithmetic of the four operators follows the
 * IEEE-754 rules for infinities and NaN; on finite operands it is exact real
 * arithmetic, so the rounding of each individual double operation is not
 * modelled.  Whether a result is finite is decided by the double overflow
 * threshold, which is exact for a correctly rounded operation.
 */
module Numbers {
  import opened Wrappers

  datatype Num = Finite(r: real) | PosInf | NegInf | NaN

  /** The two toasts `calculate` can raise, as error values. */
  datatype CalcError =
    | DivisionByZero      // 'Cannot divide by zero'
    | InvalidCalculation  // 'Invalid calculation'

  /** An exact result of this magnitude or more rounds to an infinite double: 2^1024 - 2^970. */
  const OverflowThreshold: real := 179769313486231580793728971405303415079934132710037826936173778980444968292764750946649017977587207096330286416692887910946555547851940402630657488671505820681908902000708383676273854845817711531764475730270069855571366959622842914819860834936475292719074168444365510704342711559699508093042880177904174497792.0

  /** From 10^21 on, `toFixed` falls back to the plain string of the number. */
  const FixedLimit: real := 1000000000000000000000.0

  predicate InDoubleRange(x: real) {
    -OverflowThreshold < x < OverflowThreshold
  }

  predicate IsInteger(x: real) {
    x.Floor as real == x
  }

  /** The operators `calculate` knows; any other one is handled by its `default` case. */
  predicate IsOperator(op: char) {
    op == '+' || op == '-' || op == '*' || op == '/'
  }

  /** True for +Infinity and for finite numbers above zero. */
  predicate IsPositive(a: Num) {
    a.PosInf? || (a.Finite? && a.r > 0.0)
  }

  function Infinity(positive: bool): Num {
    if positive then PosInf else NegInf
  }

  function Negate(a: Num): Num {
    match a
    case Finite(x) => Finite(-x)
    case PosInf => NegInf
    case NegInf => PosInf
    case NaN => NaN
  }

  function Add(a: Num, b: Num): Num {
    match (a, b)
    case (NaN, _) => NaN
    case (_, NaN) => NaN
    case (PosInf, NegInf) => NaN
    case (NegInf, PosInf) => NaN
    case (PosInf, _) => PosInf
    case (NegInf, _) => NegInf
    case (_, PosInf) => PosInf
    case (_, NegInf) => NegInf
    case (Finite(x), Finite(y)) => Finite(x + y)
  }

  function Sub(a: Num, b: Num): Num {
    Add(a, Negate(b))
  }

  function Mul(a: Num, b: Num): Num {
    if a.NaN? || b.NaN? then NaN
    else if a.Finite? && b.Finite? then Finite(a.r * b.r)
    else if a == Finite(0.0) || b == Finite(0.0) then NaN  // an infinity times zero
    else Infinity(IsPositive(a) == IsPositive(b))
  }

  /** Division by a non-zero divisor; `calculate` rejects a zero divisor before dividing. */
  function Div(a: Num, b: Num): Num
    requires b != Finite(0.0)
  {
    if a.NaN? || b.NaN? then NaN
    else if a.Finite? && b.Finite? then Finite(a.r / b.r)
    else if !a.Finite? && !b.Finite? then NaN  // an infinity over an infinity
    else if a.Finite? then Finite(0.0)          // a finite number over an infinity (the sign of zero is not modelled)
    else Infinity(IsPositive(a) == IsPositive(b))
  }

  /**
   * `parseFloat(x.toFixed(10))` for a finite x: the nearest multiple of 10^-10,
   * a tie going away from zero; beyond 10^21 the number is left as it is.
   * (The factor 10^10 is written out as a literal throughout, so that the
   * solver sees linear arithmetic.)
   */
  function ToFixed10(x: real): real {
    if x >= FixedLimit || x <= -FixedLimit then x
    else if x < 0.0 then -(((-x) * 10000000000.0 + 0.5).Floor as real / 10000000000.0)
    else (x * 10000000000.0 + 0.5).Floor as real / 10000000000.0
  }

  /** The end of `calculate`: round a result that is not an integer, then refuse a non-finite one. */
  function Settle(v: Num): (r: Result<Num, CalcError>)
    ensures r.Success? ==> r.value.Finite? && InDoubleRange(r.value.r)
    ensures r.Failure? ==> r.error == InvalidCalculation
    ensures !v.Finite? ==> r.Failure?
    ensures v.Finite? && InDoubleRange(v.r) ==> r.Success?
    ensures v.Finite? && (IsInteger(v.r) || v.r >= FixedLimit || v.r <= -FixedLimit) ==>
      r == if InDoubleRange(v.r) then Success(v) else Failure(InvalidCalculation)
  {
    var w := if v.Finite? && !IsInteger(v.r) then Finite(ToFixed10(v.r)) else v;
    assert v.Finite? && !IsInteger(v.r) && -FixedLimit < v.r < FixedLimit ==> -FixedLimit <= w.r <= FixedLimit by {
      if v.Finite? && !IsInteger(v.r) && -FixedLimit < v.r < FixedLimit {
        ToFixed10Close(v.r);
      }
    }
    if w.Finite? && InDoubleRange(w.r) then Success(w) else Failure(InvalidCalculation)
  }

  /** `calculate(firstValue, secondValue, operation)`, the failure toast being the error value. */
  function Calculate(first: Num, second: Num, op: char): (r: Result<Num, CalcError>)
    ensures r == Failure(DivisionByZero) <==> op == '/' && second == Finite(0.0)
    ensures !IsOperator(op) ==> r == Success(second)
    ensures IsOperator(op) && r.Success? ==> r.value.Finite? && InDoubleRange(r.value.r)
    ensures IsOperator(op) && (first.NaN? || second.NaN?) ==> r.Failure?
    ensures IsOperator(op) && first.Finite? && second.Finite? && (op == '/' ==> second.r != 0.0) ==>
      var e := Exact(first.r, second.r, op);
      && r == Settle(Finite(e))
      && (r.Success? <==> InDoubleRange(e))
      && (InDoubleRange(e) && (IsInteger(e) || e >= FixedLimit || e <= -FixedLimit) ==> r == Success(Finite(e)))
    ensures IsOperator(op) && first.Finite? && second.Finite? && (op == '/' ==> second.r != 0.0) ==>
      var e := Exact(first.r, second.r, op);
      -FixedLimit < e < FixedLimit ==>
        && r.Success?
        && -0.00000000005 <= r.value.r - e <= 0.00000000005
        && IsInteger(r.value.r * 10000000000.0)
  {
    var v :=
      if op == '+' then Settle(Add(first, second))
      else if op == '-' then Settle(Sub(first, second))
      else if op == '*' then Settle(Mul(first, second))
      else if op == '/' then
        if second == Finite(0.0) then Failure(DivisionByZero) else Settle(Div(first, second))
      else Success(second);
    if IsOperator(op) && first.Finite? && second.Finite? && (op == '/' ==> second.r != 0.0) &&
      -FixedLimit < Exact(first.r, second.r, op) < FixedLimit
    then
      SettleRounds(Exact(first.r, second.r, op));
      v
    else v
  }

  /** The exact real result of an operator on two finite operands: the reference for `Calculate`. */
  function Exact(x: real, y: real, op: char): real
    requires IsOperator(op) && (op == '/' ==> y != 0.0)
  {
    match op
    case '+' => x + y
    case '-' => x - y
    case '*' => x * y
    case '/' => x / y
  }

  /** The rounding of a number in [0, 10^21) is n / 10^10, n being the nearest integer to x * 10^10. */
  lemma ToFixed10NonNegative(x: real)
    requires 0.0 <= x < FixedLimit
    ensures -0.00000000005 < ToFixed10(x) - x <= 0.00000000005
    ensures 0.0 <= ToFixed10(x) <= FixedLimit
    ensures IsInteger(ToFixed10(x) * 10000000000.0)
  {
    var t := x * 10000000000.0 + 0.5;
    var n := t.Floor;
    assert n as real <= t < n as real + 1.0;
    var w := n as real / 10000000000.0;
    assert ToFixed10(x) == w;
    assert w * 10000000000.0 == n as real;
    assert (n as real).Floor == n;
    assert -0.5 < w * 10000000000.0 - x * 10000000000.0 <= 0.5;
  }

  /** Rounding to ten decimals moves a number by at most half a unit of the tenth decimal. */
  lemma ToFixed10Close(x: real)
    requires -FixedLimit < x < FixedLimit
    ensures -0.00000000005 <= ToFixed10(x) - x <= 0.00000000005
    ensures -FixedLimit <= ToFixed10(x) <= FixedLimit
    ensures IsInteger(ToFixed10(x) * 10000000000.0)
  {
    if x < 0.0 {
      ToFixed10NonNegative(-x);
      var w := ToFixed10(-x);
      assert ToFixed10(x) == -w;
      var n := (w * 10000000000.0).Floor;
      assert w * 10000000000.0 == n as real;
      assert ToFixed10(x) * 10000000000.0 == (-n) as real;
      assert ((-n) as real).Floor == -n;
    } else {
      ToFixed10NonNegative(x);
    }
  }

  /** A number that already has at most ten decimals is left alone by the rounding. */
  lemma ToFixed10Keeps(k: int)
    requires -FixedLimit < k as real / 10000000000.0 < FixedLimit
    ensures ToFixed10(k as real / 10000000000.0) == k as real / 10000000000.0
  {
    var x := k as real / 10000000000.0;
    if x < 0.0 {
      var t := (-x) * 10000000000.0 + 0.5;
      assert t == (-k) as real + 0.5;
      assert t.Floor == -k;
    } else {
      var t := x * 10000000000.0 + 0.5;
      assert t == k as real + 0.5;
      assert t.Floor == k;
    }
  }

  /** Settling a finite number below 10^21 rounds it to ten decimals. */
  lemma SettleRounds(e: real)
    requires -FixedLimit < e < FixedLimit
    ensures Settle(Finite(e)).Success?
    ensures var w := Settle(Finite(e)).value.r;
      -0.00000000005 <= w - e <= 0.00000000005 && IsInteger(w * 10000000000.0)
    ensures IsInteger(e) ==> Settle(Finite(e)) == Success(Finite(e))
  {
    if !IsInteger(e) {
      ToFixed10Close(e);
      assert Settle(Finite(e)) == Success(Finite(ToFixed10(e)));
    } else {
      var k := e.Floor;
      assert e == k as real;
      assert InDoubleRange(e);
      assert Settle(Finite(e)) == Success(Finite(e));
      assert e * 10000000000.0 == (k * 10000000000) as real;
      assert ((k * 10000000000) as real).Floor == k * 10000000000;
    }
  }

  /** A finite number divided by an infinite one is zero: the only success with a non-finite operand. */
  lemma DivideByInfinity(x: real, b: Num)
    requires b == PosInf || b == NegInf
    ensures Calculate(Finite(x), b, '/') == Success(Finite(0.0))
  {
  }

  /** With a recognised operator, a non-finite operand makes `calculate` fail, except a finite number over an infinity. */
  lemma NonFiniteOperandFails(a: Num, b: Num, op: char)
    requires IsOperator(op)
    requires !a.Finite? || !b.Finite?
    requires !(op == '/' && a.Finite? && (b == PosInf || b == NegInf))
    ensures Calculate(a, b, op).Failure?
  {
  }
}
