/**
 * The input state of the calculator (script.js:13-16) and its transitions
 * (script.js:105-180), as functions from the old state to the new one.
 * The class in calculator.dfy runs the same transitions in place and is
 * specified by these functions.
 */
module Machine {
  import opened Wrappers
  import opened Numbers

  /**
   * The number conversions the calculator borrows from JavaScript:
   * `parseFloat` of a string, and `String(x)` of a finite number.
   */
  datatype NumberFormat = NumberFormat(parse: string -> Num, show: real -> string)

  /** `String(v)`; only the text of a finite number is left to the format. */
  function ToText(v: Num, fmt: NumberFormat): string {
    match v
    case Finite(x) => fmt.show(x)
    case PosInf => "Infinity"
    case NegInf => "-Infinity"
    case NaN => "NaN"
  }

  datatype CalcState = CalcState(
    currentValue: string,
    previousValue: Option<Num>,
    operation: Option<char>,
    waitingForNewValue: bool)

  /** The state the constructor sets up. */
  const Initial: CalcState := CalcState("0", None, None, false)

  /** One input event, as the buttons and the keyboard deliver it. */
  datatype Action =
    | NumberInput(num: string)
    | DecimalInput
    | OperatorInput(op: char)
    | EqualsInput
    | ClearInput
    | BackspaceInput
    | NoInput

  predicate IsDigit(c: char) {
    '0' <= c <= '9'
  }

  /** The text a digit button or a digit key hands to `inputNumber`. */
  predicate IsDigitText(num: string) {
    |num| == 1 && IsDigit(num[0])
  }

  /** A stored number goes with a pending operator, and neither exists without the other. */
  predicate Paired(s: CalcState) {
    s.previousValue.None? <==> s.operation.None?
  }

  /**
   * A numeral as the user types it: digits with at most one point, never
   * starting with the point, and with a leading zero only as "0" itself or
   * directly before the point.
   */
  predicate TypedNumeral(b: string) {
    && |b| >= 1
    && b[0] != '.'
    && (forall i :: 0 <= i < |b| ==> IsDigit(b[i]) || b[i] == '.')
    && (forall i, j :: 0 <= i < j < |b| && b[i] == '.' ==> b[j] != '.')
    && (|b| > 1 && b[0] == '0' ==> b[1] == '.')
  }
  /** The text of an infinity or of NaN never reads as a number being typed. */
  lemma NonFiniteTextIsNotNumeral(v: Num, fmt: NumberFormat)
    ensures !v.Finite? ==> !TypedNumeral(ToText(v, fmt))
  {
    if !v.Finite? {
      var t := ToText(v, fmt);
      assert !IsDigit(t[1]) && t[1] != '.';
    }
  }


  /**
   * The invariant the calculator keeps: operands are paired, and while a
   * number is being entered the buffer holds a typed numeral.  (After a result
   * the buffer holds the result's text, which is any string the format gives.)
   */
  predicate Wellformed(s: CalcState) {
    Paired(s) && (!s.waitingForNewValue ==> TypedNumeral(s.currentValue))
  }

  /**
   * The calculation `performOperation` and `handleEquals` run on the stored
   * number, the buffer and the pending operator; None when either is missing.
   */
  function Pending(s: CalcState, fmt: NumberFormat): Option<Result<Num, CalcError>> {
    if s.previousValue.Some? && s.operation.Some? then
      Some(Calculate(s.previousValue.value, fmt.parse(s.currentValue), s.operation.value))
    else None
  }

  /** `inputNumber(num)` */
  function InputNumber(s: CalcState, num: string): (t: CalcState)
    ensures t.previousValue == s.previousValue && t.operation == s.operation
    ensures !t.waitingForNewValue
    ensures s.waitingForNewValue || s.currentValue == "0" ==> t.currentValue == num
    ensures !s.waitingForNewValue && s.currentValue != "0" ==> t.currentValue == s.currentValue + num
  {
    if s.waitingForNewValue then
      s.(currentValue := num, waitingForNewValue := false)
    else
      s.(currentValue := if s.currentValue == "0" then num else s.currentValue + num)
  }

  /** `inputDecimal()` */
  function InputDecimal(s: CalcState): (t: CalcState)
    ensures t.previousValue == s.previousValue && t.operation == s.operation
    ensures !t.waitingForNewValue && '.' in t.currentValue
    ensures s.waitingForNewValue ==> t.currentValue == "0."
    ensures !s.waitingForNewValue && '.' !in s.currentValue ==> t.currentValue == s.currentValue + "."
    ensures !s.waitingForNewValue && '.' in s.currentValue ==> t == s
  {
    if s.waitingForNewValue then
      s.(currentValue := "0.", waitingForNewValue := false)
    else if '.' !in s.currentValue then
      assert (s.currentValue + ".")[|s.currentValue|] == '.';
      s.(currentValue := s.currentValue + ".")
    else
      s
  }

  /** `clear()` */
  function Clear(s: CalcState): (t: CalcState)
    ensures t == Initial
    ensures Wellformed(t)
  {
    CalcState("0", None, None, false)
  }

  /** `backspace()` */
  function Backspace(s: CalcState): (t: CalcState)
    ensures t == s.(currentValue := t.currentValue)
    ensures |t.currentValue| >= 1
    ensures |s.currentValue| > 1 ==> t.currentValue + [s.currentValue[|s.currentValue| - 1]] == s.currentValue
    ensures |s.currentValue| <= 1 ==> t.currentValue == "0"
  {
    if |s.currentValue| > 1 then
      s.(currentValue := s.currentValue[..|s.currentValue| - 1])
    else
      s.(currentValue := "0")
  }

  /** `performOperation(next)` */
  function PerformOperation(s: CalcState, next: char, fmt: NumberFormat): (t: CalcState)
    ensures Pending(s, fmt).Some? && Pending(s, fmt).value.Failure? ==> t == s
    ensures !(Pending(s, fmt).Some? && Pending(s, fmt).value.Failure?) ==>
      t.operation == Some(next) && t.waitingForNewValue
    ensures s.previousValue.None? ==>
      t == s.(previousValue := Some(fmt.parse(s.currentValue)), operation := Some(next), waitingForNewValue := true)
    ensures Pending(s, fmt).Some? && Pending(s, fmt).value.Success? ==>
      var v := Pending(s, fmt).value.value;
      t == CalcState(ToText(v, fmt), Some(v), Some(next), true)
    ensures s.previousValue.Some? && s.operation.None? ==>
      t == s.(operation := Some(next), waitingForNewValue := true)
    ensures Paired(s) ==> Paired(t)
  {
    var inputValue := fmt.parse(s.currentValue);
    if s.previousValue.None? then
      s.(previousValue := Some(inputValue), operation := Some(next), waitingForNewValue := true)
    else if s.operation.Some? then
      match Calculate(s.previousValue.value, inputValue, s.operation.value)
      case Failure(_) => s
      case Success(v) => CalcState(ToText(v, fmt), Some(v), Some(next), true)
    else
      s.(operation := Some(next), waitingForNewValue := true)
  }

  /** `handleEquals()` */
  function HandleEquals(s: CalcState, fmt: NumberFormat): (t: CalcState)
    ensures Pending(s, fmt).None? ==> t == s
    ensures Pending(s, fmt).Some? && Pending(s, fmt).value.Failure? ==> t == s
    ensures Pending(s, fmt).Some? && Pending(s, fmt).value.Success? ==>
      t == CalcState(ToText(Pending(s, fmt).value.value, fmt), None, None, true)
    ensures Paired(s) ==> Paired(t)
  {
    var inputValue := fmt.parse(s.currentValue);
    if s.previousValue.Some? && s.operation.Some? then
      match Calculate(s.previousValue.value, inputValue, s.operation.value)
      case Failure(_) => s
      case Success(v) => CalcState(ToText(v, fmt), None, None, true)
    else
      s
  }

  /** The transition an input event triggers. */
  function Apply(s: CalcState, a: Action, fmt: NumberFormat): (t: CalcState)
    ensures Paired(s) ==> Paired(t)
    ensures a == NoInput ==> t == s
    ensures a == ClearInput ==> t == Initial
    ensures a.NumberInput? || a == DecimalInput ==> !t.waitingForNewValue
  {
    match a
    case NumberInput(num) => InputNumber(s, num)
    case DecimalInput => InputDecimal(s)
    case OperatorInput(op) => PerformOperation(s, op, fmt)
    case EqualsInput => HandleEquals(s, fmt)
    case ClearInput => Clear(s)
    case BackspaceInput => Backspace(s)
    case NoInput => s
  }

  /** The state after a series of input events. */
  function Run(s: CalcState, acts: seq<Action>, fmt: NumberFormat): CalcState
    decreases |acts|
  {
    if acts == [] then s else Run(Apply(s, acts[0], fmt), acts[1..], fmt)
  }

  /** The state after typing the digits of `ds` one at a time. */
  function TypeDigits(s: CalcState, ds: seq<char>): CalcState
    decreases |ds|
  {
    if ds == [] then s else TypeDigits(InputNumber(s, [ds[0]]), ds[1..])
  }

  /** What a fresh entry shows after typing `ds`: the digits without their leading zeros, or "0". */
  function Entered(ds: seq<char>): string
    decreases |ds|
  {
    if ds == [] then "0" else if ds[0] == '0' then Entered(ds[1..]) else ds
  }

  /** Typing into a buffer other than "0" appends every digit. */
  lemma {:induction false} TypeDigitsAppends(s: CalcState, ds: seq<char>)
    requires !s.waitingForNewValue && |s.currentValue| >= 1 && s.currentValue != "0"
    ensures TypeDigits(s, ds) == s.(currentValue := s.currentValue + ds)
    decreases |ds|
  {
    if ds != [] {
      var s1 := InputNumber(s, [ds[0]]);
      assert s1 == s.(currentValue := s.currentValue + [ds[0]]);
      assert |s1.currentValue| >= 2;
      TypeDigitsAppends(s1, ds[1..]);
      assert s.currentValue + [ds[0]] + ds[1..] == s.currentValue + ds;
    }
  }

  /**
   * Typing digits into a fresh entry (the buffer "0", or any buffer while a
   * new value is awaited) leaves their concatenation with the leading zeros
   * dropped, and "0" if nothing else remains.
   */
  lemma {:induction false} TypeDigitsFromFreshEntry(s: CalcState, ds: seq<char>)
    requires (s.waitingForNewValue && ds != []) || (!s.waitingForNewValue && s.currentValue == "0")
    ensures TypeDigits(s, ds) == s.(currentValue := Entered(ds), waitingForNewValue := false)
    decreases |ds|
  {
    if ds != [] {
      var s1 := InputNumber(s, [ds[0]]);
      assert s1 == s.(currentValue := [ds[0]], waitingForNewValue := false);
      if ds[0] == '0' {
        TypeDigitsFromFreshEntry(s1, ds[1..]);
      } else {
        assert s1.currentValue != "0";
        TypeDigitsAppends(s1, ds[1..]);
        assert [ds[0]] + ds[1..] == ds;
      }
    }
  }

  /** While a number is being entered, `backspace()` takes back the digit or point just typed. */
  lemma BackspaceUndoesTyping(s: CalcState, d: char)
    requires Wellformed(s) && !s.waitingForNewValue
    ensures Backspace(InputNumber(s, [d])) == s
    ensures '.' !in s.currentValue ==> Backspace(InputDecimal(s)) == s
  {
    var b := s.currentValue;
    if b != "0" {
      assert (b + [d])[..|b|] == b;
    }
    assert (b + ".")[..|b|] == b;
  }

  /** A second `inputDecimal()` in a row changes nothing. */
  lemma InputDecimalIdempotent(s: CalcState)
    ensures InputDecimal(InputDecimal(s)) == InputDecimal(s)
  {
  }

  /** A failing `handleEquals()` can be repeated without effect. */
  lemma HandleEqualsFailureRepeats(s: CalcState, fmt: NumberFormat)
    requires Pending(s, fmt).Some? && Pending(s, fmt).value.Failure?
    ensures HandleEquals(s, fmt) == s
    ensures HandleEquals(HandleEquals(s, fmt), fmt) == HandleEquals(s, fmt)
  {
  }

  lemma AppendDigitKeepsNumeral(b: string, d: char)
    requires TypedNumeral(b) && b != "0" && IsDigit(d)
    ensures TypedNumeral(b + [d])
  {
    var c := b + [d];
    forall i, j | 0 <= i < j < |c| && c[i] == '.'
      ensures c[j] != '.'
    {
      if j < |b| {
        assert b[i] == '.';
      }
    }
  }

  lemma AppendPointKeepsNumeral(b: string)
    requires TypedNumeral(b) && '.' !in b
    ensures TypedNumeral(b + ".")
  {
    var c := b + ".";
    assert forall i :: 0 <= i < |b| ==> c[i] == b[i] && b[i] != '.';
  }

  lemma DropLastKeepsNumeral(b: string)
    requires TypedNumeral(b) && |b| > 1
    ensures TypedNumeral(b[..|b| - 1])
  {
    var c := b[..|b| - 1];
    forall i, j | 0 <= i < j < |c| && c[i] == '.'
      ensures c[j] != '.'
    {
      assert b[i] == '.';
    }
  }

  /** Every transition keeps the invariant, as long as digits arrive one at a time. */
  lemma WellformedPreserved(s: CalcState, a: Action, fmt: NumberFormat)
    requires Wellformed(s)
    requires a.NumberInput? ==> IsDigitText(a.num)
    ensures Wellformed(Apply(s, a, fmt))
  {
    match a
    case NumberInput(num) =>
      if !s.waitingForNewValue && s.currentValue != "0" {
        assert num == [num[0]];
        AppendDigitKeepsNumeral(s.currentValue, num[0]);
      }
    case DecimalInput =>
      if s.waitingForNewValue {
        assert TypedNumeral("0.");
      } else if '.' !in s.currentValue {
        AppendPointKeepsNumeral(s.currentValue);
      }
    case BackspaceInput =>
      if !s.waitingForNewValue && |s.currentValue| > 1 {
        DropLastKeepsNumeral(s.currentValue);
      }
    case OperatorInput(op) =>
    case EqualsInput =>
    case ClearInput =>
    case NoInput =>
  }

  /** Every series of input events from the initial state keeps the invariant. */
  lemma {:induction false} RunKeepsWellformed(s: CalcState, acts: seq<Action>, fmt: NumberFormat)
    requires Wellformed(s)
    requires forall k :: 0 <= k < |acts| && acts[k].NumberInput? ==> IsDigitText(acts[k].num)
    ensures Wellformed(Run(s, acts, fmt))
    decreases |acts|
  {
    if acts != [] {
      WellformedPreserved(s, acts[0], fmt);
      assert forall k :: 0 <= k < |acts[1..]| ==> acts[1..][k] == acts[k + 1];
      RunKeepsWellformed(Apply(s, acts[0], fmt), acts[1..], fmt);
    }
  }

  /** 2 + 3 = leaves "5" in the buffer and nothing pending. */
  lemma TwoPlusThree(fmt: NumberFormat)
    requires fmt.parse("2") == Finite(2.0) && fmt.parse("3") == Finite(3.0)
    ensures Run(Initial, [NumberInput("2"), OperatorInput('+'), NumberInput("3"), EqualsInput], fmt)
      == CalcState(fmt.show(5.0), None, None, true)
  {
    var s1 := Apply(Initial, NumberInput("2"), fmt);
    var s2 := Apply(s1, OperatorInput('+'), fmt);
    var s3 := Apply(s2, NumberInput("3"), fmt);
    assert s3 == CalcState("3", Some(Finite(2.0)), Some('+'), false);
    assert Calculate(Finite(2.0), Finite(3.0), '+') == Success(Finite(5.0));
  }

  /** 1 / 0 = fails with a division by zero and leaves the state as it was before the equals. */
  lemma OneOverZero(fmt: NumberFormat)
    requires fmt.parse("1") == Finite(1.0) && fmt.parse("0") == Finite(0.0)
    ensures var s := Run(Initial, [NumberInput("1"), OperatorInput('/'), NumberInput("0")], fmt);
      && s == CalcState("0", Some(Finite(1.0)), Some('/'), false)
      && Pending(s, fmt) == Some(Failure(DivisionByZero))
      && HandleEquals(s, fmt) == s
  {
    var s1 := Apply(Initial, NumberInput("1"), fmt);
    var s2 := Apply(s1, OperatorInput('/'), fmt);
    assert s2 == CalcState("1", Some(Finite(1.0)), Some('/'), true);
  }
}
