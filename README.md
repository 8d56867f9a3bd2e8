# Calculator input state machine

A model of the `Calculator` class of a browser calculator (script.js). The
calculator keeps four pieces of state:

- `currentValue`, the text in the display buffer;
- `previousValue`, the stored left operand, or null;
- `operation`, the pending operator, or null;
- `waitingForNewValue`, set when the next digit must start a fresh number.

Digit, decimal-point, backspace, clear, operator and equals events update
this state in place. Operator and equals run one binary operation
(`calculate`) on the stored operand and the parsed buffer. A failed
calculation raises a toast and leaves the state exactly as it was.

The project has five modules:

- `Wrappers` (wrappers.dfy): `Option`, standing for JavaScript's `null`, and `Result`.
- `Numbers` (numbers.dfy): JavaScript numbers and `calculate`.
  - A number is an exact real when finite, or `PosInf`, `NegInf` or `NaN`.
  - The four operators follow the IEEE-754 rules for infinities and NaN.
  - `toFixed(10)` rounding is written out: nearest multiple of 10^-10, a tie going away from zero, unchanged from 10^21 on.
  - `isFinite` is decided by the double overflow threshold 2^1024 - 2^970.
  - The two toasts become the error values `DivisionByZero` and `InvalidCalculation`.
- `Machine` (machine.dfy): the state as a value `CalcState`.
  - Each transition is a function from the old state to the new one.
  - The lemmas are about these functions: typing digits, idempotence, undo and the invariant.
- `Keys` (keys.dfy): `isCalculatorKey`, the key routing of `handleKeyPress` and `getOperatorSymbol`.
  - The digit test of `handleKeyPress` is JavaScript's lexicographic string comparison (`key >= '0' && key <= '9'`), modelled exactly.
- `CalculatorClass` (calculator.dfy): the `Calculator` class.
  - Its four fields are updated in place by methods that mirror the source.
  - Each method's postcondition says the new state is the `Machine` transition of the old state.
  - Each method also says that the object invariant `Valid()` is kept.

`parseFloat` and `String(x)` of a finite number are JavaScript built-ins. They
enter the model as a parameter, `Machine.NumberFormat(parse, show)`, which the
class holds as a constant. `String` of an infinity or of NaN is written out
("Infinity", "-Infinity", "NaN").

The invariant `Machine.Wellformed` has two parts:

- a stored operand exists exactly when a pending operator exists;
- while a number is being entered (`waitingForNewValue` false), the buffer is a typed numeral: digits, at most one point, never a leading point, and a leading zero only as "0" itself or directly before the point.

The constructor establishes it. Every event keeps it when digits arrive one
character at a time, which every calculator key guarantees.

The buffer is a numeral only while a number is being entered. After a result
it holds `String(result)`, and `backspace` can shorten that text to something
that is not a numeral, such as "-" left from "-5". `parseFloat` then gives NaN,
and the model carries that NaN through `calculate` as the code does.

## Model

| member | source | states |
|---|---|---|
| `Numbers.Settle` | script.js:207-218 | a finite value within double range succeeds and any other value fails with `InvalidCalculation`; an integral value, or one of magnitude 10^21 or more, is returned unchanged; every success is finite and within double range |
| `Numbers.Calculate` | script.js:182-224 | fails with `DivisionByZero` exactly for `/` with a zero divisor; an unknown operator returns the second operand unchanged; a known operator succeeds only with a finite, in-range number and always fails on a NaN operand; on finite operands with a usable divisor it settles the exact real result of the operator, so it succeeds exactly when that result is within double range, and an integral result, or one of magnitude 10^21 or more, comes back unchanged; an exact result below 10^21 always succeeds, with a multiple of 10^-10 at most half of 10^-10 from it, that is, the exact result rounded to ten decimals |
| `Numbers.ToFixed10NonNegative` | script.js:208-210 | for a number in [0, 10^21) the rounding gives a multiple of 10^-10 within half of 10^-10 of it, never below zero and never above 10^21 |
| `Numbers.SettleRounds` | script.js:207-218 | a finite number below 10^21 settles successfully to a multiple of 10^-10 within half of 10^-10 of it, and to itself when it is an integer |
| `Numbers.ToFixed10Close` | script.js:208-210 | the rounding gives a multiple of 10^-10 and moves a number by at most half of 10^-10 |
| `Numbers.ToFixed10Keeps` | script.js:208-210 | a number with at most ten decimals is unchanged by the rounding |
| `Numbers.DivideByInfinity` | script.js:196-201 | a finite number divided by an infinity succeeds with 0 |
| `Numbers.NonFiniteOperandFails` | script.js:186-216 | with a known operator, a non-finite operand makes the calculation fail, except a finite number over an infinity |
| `Machine.InputNumber` | script.js:105-113 | stored operand and operator unchanged; the flag is cleared; while waiting, or over a buffer of "0", the buffer becomes the digit; otherwise the digit is appended |
| `Machine.InputDecimal` | script.js:115-123 | stored operand and operator unchanged; afterwards the buffer has a point and the flag is clear; while waiting the buffer becomes "0."; otherwise a point is appended only to a buffer without one, and a buffer with one is a no-op |
| `Machine.Clear` | script.js:125-132 | the result is exactly the initial state ("0", null, null, false), which satisfies the invariant |
| `Machine.Backspace` | script.js:134-141 | only the buffer changes and it is never empty; a buffer longer than one character loses exactly its last character, a shorter one becomes "0" |
| `Machine.PerformOperation` | script.js:143-163 | a failing pending calculation leaves the state unchanged; otherwise the operator becomes the new one and the flag is set; on the first operator the stored operand becomes the parsed buffer and the buffer stays; on a chained operator the result becomes both buffer text and stored operand; with an operand but no operator only the operator and the flag change; pairing is kept |
| `Machine.NonFiniteTextIsNotNumeral` | script.js:155 | the text `String(result)` would put into the buffer for an infinite or NaN value is never a typed numeral, so such a value can never pass for a number being entered |
| `Machine.HandleEquals` | script.js:165-180 | with no stored operand or no operator it is a no-op; a failing calculation leaves the state unchanged; on success the buffer holds the result's text, operand and operator become null and the flag is set; pairing is kept |
| `Machine.Apply` | script.js:39-58 | the dispatch of an input event: it keeps pairing, ignoring does nothing, clear gives the initial state, and a digit or a point leaves the flag clear |
| `Machine.TypeDigitsAppends` | script.js:109-111 | typing digits one at a time into a buffer other than "0" appends all of them |
| `Machine.TypeDigitsFromFreshEntry` | script.js:105-111 | typing digits into a fresh entry gives their concatenation with the leading zeros dropped, or "0" if only zeros were typed |
| `Machine.BackspaceUndoesTyping` | script.js:105-141 | while entering a number, backspace after a digit, or after a point typed into a buffer without one, restores the state before that keystroke |
| `Machine.InputDecimalIdempotent` | script.js:115-121 | two decimal-point inputs in a row equal one |
| `Machine.HandleEqualsFailureRepeats` | script.js:165-179 | a failing equals is a no-op and can be repeated with no effect |
| `Machine.AppendDigitKeepsNumeral` | script.js:110 | appending a digit to a typed numeral other than "0" gives a typed numeral |
| `Machine.AppendPointKeepsNumeral` | script.js:119-120 | appending a point to a typed numeral without one gives a typed numeral |
| `Machine.DropLastKeepsNumeral` | script.js:135-136 | dropping the last character of a typed numeral longer than one character gives a typed numeral |
| `Machine.WellformedPreserved` | script.js:105-180 | every event keeps the invariant, with digits arriving one character at a time: operand and operator stay paired, and while entering, the buffer is a typed numeral |
| `Machine.RunKeepsWellformed` | script.js:13-16 | every series of such events from a well-formed state, such as the initial one, ends in a well-formed state |
| `Machine.TwoPlusThree` | script.js:143-179 | 2 + 3 = leaves the text of 5 in the buffer, no operand, no operator, and the flag set |
| `Machine.OneOverZero` | script.js:143-200 | after 1 / 0 the pending calculation fails with a division by zero, and equals leaves the buffer "0" and the rest of the state as it was |
| `Keys.InDigitRangeExactly` | script.js:83 | the string comparison accepts exactly "9" and every key whose first character is '0' to '8' |
| `Keys.Route` | script.js:82-102 | a digit event carries the key itself, which starts with a digit; an operator event carries the key's single character, one of + - * /; each of + - * / gives the operator event for itself; "9" and every key whose first character is 0 to 8 (including longer keys that pass the string comparison) give the digit event; "." gives the decimal event, Enter and = give equals, Escape, c and C give clear, Backspace gives backspace; a key that triggers nothing is not a calculator key |
| `Keys.IsCalculatorKey` | script.js:73-80 | a one-character key is a calculator key exactly when it is a digit, one of + - * / = . or c or C; a longer key exactly when it is Enter, Escape or Backspace |
| `Keys.RouteMatchesCalculatorKeys` | script.js:73-101 | every calculator key triggers an event; the only other keys that do are multi-character keys starting with '0' to '8' |
| `Keys.SingleCharacterDigits` | script.js:83-85 | a one-character key reaches `inputNumber` exactly when it is a digit |
| `Keys.CalculatorKeyKeepsWellformed` | script.js:73-101 | pressing any calculator key keeps the invariant |
| `Keys.OperatorSymbol` | script.js:263-271 | the symbol is one character: '*' shows as a multiplication sign, '/' as a division sign, and any other operator as itself |
| `Keys.OperatorSymbolsDistinct` | script.js:264-269 | the four operators show as four different symbols |
| `CalculatorClass.Calculator.constructor` | script.js:13-16 | the new calculator is in the initial state and satisfies the invariant |
| `CalculatorClass.Calculator.InputNumber` | script.js:105-113 | new state = `Machine.InputNumber` of the old; the invariant is kept for a one-digit input |
| `CalculatorClass.Calculator.InputDecimal` | script.js:115-123 | new state = `Machine.InputDecimal` of the old; the invariant is kept |
| `CalculatorClass.Calculator.Clear` | script.js:125-132 | new state = the initial state; the invariant holds |
| `CalculatorClass.Calculator.Backspace` | script.js:134-141 | new state = `Machine.Backspace` of the old; the invariant is kept |
| `CalculatorClass.Calculator.PerformOperation` | script.js:143-163 | new state = `Machine.PerformOperation` of the old, including the early return on failure; the invariant is kept |
| `CalculatorClass.Calculator.HandleEquals` | script.js:165-180 | new state = `Machine.HandleEquals` of the old; the invariant is kept |
| `CalculatorClass.Calculator.HandleKeyPress` | script.js:82-102 | new state = the transition that `Keys.Route` picks for the key; the invariant is kept for calculator keys |

## Left out

- DOM output is not modelled: element lookup, `updateDisplay`, `updateOperationDisplay`, `animateButton`, `highlightButton` and `showToast` (script.js:8-10, 226-240, 273-314). A toast is represented by the error value that `Numbers.Calculate` returns.
- Event wiring is not modelled: the click listener and its button lookup, the keydown listener with its `preventDefault`, `init` and the `DOMContentLoaded` handlers (script.js:21-38, 59-71, 317-347). The click `switch` itself (script.js:39-58) is modelled by `Machine.Apply`, which maps each button to the same methods as `Keys.Route` does for keys.
- `formatDisplayValue` (script.js:242-261) is not modelled. It only shapes the displayed text, and its branches depend on double formatting (`toExponential`, `toPrecision`).
- `parseFloat` and `String` of a finite number are parameters (`Machine.NumberFormat`). Their semantics is not modelled, and their round trip is not assumed.
- Numbers.Calculate: finite arithmetic is exact real arithmetic. The rounding of each double operation, subnormals and the sign of zero are not modelled, so -0 and 0 are one value. Whether a result overflows is still decided by the double threshold, which is exact for a correctly rounded operation.
- Numbers.Calculate: the `catch` branch (script.js:220-223) is not modelled. Nothing in the `try` block can throw on number arguments.
- Machine.PerformOperation: the operator is one character, as every key and operator button supplies. An empty operator string, which JavaScript treats as false in `else if (this.operation)`, is not modelled.
- Keys.InDigitRangeExactly: characters are compared as Unicode scalar values, while JavaScript compares UTF-16 code units. The two orders agree for comparisons with "0" and "9".
