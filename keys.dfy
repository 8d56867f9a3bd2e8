/**
 * Keyboard handling of the calculator: which keys it claims
 * (`isCalculatorKey`, script.js:73-80), which event each key triggers
 * (`handleKeyPress`, script.js:82-102), and the symbol shown for a pending
 * operator (`getOperatorSymbol`, script.js:263-271).
 */
module Keys {
  import opened Machine
  import Numbers

  /**
   * JavaScript's `a < b` on strings: lexicographic order, a proper prefix
   * coming first.  (JavaScript compares UTF-16 code units; for the
   * comparisons with "0" and "9" made here that agrees with comparing
   * characters.)
   */
  predicate StrLess(a: string, b: string)
    decreases |a|
  {
    if b == [] then false
    else if a == [] then true
    else if a[0] != b[0] then a[0] < b[0]
    else StrLess(a[1..], b[1..])
  }

  /** `key >= '0' && key <= '9'`, the digit test of `handleKeyPress`. */
  predicate InDigitRange(key: string) {
    !StrLess(key, "0") && !StrLess("9", key)
  }

  /**
   * The string comparison accepts exactly "9" and the keys whose first
   * character is one of '0' to '8', whatever follows it.
   */
  lemma InDigitRangeExactly(key: string)
    ensures InDigitRange(key) <==> (|key| >= 1 && '0' <= key[0] < '9') || key == "9"
  {
    if key == [] {
      assert StrLess(key, "0");
    } else if key[0] < '0' {
      assert StrLess(key, "0");
    } else if key[0] == '0' {
      assert !StrLess(key, "0") by {
        assert !StrLess(key[1..], "0"[1..]);
      }
      assert !StrLess("9", key);
    } else if key[0] < '9' {
      assert !StrLess(key, "0") && !StrLess("9", key);
    } else if key[0] == '9' {
      assert !StrLess(key, "0");
      assert StrLess("9", key) <==> StrLess("9"[1..], key[1..]);
      assert StrLess("9", key) <==> |key| > 1;
    } else {
      assert StrLess("9", key);
    }
  }

  const CalculatorKeys: seq<string> := [
    "0", "1", "2", "3", "4", "5", "6", "7", "8", "9",
    "+", "-", "*", "/", "=", "Enter", "Escape", "Backspace",
    ".", "c", "C"
  ]

  /** `isCalculatorKey(key)`: the keys whose browser default is suppressed. */
  predicate IsCalculatorKey(key: string): (b: bool)
    ensures |key| == 1 ==> (b <==> key[0] in "0123456789+-*/=.cC")
    ensures |key| != 1 ==> (b <==> key == "Enter" || key == "Escape" || key == "Backspace")
  {
    assert |key| == 1 ==> key == [key[0]];
    key in CalculatorKeys
  }

  /** The input event `handleKeyPress(key)` triggers. */
  function Route(key: string): (a: Action)
    ensures a.NumberInput? ==> a.num == key && |key| >= 1 && '0' <= key[0] <= '9'
    ensures a.OperatorInput? ==> key == [a.op] && Numbers.IsOperator(a.op)
    ensures a == NoInput ==> !IsCalculatorKey(key)
    ensures key == "." ==> a == DecimalInput
    ensures key == "Enter" || key == "=" ==> a == EqualsInput
    ensures key == "Escape" || key == "c" || key == "C" ==> a == ClearInput
    ensures key == "Backspace" ==> a == BackspaceInput
    ensures key in ["+", "-", "*", "/"] ==> a == OperatorInput(key[0])
    ensures (|key| >= 1 && '0' <= key[0] < '9') || key == "9" ==> a == NumberInput(key)
  {
    InDigitRangeExactly(key);
    if InDigitRange(key) then NumberInput(key)
    else if key == "." then DecimalInput
    else if key in ["+", "-", "*", "/"] then OperatorInput(key[0])
    else if key == "Enter" || key == "=" then EqualsInput
    else if key == "Escape" || key == "c" || key == "C" then ClearInput
    else if key == "Backspace" then BackspaceInput
    else NoInput
  }

  /**
   * The keys `handleKeyPress` acts on are the calculator keys, plus the
   * multi-character keys that begin with '0' to '8' and slip through its
   * string comparison.
   */
  lemma RouteMatchesCalculatorKeys(key: string)
    ensures IsCalculatorKey(key) ==> Route(key) != NoInput
    ensures Route(key) != NoInput && !IsCalculatorKey(key) ==> |key| >= 2 && '0' <= key[0] < '9'
  {
    InDigitRangeExactly(key);
    if |key| == 1 && '0' <= key[0] <= '9' {
      assert key == [key[0]];
      assert key in CalculatorKeys;
    }
  }

  /** A single-character key reaches `inputNumber` exactly when it is a digit, and then as one digit. */
  lemma SingleCharacterDigits(key: string)
    requires |key| == 1
    ensures Route(key).NumberInput? <==> IsDigit(key[0])
    ensures Route(key).NumberInput? ==> IsDigitText(Route(key).num)
  {
    InDigitRangeExactly(key);
  }

  /** Pressing a calculator key keeps the calculator's invariant. */
  lemma CalculatorKeyKeepsWellformed(s: CalcState, key: string, fmt: NumberFormat)
    requires Wellformed(s) && IsCalculatorKey(key)
    ensures Wellformed(Apply(s, Route(key), fmt))
  {
    InDigitRangeExactly(key);
    WellformedPreserved(s, Route(key), fmt);
  }

  const Symbols: map<char, string> := map[
    '+' := "+",
    '-' := "-",
    '*' := "\U{00D7}",
    '/' := "\U{00F7}"
  ]

  /** `getOperatorSymbol(op)`: the sign shown next to the stored number. */
  function OperatorSymbol(op: char): (r: string)
    ensures |r| == 1
    ensures r == [op] <==> op != '*' && op != '/'
    ensures op == '*' ==> r == "\U{00D7}"
    ensures op == '/' ==> r == "\U{00F7}"
  {
    if op in Symbols then Symbols[op] else [op]
  }

  /** The four operators are shown with four different signs. */
  lemma OperatorSymbolsDistinct(a: char, b: char)
    requires a in "+-*/" && b in "+-*/" && a != b
    ensures OperatorSymbol(a) != OperatorSymbol(b)
  {
  }
}
