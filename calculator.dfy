/**
 * The `Calculator` class of script.js: the four state fields
 * (script.js:13-16) and the methods that update them in place.  Each method
 * is specified by the transition function of the same name in Machine.
 */
module CalculatorClass {
  import opened Wrappers
  import opened Numbers
  import Machine
  import Keys

  class Calculator {
    var currentValue: string
    var previousValue: Option<Num>
    var operation: Option<char>
    var waitingForNewValue: bool

    /** `parseFloat` and `String` as the calculator uses them. */
    const format: Machine.NumberFormat

    function State(): Machine.CalcState
      reads this
    {
      Machine.CalcState(currentValue, previousValue, operation, waitingForNewValue)
    }

    predicate Valid()
      reads this
    {
      Machine.Wellformed(State())
    }

    constructor (format: Machine.NumberFormat)
      ensures State() == Machine.Initial && Valid()
      ensures this.format == format
    {
      this.format := format;
      currentValue := "0";
      previousValue := None;
      operation := None;
      waitingForNewValue := false;
    }

    method InputNumber(num: string)
      modifies this
      ensures State() == Machine.InputNumber(old(State()), num)
      ensures old(Valid()) && Machine.IsDigitText(num) ==> Valid()
    {
      ghost var s := State();
      if waitingForNewValue {
        currentValue := num;
        waitingForNewValue := false;
      } else {
        currentValue := if currentValue == "0" then num else currentValue + num;
      }
      if Machine.Wellformed(s) && Machine.IsDigitText(num) {
        Machine.WellformedPreserved(s, Machine.NumberInput(num), format);
      }
    }

    method InputDecimal()
      modifies this
      ensures State() == Machine.InputDecimal(old(State()))
      ensures old(Valid()) ==> Valid()
    {
      ghost var s := State();
      if waitingForNewValue {
        currentValue := "0.";
        waitingForNewValue := false;
      } else if '.' !in currentValue {
        currentValue := currentValue + ".";
      }
      if Machine.Wellformed(s) {
        Machine.WellformedPreserved(s, Machine.DecimalInput, format);
      }
    }

    method Clear()
      modifies this
      ensures State() == Machine.Initial && Valid()
    {
      currentValue := "0";
      previousValue := None;
      operation := None;
      waitingForNewValue := false;
    }

    method Backspace()
      modifies this
      ensures State() == Machine.Backspace(old(State()))
      ensures old(Valid()) ==> Valid()
    {
      ghost var s := State();
      if |currentValue| > 1 {
        currentValue := currentValue[..|currentValue| - 1];
      } else {
        currentValue := "0";
      }
      if Machine.Wellformed(s) {
        Machine.WellformedPreserved(s, Machine.BackspaceInput, format);
      }
    }

    method PerformOperation(nextOperation: char)
      modifies this
      ensures State() == Machine.PerformOperation(old(State()), nextOperation, format)
      ensures old(Valid()) ==> Valid()
    {
      ghost var s := State();
      var inputValue := format.parse(currentValue);
      if previousValue.None? {
        previousValue := Some(inputValue);
      } else if operation.Some? {
        var result := Calculate(previousValue.value, inputValue, operation.value);
        if result.Failure? {
          return;
        }
        currentValue := Machine.ToText(result.value, format);
        previousValue := Some(result.value);
      }
      operation := Some(nextOperation);
      waitingForNewValue := true;
    }

    method HandleEquals()
      modifies this
      ensures State() == Machine.HandleEquals(old(State()), format)
      ensures old(Valid()) ==> Valid()
    {
      var inputValue := format.parse(currentValue);
      if previousValue.Some? && operation.Some? {
        var result := Calculate(previousValue.value, inputValue, operation.value);
        if result.Success? {
          currentValue := Machine.ToText(result.value, format);
          previousValue := None;
          operation := None;
          waitingForNewValue := true;
        }
      }
    }

    method HandleKeyPress(key: string)
      modifies this
      ensures State() == Machine.Apply(old(State()), Keys.Route(key), format)
      ensures old(Valid()) && Keys.IsCalculatorKey(key) ==> Valid()
    {
      ghost var s := State();
      if Keys.InDigitRange(key) {
        InputNumber(key);
      } else if key == "." {
        InputDecimal();
      } else if key in ["+", "-", "*", "/"] {
        PerformOperation(key[0]);
      } else if key == "Enter" || key == "=" {
        HandleEquals();
      } else if key == "Escape" || key == "c" || key == "C" {
        Clear();
      } else if key == "Backspace" {
        Backspace();
      }
      if Machine.Wellformed(s) && Keys.IsCalculatorKey(key) {
        Keys.CalculatorKeyKeepsWellformed(s, key, format);
      }
    }
  }
}
