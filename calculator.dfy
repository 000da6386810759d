/** The basic calculator: two text inputs, a selected operation and a result
    cell. "Calculate" parses both inputs and, when both are numbers, evaluates
    the operation; "Clear" empties the inputs and the result.

    parseFloat is a parameter (a partial parse giving a number or nothing),
    and so is Math.pow for exponents that are not natural numbers. */
module Calculator {
  import opened Wrappers
  import opened JsNumber
  import opened Decimals

  /** The operations the switch handles. */
  const Operations: set<string> := {"+", "-", "*", "/", "^"}

  /** The text shown for a NaN result. */
  const ErrorText: string := "Error (division by zero)"

  /** x raised to a natural power. */
  function Power(x: real, n: nat): real
    decreases n
  {
    if n == 0 then 1.0 else x * Power(x, n - 1)
  }

  /** Exponents add when powers of the same base multiply. */
  lemma {:induction false} PowerAdd(x: real, a: nat, b: nat)
    ensures Power(x, a + b) == Power(x, a) * Power(x, b)
    decreases a
  {
    if a > 0 {
      PowerAdd(x, a - 1, b);
      assert Power(x, a + b) == x * Power(x, a - 1 + b);
    }
  }

  /** A natural number, as a real. */
  predicate IsNatural(y: real) {
    y >= 0.0 && IsWhole(y)
  }

  /** The operation switch: the result of `operation` on two parsed numbers.
      Division by zero and an unhandled operation give NaN; "^" is exact for
      natural exponents and otherwise whatever `mathPow` gives. */
  function Evaluate(n1: real, n2: real, operation: string, mathPow: (real, real) -> Num): (r: Num)
    ensures operation == "+" ==> r == Finite(n1 + n2)
    ensures operation == "-" ==> r == Finite(n1 - n2)
    ensures operation == "*" ==> r == Finite(n1 * n2)
    ensures operation == "/" ==> (r.NaN? <==> n2 == 0.0)
    ensures operation == "/" && r.Finite? ==> r.v * n2 == n1
    ensures operation == "^" && IsNatural(n2) ==> r == Finite(Power(n1, n2.Floor))
    ensures operation == "^" && !IsNatural(n2) ==> r == mathPow(n1, n2)
    ensures operation !in Operations ==> r == NaN
  {
    if operation == "+" then Finite(n1 + n2)
    else if operation == "-" then Finite(n1 - n2)
    else if operation == "*" then Finite(n1 * n2)
    else if operation == "/" then (if n2 != 0.0 then Finite(n1 / n2) else NaN)
    else if operation == "^" then
      (if IsNatural(n2) then Finite(Power(n1, n2.Floor)) else mathPow(n1, n2))
    else NaN
  }

  /** The new result cell: absent unless both inputs parse. */
  function Outcome(p1: Option<real>, p2: Option<real>, operation: string,
                   mathPow: (real, real) -> Num): (r: Option<Num>)
    ensures r.None? <==> p1.None? || p2.None?
    ensures r.Some? ==> r.value == Evaluate(p1.value, p2.value, operation, mathPow)
  {
    if p1.None? || p2.None? then None
    else Some(Evaluate(p1.value, p2.value, operation, mathPow))
  }

  /** What the result panel shows. */
  datatype Panel = Hidden | Message(text: string) | Shown(value: real)

  /** The result panel: hidden when the result is absent, the error text for
      NaN, otherwise the number (its two-decimal formatting is not modelled). */
  function Render(result: Option<Num>): (p: Panel)
    ensures p.Hidden? <==> result.None?
    ensures p.Message? <==> result == Some(NaN)
    ensures p.Message? ==> p.text == ErrorText
    ensures result.Some? && result.value.Finite? ==> p == Shown(result.value.v)
  {
    match result
    case None => Hidden
    case Some(NaN) => Message(ErrorText)
    case Some(Finite(v)) => Shown(v)
  }

  /** Dividing a product by its second factor gives back the first. */
  lemma DivisionUndoesMultiplication(n1: real, n2: real, mathPow: (real, real) -> Num)
    requires n2 != 0.0
    ensures Evaluate(Evaluate(n1, n2, "*", mathPow).v, n2, "/", mathPow) == Finite(n1)
  {
  }

  /** With a parsed number and a parsed zero, "/" shows the error text. */
  lemma DivisionByZeroShowsError(n1: real, mathPow: (real, real) -> Num)
    ensures Render(Outcome(Some(n1), Some(0.0), "/", mathPow)) == Message(ErrorText)
  {
  }

  /** An unhandled operation shows the same text, though nothing was divided. */
  lemma UnknownOperationShowsError(n1: real, n2: real, operation: string, mathPow: (real, real) -> Num)
    requires operation !in Operations
    ensures Render(Outcome(Some(n1), Some(n2), operation, mathPow)) == Message(ErrorText)
  {
  }

  /** An input that does not parse hides the result, whatever the operation. */
  lemma UnparsedInputHidesResult(p1: Option<real>, p2: Option<real>, operation: string,
                                 mathPow: (real, real) -> Num)
    requires p1.None? || p2.None?
    ensures Render(Outcome(p1, p2, operation, mathPow)) == Hidden
  {
  }

  /** For natural exponents, "^" multiplies powers: n1^(a + b) = n1^a * n1^b. */
  lemma PowerOfSumOfExponents(n1: real, a: nat, b: nat, mathPow: (real, real) -> Num)
    ensures Evaluate(n1, (a + b) as real, "^", mathPow)
              == Finite(Evaluate(n1, a as real, "^", mathPow).v * Evaluate(n1, b as real, "^", mathPow).v)
  {
    IntIsWhole(a);
    IntIsWhole(b);
    IntIsWhole(a + b);
    PowerAdd(n1, a, b);
  }

  /** The widget: the four state cells and its two buttons and three inputs. */
  class Widget {
    var num1: string
    var num2: string
    var result: Option<Num>
    var operation: string

    constructor ()
      ensures num1 == "" && num2 == "" && result == None && operation == "+"
    {
      num1 := "";
      num2 := "";
      result := None;
      operation := "+";
    }

    /** Typing into the first input. */
    method SetNum1(value: string)
      modifies this`num1
      ensures num1 == value
    {
      num1 := value;
    }

    /** Typing into the second input. */
    method SetNum2(value: string)
      modifies this`num2
      ensures num2 == value
    {
      num2 := value;
    }

    /** Choosing an operation. */
    method SetOperation(value: string)
      modifies this`operation
      ensures operation == value
    {
      operation := value;
    }

    /** The "Calculate" button: only the result cell changes. */
    method Calculate(parseFloat: string -> Option<real>, mathPow: (real, real) -> Num)
      modifies this`result
      ensures result == Outcome(parseFloat(num1), parseFloat(num2), operation, mathPow)
      ensures num1 == old(num1) && num2 == old(num2) && operation == old(operation)
    {
      var n1 := parseFloat(num1);
      var n2 := parseFloat(num2);
      if n1.None? || n2.None? {
        result := None;
        return;
      }
      var a, b := n1.value, n2.value;
      var res: Num;
      if operation == "+" {
        res := Finite(a + b);
      } else if operation == "-" {
        res := Finite(a - b);
      } else if operation == "*" {
        res := Finite(a * b);
      } else if operation == "/" {
        res := if b != 0.0 then Finite(a / b) else NaN;
      } else if operation == "^" {
        res := if IsNatural(b) then Finite(Power(a, b.Floor)) else mathPow(a, b);
      } else {
        res := NaN;
      }
      assert res == Evaluate(a, b, operation, mathPow);
      result := Some(res);
    }

    /** The "Clear" button: the inputs and the result are reset; the selected
        operation stays. */
    method Clear()
      modifies this`num1, this`num2, this`result
      ensures num1 == "" && num2 == "" && result == None
      ensures operation == old(operation)
    {
      num1 := "";
      num2 := "";
      result := None;
    }
  }
}
