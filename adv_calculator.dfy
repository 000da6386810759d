/** The advanced calculator: a key-press state machine over four state cells,
    the display `num1`, the pending `operator`, the stored left operand
    `storeFirstNum` and the decimal-mode flag `hasDecimal`.

    Each button is a transition function on `Cells`; the class `Widget` holds
    the four cells as fields and has one method per button, each proved to
    perform its transition. Values are exact reals. */
module AdvCalculator {
  import opened Decimals

  /** A digit press is ignored once the display is strictly above this. */
  const Cap: real := 1000000000.0

  /** The key code the "00" button passes to the digit handler. */
  const DoubleZeroKey: int := 20

  /** The operators the buttons produce. */
  const Operators: set<string> := {"+", "-", "*", "/"}

  /** The four state cells of the widget. */
  datatype Cells = Cells(num1: real, operator: string, storeFirstNum: real, hasDecimal: bool)

  /** Display 0, operator "+", stored operand 0, not in decimal mode. */
  const Initial: Cells := Cells(0.0, "+", 0.0, false)

  /** The value "=" puts on the display: the stored operand combined with the
      display. Division by zero gives 0 and an unknown operator gives 0. */
  function Apply(op: string, left: real, right: real): (r: real)
    ensures op == "+" ==> r == left + right
    ensures op == "-" ==> r == left - right
    ensures op == "*" ==> r == left * right
    ensures op == "/" && right != 0.0 ==> r * right == left
    ensures op == "/" && right == 0.0 ==> r == 0.0
    ensures op !in Operators ==> r == 0.0
  {
    if op == "+" then left + right
    else if op == "-" then left - right
    else if op == "*" then left * right
    else if op == "/" then (if right != 0.0 then left / right else 0.0)
    else 0.0
  }

  /** "=": only the display changes. */
  function OnEquals(s: Cells): (t: Cells)
    ensures t.operator == s.operator && t.storeFirstNum == s.storeFirstNum
    ensures t.hasDecimal == s.hasDecimal
    ensures t.num1 == Apply(s.operator, s.storeFirstNum, s.num1)
  {
    s.(num1 := Apply(s.operator, s.storeFirstNum, s.num1))
  }

  /** "%": the display is divided by 100; nothing else changes. */
  function OnPercent(s: Cells): (t: Cells)
    ensures t.operator == s.operator && t.storeFirstNum == s.storeFirstNum
    ensures t.hasDecimal == s.hasDecimal
    ensures t.num1 * 100.0 == s.num1
  {
    s.(num1 := s.num1 / 100.0)
  }

  /** "BKSP": the display becomes the whole number of tens it holds, rounded
      down (fraction digits are dropped too); nothing else changes. */
  function OnBackspace(s: Cells): (t: Cells)
    ensures t.operator == s.operator && t.storeFirstNum == s.storeFirstNum
    ensures t.hasDecimal == s.hasDecimal
    ensures IsWhole(t.num1)
    ensures 10.0 * t.num1 <= s.num1 < 10.0 * t.num1 + 10.0
  {
    s.(num1 := (s.num1 / 10.0).Floor as real)
  }

  /** ".": enters decimal mode; the display is left as it is. */
  function OnDecimal(s: Cells): (t: Cells)
    ensures t.num1 == s.num1 && t.operator == s.operator
    ensures t.storeFirstNum == s.storeFirstNum
    ensures t.hasDecimal
  {
    if !s.hasDecimal then s.(hasDecimal := true) else s
  }

  /** "AC": display 0 and decimal mode off; operator and stored operand stay. */
  function OnClear(s: Cells): (t: Cells)
    ensures t.num1 == 0.0 && !t.hasDecimal
    ensures t.operator == s.operator && t.storeFirstNum == s.storeFirstNum
  {
    s.(num1 := 0.0, hasDecimal := false)
  }

  /** A digit key (0-9) or the "00" key (code 20). Above the cap nothing
      changes; "00" multiplies by 100 in either mode; outside decimal mode a
      digit is appended as a new units digit; in decimal mode it is added one
      place after the last fraction digit the display shows. */
  function OnNumber(s: Cells, mynum: int): (t: Cells)
    ensures t.operator == s.operator && t.storeFirstNum == s.storeFirstNum
    ensures t.hasDecimal == s.hasDecimal
    ensures s.num1 > Cap ==> t == s
    ensures s.num1 <= Cap && mynum == DoubleZeroKey ==> t.num1 == DigitsValue(s.num1, [0, 0])
    ensures s.num1 <= Cap && mynum != DoubleZeroKey && !s.hasDecimal ==>
              t.num1 == DigitsValue(s.num1, [mynum])
    ensures s.num1 <= Cap && mynum != DoubleZeroKey && s.hasDecimal ==>
              t.num1 == AppendFractionDigit(s.num1, FracDigits(s.num1), mynum)
  {
    if s.num1 > Cap then s
    else if mynum == DoubleZeroKey then
      DigitsValueDoubleZero(s.num1);
      s.(num1 := s.num1 * 100.0)
    else if s.hasDecimal then
      var decimalPlaces := FracDigits(s.num1);
      s.(num1 := AppendFractionDigit(s.num1, decimalPlaces, mynum))
    else
      DigitsValueOne(s.num1, mynum);
      s.(num1 := s.num1 * 10.0 + mynum as real)
  }

  /** An operator key: the display becomes the stored operand, the operator is
      recorded, the display is reset to 0 and decimal mode is left. */
  function OnOperator(s: Cells, op: string): (t: Cells)
    ensures t.storeFirstNum == s.num1 && t.operator == op
    ensures t.num1 == 0.0 && !t.hasDecimal
  {
    Cells(0.0, op, s.num1, false)
  }

  /** The widget itself: the four state cells and one method per button. */
  class Widget {
    var num1: real
    var operator: string
    var storeFirstNum: real
    var hasDecimal: bool

    /** The current values of the four cells. */
    function Snapshot(): Cells
      reads this
    {
      Cells(num1, operator, storeFirstNum, hasDecimal)
    }

    constructor ()
      ensures Snapshot() == Initial
    {
      num1 := 0.0;
      operator := "+";
      storeFirstNum := 0.0;
      hasDecimal := false;
    }

    /** The "=" button. */
    method Calculate()
      modifies this
      ensures Snapshot() == OnEquals(old(Snapshot()))
    {
      var res: real;
      if operator == "+" {
        res := storeFirstNum + num1;
      } else if operator == "-" {
        res := storeFirstNum - num1;
      } else if operator == "*" {
        res := storeFirstNum * num1;
      } else if operator == "/" {
        res := if num1 != 0.0 then storeFirstNum / num1 else 0.0;
      } else {
        res := 0.0;
      }
      num1 := res;
    }

    /** The "%" button. */
    method HandlePercentage()
      modifies this
      ensures Snapshot() == OnPercent(old(Snapshot()))
    {
      num1 := num1 / 100.0;
    }

    /** The "BKSP" button. */
    method HandleBksp()
      modifies this
      ensures Snapshot() == OnBackspace(old(Snapshot()))
    {
      num1 := (num1 / 10.0).Floor as real;
    }

    /** The "." button. */
    method HandleDecimal()
      modifies this
      ensures Snapshot() == OnDecimal(old(Snapshot()))
    {
      if !hasDecimal {
        hasDecimal := true;
      }
    }

    /** The "AC" button. */
    method Clear()
      modifies this
      ensures Snapshot() == OnClear(old(Snapshot()))
    {
      num1 := 0.0;
      hasDecimal := false;
    }

    /** The digit buttons and "00" (code 20). */
    method HandleNumber(mynum: int)
      modifies this
      ensures Snapshot() == OnNumber(old(Snapshot()), mynum)
    {
      if num1 > Cap {
        return;
      }
      if mynum == DoubleZeroKey {
        num1 := num1 * 100.0;
      } else if hasDecimal {
        var decimalPlaces := FracDigits(num1);
        num1 := num1 + mynum as real / Pow10(decimalPlaces + 1);
      } else {
        num1 := num1 * 10.0 + mynum as real;
      }
    }

    /** The operator buttons. */
    method HandleOperator(myoperator: string)
      modifies this
      ensures Snapshot() == OnOperator(old(Snapshot()), myoperator)
    {
      operator := myoperator;
      storeFirstNum := num1;
      num1 := 0.0;
      hasDecimal := false;
    }
  }
}
