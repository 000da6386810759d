/** What the advanced calculator's transitions do over sequences of key
    presses: digit runs, "=" after an operator, repeated "=", the cap, and the
    keys that undo one another. */
module AdvCalculatorProperties {
  import opened Decimals
  import opened AdvCalculator

  /** One press of one of the widget's buttons. */
  datatype Key =
    | NumberKey(mynum: int)
    | DecimalKey
    | OperatorKey(op: string)
    | EqualsKey
    | ClearKey
    | BackspaceKey
    | PercentKey

  /** The state after one key press. */
  function Press(s: Cells, k: Key): Cells {
    match k
    case NumberKey(n) => OnNumber(s, n)
    case DecimalKey => OnDecimal(s)
    case OperatorKey(op) => OnOperator(s, op)
    case EqualsKey => OnEquals(s)
    case ClearKey => OnClear(s)
    case BackspaceKey => OnBackspace(s)
    case PercentKey => OnPercent(s)
  }

  /** The state after pressing the keys in order. */
  function Run(s: Cells, keys: seq<Key>): Cells
    decreases keys
  {
    if keys == [] then s else Run(Press(s, keys[0]), keys[1..])
  }

  /** The keys the rendered buttons produce: digits 0-9, "00" (code 20), and
      the four operators. */
  predicate IsButton(k: Key) {
    match k
    case NumberKey(n) => 0 <= n <= 9 || n == DoubleZeroKey
    case OperatorKey(op) => op in Operators
    case _ => true
  }

  /** The state after typing the digit keys ds in order; only the display can
      change. */
  function TypeDigits(s: Cells, ds: seq<int>): (t: Cells)
    decreases ds
    ensures t.operator == s.operator && t.storeFirstNum == s.storeFirstNum
    ensures t.hasDecimal == s.hasDecimal
  {
    if ds == [] then s else TypeDigits(OnNumber(s, ds[0]), ds[1..])
  }

  // ---------------------------------------------------------------------
  // Operator and stored operand

  /** Only an operator key writes the operator and the stored operand. */
  lemma {:induction false} RunWithoutOperatorKeepsOperand(s: Cells, keys: seq<Key>)
    requires forall i :: 0 <= i < |keys| ==> !keys[i].OperatorKey?
    ensures Run(s, keys).operator == s.operator
    ensures Run(s, keys).storeFirstNum == s.storeFirstNum
    decreases keys
  {
    if keys != [] {
      RunWithoutOperatorKeepsOperand(Press(s, keys[0]), keys[1..]);
    }
  }

  /** Before any operator press the state holds "+" and 0, so "=" leaves the
      display as it is, whatever else was pressed. */
  lemma EqualsBeforeAnyOperatorKeepsDisplay(keys: seq<Key>)
    requires forall i :: 0 <= i < |keys| ==> !keys[i].OperatorKey?
    ensures OnEquals(Run(Initial, keys)) == Run(Initial, keys)
  {
    RunWithoutOperatorKeepsOperand(Initial, keys);
  }

  /** Pressed from the initial state, the buttons only ever leave one of the
      four known operators pending, so "=" never takes its fallback branch. */
  lemma {:induction false} ButtonsKeepKnownOperator(s: Cells, keys: seq<Key>)
    requires s.operator in Operators
    requires forall i :: 0 <= i < |keys| ==> IsButton(keys[i])
    ensures Run(s, keys).operator in Operators
    decreases keys
  {
    if keys != [] {
      ButtonsKeepKnownOperator(Press(s, keys[0]), keys[1..]);
    }
  }

  /** A second "=" applies the same operator to the same stored operand and
      the previous result. */
  lemma EqualsTwice(s: Cells)
    ensures OnEquals(OnEquals(s)).num1
              == Apply(s.operator, s.storeFirstNum, Apply(s.operator, s.storeFirstNum, s.num1))
    ensures OnEquals(OnEquals(s)).operator == s.operator
    ensures OnEquals(OnEquals(s)).storeFirstNum == s.storeFirstNum
  {
  }

  /** Two operator presses in a row: the second stores the display the first
      reset, so the stored operand is 0 (no repeat suppression). */
  lemma OperatorTwiceStoresZero(s: Cells, op1: string, op2: string)
    ensures OnOperator(OnOperator(s, op1), op2) == Cells(0.0, op2, 0.0, false)
  {
  }

  // ---------------------------------------------------------------------
  // Digit entry

  /** Outside decimal mode, a run of digit keys appends the digits to the
      display as long as the display has not passed the cap before a press. */
  lemma {:induction false} DigitRunValue(s: Cells, ds: seq<int>)
    requires !s.hasDecimal && AllDigits(ds)
    requires forall i :: 0 <= i < |ds| ==> DigitsValue(s.num1, ds[..i]) <= Cap
    ensures TypeDigits(s, ds) == s.(num1 := DigitsValue(s.num1, ds))
    decreases ds
  {
    if ds != [] {
      assert ds[..0] == [];
      var t := OnNumber(s, ds[0]);
      assert t.num1 == 10.0 * s.num1 + ds[0] as real;
      forall i | 0 <= i < |ds[1..]|
        ensures DigitsValue(t.num1, ds[1..][..i]) <= Cap
      {
        assert ds[..i + 1][0] == ds[0];
        assert ds[..i + 1][1..] == ds[1..][..i];
        assert DigitsValue(s.num1, ds[..i + 1]) <= Cap;
      }
      DigitRunValue(t, ds[1..]);
    }
  }

  /** From display 0, a digit run shows the number the digit string denotes:
      a whole number with at most as many digits as were typed. */
  lemma DigitRunFromZero(s: Cells, ds: seq<int>)
    requires s.num1 == 0.0 && !s.hasDecimal && AllDigits(ds)
    requires forall i :: 0 <= i < |ds| ==> DigitsValue(0.0, ds[..i]) <= Cap
    ensures TypeDigits(s, ds).num1 == DigitsValue(0.0, ds)
    ensures IsWhole(TypeDigits(s, ds).num1)
    ensures 0.0 <= TypeDigits(s, ds).num1 < Pow10(|ds|)
  {
    DigitRunValue(s, ds);
    DigitsValueIsWhole(ds);
  }

  /** Once the display is above the cap, no run of digit keys changes anything. */
  lemma {:induction false} CapFreezesDigits(s: Cells, ds: seq<int>)
    requires s.num1 > Cap
    ensures TypeDigits(s, ds) == s
    decreases ds
  {
    if ds != [] {
      CapFreezesDigits(OnNumber(s, ds[0]), ds[1..]);
    }
  }

  /** The cap is strict: at exactly 1,000,000,000 a digit still grows the display. */
  lemma CapIsStrict(s: Cells, d: int)
    requires s.num1 == Cap && !s.hasDecimal && 0 <= d <= 9
    ensures OnNumber(s, d).num1 == 10.0 * Cap + d as real
    ensures OnNumber(s, DoubleZeroKey).num1 == 100.0 * Cap
  {
  }

  /** An operator, a digit run and "=" compute the operator on the old display
      and the typed number. */
  lemma OperatorDigitsEquals(s: Cells, op: string, ds: seq<int>)
    requires AllDigits(ds)
    requires forall i :: 0 <= i < |ds| ==> DigitsValue(0.0, ds[..i]) <= Cap
    ensures OnEquals(TypeDigits(OnOperator(s, op), ds))
              == Cells(Apply(op, s.num1, DigitsValue(0.0, ds)), op, s.num1, false)
  {
    DigitRunValue(OnOperator(s, op), ds);
  }

  /** Backspace undoes a digit typed onto a whole display outside decimal mode. */
  lemma BackspaceUndoesDigit(s: Cells, d: int)
    requires !s.hasDecimal && IsWhole(s.num1) && s.num1 <= Cap && 0 <= d <= 9
    ensures OnBackspace(OnNumber(s, d)) == s
  {
    var x := s.num1;
    var y := OnNumber(s, d).num1;
    assert y / 10.0 == x + d as real / 10.0;
    assert 0.0 <= d as real / 10.0 < 1.0;
    assert (y / 10.0).Floor == x.Floor;
  }

  /** Percent undoes "00" (below the cap). */
  lemma PercentUndoesDoubleZero(s: Cells)
    requires s.num1 <= Cap
    ensures OnPercent(OnNumber(s, DoubleZeroKey)) == s
  {
  }

  // ---------------------------------------------------------------------
  // Decimal entry

  /** The decimal key is idempotent and never changes the display. */
  lemma DecimalIdempotent(s: Cells)
    ensures OnDecimal(OnDecimal(s)) == OnDecimal(s)
    ensures OnDecimal(s).num1 == s.num1
  {
  }

  /** "00" multiplies by 100 even in decimal mode. */
  lemma DoubleZeroInDecimalMode(s: Cells)
    requires s.hasDecimal && s.num1 <= Cap
    ensures OnNumber(s, DoubleZeroKey).num1 == 100.0 * s.num1
  {
  }

  /** In decimal mode a 0 digit leaves the display as it is. */
  lemma ZeroAfterPointKeepsValue(s: Cells)
    requires s.hasDecimal
    ensures OnNumber(s, 0) == s
  {
  }

  /** Clear is idempotent and keeps the pending operation. */
  lemma ClearIdempotent(s: Cells)
    ensures OnClear(OnClear(s)) == OnClear(s)
    ensures OnEquals(OnClear(s)).num1 == Apply(s.operator, s.storeFirstNum, 0.0)
  {
  }

  // ---------------------------------------------------------------------
  // Key sequences from the initial state

  /** 5 + 3 = shows 8. */
  lemma FivePlusThree()
    ensures Run(Initial, [NumberKey(5), OperatorKey("+"), NumberKey(3), EqualsKey]).num1 == 8.0
  {
  }

  /** 1 0 / 0 = shows 0: division by zero gives 0. */
  lemma TenDividedByZero()
    ensures Run(Initial, [NumberKey(1), NumberKey(0), OperatorKey("/"), NumberKey(0), EqualsKey]).num1 == 0.0
  {
  }

  /** 2 . 5 * 4 = shows 10. */
  lemma TwoPointFiveTimesFour()
    ensures Run(Initial, [NumberKey(2), DecimalKey, NumberKey(5), OperatorKey("*"), NumberKey(4), EqualsKey]).num1
              == 10.0
  {
    assert FracDigits(2.0) == 0 by { assert WholeAt(2.0, 0); }
  }

  /** 9 + 1 = + 1 = shows 11: the result becomes the next stored operand. */
  lemma ResultFeedsNextOperator()
    ensures Run(Initial, [NumberKey(9), OperatorKey("+"), NumberKey(1), EqualsKey,
                          OperatorKey("+"), NumberKey(1), EqualsKey]).num1 == 11.0
  {
  }

  /** 5 + 3 = 2 shows 82: a digit after "=" is appended to the result. */
  lemma DigitAfterEqualsAppends()
    ensures Run(Initial, [NumberKey(5), OperatorKey("+"), NumberKey(3), EqualsKey, NumberKey(2)]).num1 == 82.0
  {
  }

  /** 5 + * 3 = shows 0: the second operator press stores the reset display. */
  lemma SecondOperatorDropsOperand()
    ensures Run(Initial, [NumberKey(5), OperatorKey("+"), OperatorKey("*"), NumberKey(3), EqualsKey]).num1 == 0.0
  {
  }
}
