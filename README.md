# Calculators and employee form, in Dafny

This project models the three pieces of logic in the React front end of a small
employee/department administration application:

- **AdvCalculator**, a button-driven calculator. Its state is four cells:
  - the display `num1`;
  - the pending `operator`;
  - the stored left operand `StoreFirstNum`;
  - the decimal-mode flag `hasDecimal`.

  It has seven kinds of button: digit (with "00" coded as 20), ".", operator,
  "=", "AC", "BKSP" and "%".
- **Calculator**, a two-input evaluator. It parses both inputs, applies the
  selected operation, and shows an absent result, an error text or a number.
- **EmployeeForm**, the create/edit form for an employee. It holds a `{name,
  age, city}` record, is loaded from the employee being edited or reset, is
  edited one field at a time, and guards submission.

Each component is a `class` whose fields are its state cells, with one method
per handler. The advanced calculator's button methods are each proved to
perform a pure transition function on a datatype snapshot of the four cells
(`Snapshot`, `Cells`). The employee form's methods are proved to set the form
record to `Loaded`, `Changed` or `Submit` of the old record. The basic
calculator's "Calculate" is proved to write `Outcome` of the parsed inputs.
Its input setters and "Clear" are specified field by field. The properties are
proved about those functions: single-press facts in their `ensures`,
key-sequence facts as lemmas over `Run`/`TypeDigits`.

Numbers are exact `real`s. JavaScript's `NaN` is the `NaN` constructor of
`JsNumber.Num`. The following are function parameters rather than definitions:
- `parseFloat` (`string -> Option<real>`);
- `Number` (`string -> Num`);
- `Math.pow` for exponents that are not natural numbers (`(real, real) -> Num`).

The model follows the code as written. The advanced calculator has no
fresh-entry mode: a digit typed after "=" is appended to the result. An
operator press never evaluates a pending operation. A second operator press
stores the display that the first one reset to 0.

Files:
- `wrappers.dfy`: `Option`, and `Num` with JavaScript truthiness.
- `decimals.dfy`: powers of ten, whole numbers, the fraction-digit count
  `FracDigits`, and digit-string values.
- `adv_calculator.dfy`: the advanced calculator's transitions and its widget
  class.
- `adv_calculator_props.dfy`: key sequences and their properties.
- `fraction_entry.dfy`: the decimal-entry finding below.
- `calculator.dfy`: the basic calculator.
- `employee_form.dfy`: the employee form.

## Model

| member | source | states |
|---|---|---|
| AdvCalculator.Apply | frontend/src/components/AdvCalculator.tsx:21-36 | "+", "-", "*" give stored + display, stored − display and stored · display. "/" gives the quotient (r · display = stored) when the display is nonzero and exactly 0 when it is 0. Any other operator gives 0 |
| AdvCalculator.OnEquals | frontend/src/components/AdvCalculator.tsx:11-39 | "=" puts Apply(operator, stored, display) on the display and leaves operator, stored operand and decimal flag unchanged |
| AdvCalculator.OnPercent | frontend/src/components/AdvCalculator.tsx:41-43 | "%" makes the display a hundredth of what it was (new · 100 = old); nothing else changes |
| AdvCalculator.OnBackspace | frontend/src/components/AdvCalculator.tsx:45-47 | "BKSP" makes the display the whole number t with 10t ≤ old < 10t + 10 (floor of old/10, fractions dropped); nothing else changes |
| AdvCalculator.OnDecimal | frontend/src/components/AdvCalculator.tsx:49-54 | "." sets decimal mode and never changes display, operator or stored operand |
| AdvCalculator.OnClear | frontend/src/components/AdvCalculator.tsx:56-60 | "AC" sets display 0 and decimal mode off, and keeps operator and stored operand |
| AdvCalculator.OnNumber | frontend/src/components/AdvCalculator.tsx:62-79 | above the strict cap nothing changes. Otherwise "00" appends two zero digits and a digit outside decimal mode is appended as a units digit. In decimal mode the digit goes one place after the FracDigits(display) fraction digits shown. Operator, stored operand and flag never change |
| AdvCalculator.OnOperator | frontend/src/components/AdvCalculator.tsx:81-86 | an operator press stores the display, records the operator, resets the display to 0 and leaves decimal mode |
| AdvCalculator.Widget.constructor | frontend/src/components/AdvCalculator.tsx:4-9 | the cells start as the constant `Initial`: display 0, "+", stored 0, no decimal point |
| AdvCalculator.Widget.Calculate | frontend/src/components/AdvCalculator.tsx:11-39 | the "=" handler performs OnEquals on the four cells |
| AdvCalculator.Widget.HandlePercentage | frontend/src/components/AdvCalculator.tsx:41-43 | the "%" handler performs OnPercent |
| AdvCalculator.Widget.HandleBksp | frontend/src/components/AdvCalculator.tsx:45-47 | the "BKSP" handler performs OnBackspace |
| AdvCalculator.Widget.HandleDecimal | frontend/src/components/AdvCalculator.tsx:49-54 | the "." handler performs OnDecimal |
| AdvCalculator.Widget.Clear | frontend/src/components/AdvCalculator.tsx:56-60 | the "AC" handler performs OnClear |
| AdvCalculator.Widget.HandleNumber | frontend/src/components/AdvCalculator.tsx:62-79 | the digit handler performs OnNumber |
| AdvCalculator.Widget.HandleOperator | frontend/src/components/AdvCalculator.tsx:81-86 | the operator handler performs OnOperator |
| Decimals.FracDigits | frontend/src/components/AdvCalculator.tsx:73 | the count of fraction digits is at most 20, and the display shifted by that many places is whole (unless the bound is reached) |
| Decimals.FracDigitsLeast | frontend/src/components/AdvCalculator.tsx:73 | the count is the least: any k ≤ 20 at which the shifted display is whole bounds it |
| Decimals.AppendFractionDigitShiftsBack | frontend/src/components/AdvCalculator.tsx:74 | the change made by adding d / 10^(k+1), shifted back k + 1 places, is exactly d |
| Decimals.FracDigitsAfterNonzeroDigit | frontend/src/components/AdvCalculator.tsx:73-74 | after a nonzero digit is placed after k fraction digits, the display has exactly k + 1 fraction digits |
| Decimals.DigitsValueShift | frontend/src/components/AdvCalculator.tsx:76 | appending a digit string to x gives x shifted left by its length plus the string's own value |
| AdvCalculatorProperties.TypeDigits | frontend/src/components/AdvCalculator.tsx:62-79 | digit presses never change operator, stored operand or decimal flag |
| AdvCalculatorProperties.RunWithoutOperatorKeepsOperand | frontend/src/components/AdvCalculator.tsx:81-86 | only an operator press writes the operator and the stored operand: any key sequence without one keeps both |
| AdvCalculatorProperties.EqualsBeforeAnyOperatorKeepsDisplay | frontend/src/components/AdvCalculator.tsx:4-23 | from the initial state, "=" after any key sequence without an operator leaves the display as it is (0 + display) |
| AdvCalculatorProperties.ButtonsKeepKnownOperator | frontend/src/components/AdvCalculator.tsx:126-210 | the rendered buttons only record "+", "-", "*" or "/", so the pending operator stays one of them |
| AdvCalculatorProperties.EqualsTwice | frontend/src/components/AdvCalculator.tsx:11-39 | a second "=" applies the same operator to the same stored operand and the previous result |
| AdvCalculatorProperties.OperatorTwiceStoresZero | frontend/src/components/AdvCalculator.tsx:81-86 | two operator presses in a row leave stored operand 0 and the second operator (no repeat suppression) |
| AdvCalculatorProperties.DigitRunValue | frontend/src/components/AdvCalculator.tsx:72-77 | outside decimal mode, a run of digits while the cap is not crossed appends the digits: the display becomes the digit-string value with the old display shifted left |
| AdvCalculatorProperties.DigitRunFromZero | frontend/src/components/AdvCalculator.tsx:72-77 | from display 0, a digit run shows the value the digit string denotes, a whole number with 0 ≤ value < 10^\|ds\| |
| Decimals.DigitsValueIsWhole | frontend/src/components/AdvCalculator.tsx:76 | a digit string denotes a whole number with 0 ≤ value < 10^\|ds\| |
| AdvCalculatorProperties.CapFreezesDigits | frontend/src/components/AdvCalculator.tsx:63-66 | once the display is above 1,000,000,000, no run of digit or "00" presses changes the state |
| AdvCalculatorProperties.CapIsStrict | frontend/src/components/AdvCalculator.tsx:63-69 | at exactly 1,000,000,000 a digit and "00" still grow the display |
| AdvCalculatorProperties.OperatorDigitsEquals | frontend/src/components/AdvCalculator.tsx:11-86 | an operator, a digit run and "=" compute the operator on the old display and the typed number |
| AdvCalculatorProperties.BackspaceUndoesDigit | frontend/src/components/AdvCalculator.tsx:45-47 | outside decimal mode on a whole display below the cap, backspace undoes a digit press |
| AdvCalculatorProperties.PercentUndoesDoubleZero | frontend/src/components/AdvCalculator.tsx:41-69 | below the cap, "%" undoes "00" |
| AdvCalculatorProperties.DecimalIdempotent | frontend/src/components/AdvCalculator.tsx:49-54 | "." is idempotent and never changes the display |
| AdvCalculatorProperties.DoubleZeroInDecimalMode | frontend/src/components/AdvCalculator.tsx:67-69 | "00" multiplies the display by 100 even in decimal mode |
| AdvCalculatorProperties.ZeroAfterPointKeepsValue | frontend/src/components/AdvCalculator.tsx:72-74 | in decimal mode a 0 digit leaves the state unchanged |
| AdvCalculatorProperties.ClearIdempotent | frontend/src/components/AdvCalculator.tsx:56-60 | "AC" is idempotent, and "=" right after it applies the pending operator to the stored operand and 0 |
| AdvCalculatorProperties.FivePlusThree | frontend/src/components/AdvCalculator.tsx:11-86 | 5 + 3 = shows 8 |
| AdvCalculatorProperties.TenDividedByZero | frontend/src/components/AdvCalculator.tsx:32 | 1 0 / 0 = shows 0 |
| AdvCalculatorProperties.TwoPointFiveTimesFour | frontend/src/components/AdvCalculator.tsx:11-86 | 2 . 5 * 4 = shows 10 |
| AdvCalculatorProperties.ResultFeedsNextOperator | frontend/src/components/AdvCalculator.tsx:81-86 | 9 + 1 = + 1 = shows 11: the result is stored by the next operator |
| AdvCalculatorProperties.DigitAfterEqualsAppends | frontend/src/components/AdvCalculator.tsx:62-79 | 5 + 3 = 2 shows 82: there is no fresh-entry mode |
| AdvCalculatorProperties.SecondOperatorDropsOperand | frontend/src/components/AdvCalculator.tsx:81-86 | 5 + * 3 = shows 0: the second operator stores the reset display |
| FractionEntry.PointZeroFiveShowsOnePointFive | frontend/src/components/AdvCalculator.tsx:73-74 | as written, "1 . 0 5" shows 1.5, not 1.05 |
| FractionEntry.AsWrittenPlacesNonzeroDigits | frontend/src/components/AdvCalculator.tsx:72-74 | as written, nonzero fraction digits land in the same places as with the digits-typed count |
| FractionEntry.AsWrittenAgreesWithoutZeros | frontend/src/components/AdvCalculator.tsx:72-74 | as written, nonzero digits typed after the point of a whole display show the typed decimal number |
| FractionEntry.TypeFractionValue | frontend/src/components/AdvCalculator.tsx:72-74 | counting typed fraction digits, typing ds after the point adds value(ds) / 10^(typed + \|ds\|), zeros included |
| FractionEntry.TypeFractionMonotone | frontend/src/components/AdvCalculator.tsx:72-74 | fraction digits never decrease the display |
| FractionEntry.PointZeroFiveCorrected | frontend/src/components/AdvCalculator.tsx:72-74 | counting typed fraction digits, "1 . 0 5" gives 1.05 |
| Calculator.Evaluate | frontend/src/components/Calculator.tsx:18-37 | "+", "-", "*" give the sum, difference and product. "/" is NaN exactly when n2 = 0, and otherwise r · n2 = n1. "^" is the exact power for natural exponents and whatever `Math.pow` (the `mathPow` parameter) gives otherwise. Any other operation gives NaN |
| Calculator.Outcome | frontend/src/components/Calculator.tsx:9-39 | the result is absent exactly when an input does not parse, otherwise it is Evaluate of the parsed numbers |
| Calculator.Render | frontend/src/components/Calculator.tsx:105-111 | the panel is hidden exactly when the result is absent, shows the error text exactly for NaN, and otherwise shows the number |
| Calculator.PowerAdd | frontend/src/components/Calculator.tsx:33 | x^(a+b) = x^a · x^b for natural a, b |
| Calculator.DivisionUndoesMultiplication | frontend/src/components/Calculator.tsx:26-30 | dividing a product by its nonzero second factor gives back the first |
| Calculator.DivisionByZeroShowsError | frontend/src/components/Calculator.tsx:29-30 | a parsed number divided by a parsed 0 shows "Error (division by zero)" |
| Calculator.UnknownOperationShowsError | frontend/src/components/Calculator.tsx:35-36 | an unhandled operation also shows the division-by-zero error text |
| Calculator.UnparsedInputHidesResult | frontend/src/components/Calculator.tsx:10-16 | an input that does not parse hides the result whatever the operation |
| Calculator.PowerOfSumOfExponents | frontend/src/components/Calculator.tsx:32-33 | for natural exponents "^" turns a sum of exponents into a product of powers |
| Calculator.Widget.constructor | frontend/src/components/Calculator.tsx:4-7 | both inputs start empty, no result, operation "+" |
| Calculator.Widget.SetNum1 | frontend/src/components/Calculator.tsx:58 | typing into the first input writes only that cell |
| Calculator.Widget.SetNum2 | frontend/src/components/Calculator.tsx:84 | typing into the second input writes only that cell |
| Calculator.Widget.SetOperation | frontend/src/components/Calculator.tsx:68 | choosing an operation writes only that cell |
| Calculator.Widget.Calculate | frontend/src/components/Calculator.tsx:9-40 | "Calculate" writes only the result, and writes Outcome of the parsed inputs; inputs and operation are unchanged |
| Calculator.Widget.Clear | frontend/src/components/Calculator.tsx:42-46 | "Clear" empties both inputs and the result and keeps the operation |
| EmployeeForm.Loaded | frontend/src/components/Employee/EmployeeForm.tsx:19-29 | with an employee being edited, the form holds its name, age and city. Without one it is the constant `InitialState`, the empty record {"", 0, ""} of line 10 |
| EmployeeForm.Changed | frontend/src/components/Employee/EmployeeForm.tsx:31-39 | a change event sets exactly the named field (the age through Number, name and city raw); the other two keep their values |
| EmployeeForm.Submit | frontend/src/components/Employee/EmployeeForm.tsx:41-45 | the guard is the predicate `CanSubmit` (line 43): nothing is sent exactly when the name is empty, the city is empty or the age is 0 or NaN. Otherwise the record is sent unchanged, with the edited employee's id or no id |
| EmployeeForm.ChangesCommute | frontend/src/components/Employee/EmployeeForm.tsx:34-38 | change events on different fields commute |
| EmployeeForm.LastChangeWins | frontend/src/components/Employee/EmployeeForm.tsx:34-38 | a later change of a field replaces an earlier one |
| EmployeeForm.ResetFormIsRejected | frontend/src/components/Employee/EmployeeForm.tsx:43 | the reset form is never submitted |
| EmployeeForm.LoadedEmployeeSubmits | frontend/src/components/Employee/EmployeeForm.tsx:19-45 | a loaded complete employee is submitted with its own fields and id |
| EmployeeForm.EmptiedFieldBlocksSubmit | frontend/src/components/Employee/EmployeeForm.tsx:43 | emptying any one input blocks submission (for the age, given that Number("") is 0) |
| EmployeeForm.Form.constructor | frontend/src/components/Employee/EmployeeForm.tsx:17 | the form starts as the empty record |
| EmployeeForm.Form.SyncWithEditing | frontend/src/components/Employee/EmployeeForm.tsx:19-29 | the load/reset effect sets the form to Loaded(editing) |
| EmployeeForm.Form.HandleChange | frontend/src/components/Employee/EmployeeForm.tsx:31-39 | the change handler sets the form to Changed(old form, field, value) |
| EmployeeForm.Form.HandleSubmit | frontend/src/components/Employee/EmployeeForm.tsx:41-45 | submitting returns Submit(form, editing) and, having no `modifies`, never changes the form |

## Left out

- IEEE-754 arithmetic: all numbers are exact reals. Rounding, overflow to infinity, `-0` and `NaN` inputs to the advanced calculator are not modelled.
- Decimals.FracDigits: it counts fraction digits of the exact value, up to 20. The code counts the digits of `num1.toString()`. It differs for values with more than 20 fraction digits or no finite decimal expansion, for values printed in exponent notation (such as 1e-7, where the code counts 0), and for binary rounding artefacts.
- `parseFloat`, `Number` and `Math.pow` (for exponents that are not natural numbers) are parameters. Their internals are not modelled.
- Calculator.Render: the `toFixed(2)` formatting of the shown number is not modelled; the panel carries the exact value.
- `e.preventDefault()`, the `onSubmit` callback's effects and the `onCancelEdit` button are not modelled. `HandleSubmit` returns what would be passed to `onSubmit`.
- React's batching of state updates is not modelled. Each handler reads the cells as they were when it started, and the methods do the same.
- The rendering of all three components is not modelled: markup, the age input showing "" for 0, and the heading and button labels.
- The HTTP client wrappers, the FastAPI backend and its tests, and the asynchronous load/submit/delete orchestration are not modelled. Neither are tables, navigation and the other presentational components. None of them holds logic of the modelled components.
- DepartmentForm's length and required-field constraints are not part of this model: they are HTML attributes enforced by the browser, not code.
- A conventional calculator would start a fresh entry after "=", evaluate a pending operation when an operator is pressed, and ignore a repeated operator. The code does none of these, so the model does not either. `DigitAfterEqualsAppends` and `SecondOperatorDropsOperand` show what the code does.
- FractionEntry.TypeFraction, the corrected entry, is a function on values. The widget class keeps the code's behaviour.

## Findings

| source | as written | input that shows it | evidently intended | confidence | as-written member | corrected member |
|---|---|---|---|---|---|---|
| frontend/src/components/AdvCalculator.tsx:73 | The place of a digit typed in decimal mode is taken from the fraction digits the display currently has. A typed 0 adds nothing, so the next digit lands in its place | 1 . 0 5 shows 1.5 | 1.05: places counted by the digits typed after the point | high; not executed | FractionEntry.PointZeroFiveShowsOnePointFive | FractionEntry.TypeFractionValue |
