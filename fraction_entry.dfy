/** Digits typed after the decimal point.

    As written, the advanced calculator places a fraction digit one place
    after the fraction digits the display currently shows. A typed 0 adds
    nothing and so is not shown, and the next digit lands in its place:
    "1 . 0 5" shows 1.5, not 1.05. Without zeros the placement is right.

    The corrected entry counts the digits typed after the point instead, and
    then the display always shows the typed decimal number. */
module FractionEntry {
  import opened Decimals
  import opened AdvCalculator
  import opened AdvCalculatorProperties

  // ---------------------------------------------------------------------
  // As written

  /** "1 . 0 5" shows 1.5: the typed 0 is lost. */
  lemma PointZeroFiveShowsOnePointFive()
    ensures Run(Initial, [NumberKey(1), DecimalKey, NumberKey(0), NumberKey(5)]).num1 == 1.5
    ensures Run(Initial, [NumberKey(1), DecimalKey, NumberKey(0), NumberKey(5)]).num1 != 1.05
  {
    var keys := [NumberKey(1), DecimalKey, NumberKey(0), NumberKey(5)];
    var s1 := OnNumber(Initial, 1);
    assert s1 == Cells(1.0, "+", 0.0, false);
    var s2 := OnDecimal(s1);
    assert s2 == Cells(1.0, "+", 0.0, true);
    ZeroAfterPointKeepsValue(s2);
    FracDigitsLeast(1.0, 0);
    assert FracDigits(1.0) == 0;
    var s4 := OnNumber(s2, 5);
    assert s4.num1 == AppendFractionDigit(1.0, 0, 5) == 1.5;
    assert Run(Initial, keys) == Run(s1, keys[1..]) == Run(s2, keys[2..]) == Run(s2, keys[3..]);
    assert Run(s2, keys[3..]) == Run(s4, []);
  }

  /** As written, nonzero fraction digits typed after the point of a display
      with k fraction digits land in places k + 1, k + 2, ... as the corrected
      entry would place them. */
  lemma {:induction false} AsWrittenPlacesNonzeroDigits(s: Cells, k: nat, ds: seq<int>)
    requires s.hasDecimal && FracDigits(s.num1) == k && k + |ds| <= MaxFracDigits
    requires forall i :: 0 <= i < |ds| ==> 1 <= ds[i] <= 9
    requires TypeFraction(s.num1, k, ds) <= Cap
    ensures TypeDigits(s, ds) == s.(num1 := TypeFraction(s.num1, k, ds))
    decreases ds
  {
    if ds != [] {
      var x := s.num1;
      var d := ds[0];
      var y := AppendFractionDigit(x, k, d);
      TypeFractionMonotone(y, k + 1, ds[1..]);
      assert x <= y;
      assert OnNumber(s, d).num1 == y;
      assert WholeAt(x, k);
      FracDigitsAfterNonzeroDigit(x, k, d);
      AsWrittenPlacesNonzeroDigits(s.(num1 := y), k + 1, ds[1..]);
    }
  }

  /** As written, typing nonzero digits after the point of a whole display
      shows the typed decimal number. */
  lemma AsWrittenAgreesWithoutZeros(s: Cells, ds: seq<int>)
    requires s.hasDecimal && IsWhole(s.num1) && |ds| <= MaxFracDigits
    requires forall i :: 0 <= i < |ds| ==> 1 <= ds[i] <= 9
    requires s.num1 + DigitsValue(0.0, ds) / Pow10(|ds|) <= Cap
    ensures TypeDigits(s, ds).num1 == s.num1 + DigitsValue(0.0, ds) / Pow10(|ds|)
  {
    assert WholeAt(s.num1, 0);
    assert FracDigits(s.num1) == 0;
    TypeFractionValue(s.num1, 0, ds);
    AsWrittenPlacesNonzeroDigits(s, 0, ds);
  }

  // ---------------------------------------------------------------------
  // Corrected: count the digits typed after the point

  /** The display after typing fraction digits ds, `typed` of them already typed. */
  function TypeFraction(x: real, typed: nat, ds: seq<int>): real
    decreases ds
  {
    if ds == [] then x else TypeFraction(AppendFractionDigit(x, typed, ds[0]), typed + 1, ds[1..])
  }

  /** The arithmetic step of TypeFractionValue: digit d in place a, followed
      by the value v of the remaining digits b places further right. */
  lemma AddShiftedDigit(x: real, d: real, v: real, a: real, b: real, p: real, y: real, t: real, w: real)
    requires a > 0.0 && b > 0.0 && p == a * b
    requires y == x + d / a && t == y + v / p
    requires w == d * b + v
    ensures t == x + w / p
  {
    assert (d * b) / (a * b) == d / a;
  }

  /** One step of TypeFractionValue: digit d placed after `typed` fraction
      digits, then digits worth v placed n further places right, add the
      value w = d 10^n + v of all of them, shifted by typed + 1 + n places. */
  lemma FractionStep(x: real, typed: nat, n: nat, d: int, v: real, w: real, t: real)
    requires t == AppendFractionDigit(x, typed, d) + v / Pow10(typed + 1 + n)
    requires w == d as real * Pow10(n) + v
    ensures t == x + w / Pow10(typed + 1 + n)
  {
    Pow10Add(typed + 1, n);
    AddShiftedDigit(x, d as real, v, Pow10(typed + 1), Pow10(n), Pow10(typed + 1 + n),
                    AppendFractionDigit(x, typed, d), t, w);
  }

  /** Typing digits ds after `typed` fraction digits adds the value of ds,
      shifted right by typed + |ds| places; zeros included. */
  lemma {:induction false} TypeFractionValue(x: real, typed: nat, ds: seq<int>)
    ensures TypeFraction(x, typed, ds) == x + DigitsValue(0.0, ds) / Pow10(typed + |ds|)
    decreases ds
  {
    if ds != [] {
      var rest := ds[1..];
      var y := AppendFractionDigit(x, typed, ds[0]);
      TypeFractionValue(y, typed + 1, rest);
      DigitsValueShift(ds[0] as real, rest);
      assert typed + |ds| == typed + 1 + |rest|;
      FractionStep(x, typed, |rest|, ds[0], DigitsValue(0.0, rest), DigitsValue(0.0, ds),
                   TypeFraction(x, typed, ds));
    }
  }

  /** Digits typed after the point never decrease the display. */
  lemma {:induction false} TypeFractionMonotone(x: real, typed: nat, ds: seq<int>)
    requires forall i :: 0 <= i < |ds| ==> 0 <= ds[i]
    ensures TypeFraction(x, typed, ds) >= x
    decreases ds
  {
    if ds != [] {
      TypeFractionMonotone(AppendFractionDigit(x, typed, ds[0]), typed + 1, ds[1..]);
    }
  }

  /** With the count kept, "1 . 0 5" gives 1.05. */
  lemma PointZeroFiveCorrected()
    ensures TypeFraction(1.0, 0, [0, 5]) == 1.05
  {
    TypeFractionValue(1.0, 0, [0, 5]);
  }
}
