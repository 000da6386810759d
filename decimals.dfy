/** Decimal notation over exact reals: powers of ten, whole numbers, the
    number of fraction digits of a value, and the value of a typed digit string. */
module Decimals {

  /** 10^k. */
  function Pow10(k: nat): (r: real)
    ensures r >= 1.0
  {
    if k == 0 then 1.0 else 10.0 * Pow10(k - 1)
  }

  /** Shifting by a places and then by b places shifts by a + b places. */
  lemma {:induction false} Pow10Add(a: nat, b: nat)
    ensures Pow10(a + b) == Pow10(a) * Pow10(b)
  {
    if a > 0 {
      Pow10Add(a - 1, b);
      assert Pow10(a + b) == 10.0 * Pow10(a - 1 + b);
    }
  }

  /** True when x has no fractional part. */
  predicate IsWhole(x: real) {
    x.Floor as real == x
  }

  /** True when x shifted k places left has no fractional part, that is, when
      x needs at most k fraction digits. */
  predicate WholeAt(x: real, k: nat) {
    IsWhole(x * Pow10(k))
  }

  /** The largest number of fraction digits the model counts. A value needing
      more (or one with no finite decimal expansion, such as 1/3) is taken to
      have this many. */
  const MaxFracDigits: nat := 20

  /** The least k in [from, MaxFracDigits] at which x * 10^k is whole, or
      MaxFracDigits when there is none. */
  function FracDigitsFrom(x: real, from: nat): (r: nat)
    requires from <= MaxFracDigits
    decreases MaxFracDigits - from
    ensures from <= r <= MaxFracDigits
    ensures WholeAt(x, r) || r == MaxFracDigits
  {
    if WholeAt(x, from) || from == MaxFracDigits then from
    else FracDigitsFrom(x, from + 1)
  }

  /** The number of digits after the decimal point when x is written out in
      full: the least k such that x * 10^k is whole (bounded by MaxFracDigits). */
  function FracDigits(x: real): (r: nat)
    ensures r <= MaxFracDigits
    ensures WholeAt(x, r) || r == MaxFracDigits
  {
    FracDigitsFrom(x, 0)
  }

  /** The count is the least: any k from `from` on at which x * 10^k is whole
      bounds it. */
  lemma {:induction false} FracDigitsFromLeast(x: real, from: nat, k: nat)
    requires from <= k <= MaxFracDigits && WholeAt(x, k)
    ensures FracDigitsFrom(x, from) <= k
    decreases k - from
  {
    if from < k && !WholeAt(x, from) {
      FracDigitsFromLeast(x, from + 1, k);
    }
  }

  /** FracDigits is the least such count. */
  lemma FracDigitsLeast(x: real, k: nat)
    requires k <= MaxFracDigits && WholeAt(x, k)
    ensures FracDigits(x) <= k
  {
    FracDigitsFromLeast(x, 0, k);
  }

  /** Decimal digits, the values a digit key stands for. */
  predicate AllDigits(ds: seq<int>) {
    forall i :: 0 <= i < |ds| ==> 0 <= ds[i] <= 9
  }

  /** The value reached by appending the digits ds, left to right, to acc:
      each digit shifts the value one place left and fills the units place. */
  function DigitsValue(acc: real, ds: seq<int>): real
    decreases ds
  {
    if ds == [] then acc else DigitsValue(10.0 * acc + ds[0] as real, ds[1..])
  }

  /** Appending a digit string to acc is the same as shifting acc left by the
      length of the string and adding the string's own value. */
  lemma {:induction false} DigitsValueShift(acc: real, ds: seq<int>)
    ensures DigitsValue(acc, ds) == acc * Pow10(|ds|) + DigitsValue(0.0, ds)
    decreases ds
  {
    if ds != [] {
      var d := ds[0] as real;
      DigitsValueShift(10.0 * acc + d, ds[1..]);
      DigitsValueShift(d, ds[1..]);
      assert DigitsValue(0.0, ds) == DigitsValue(d, ds[1..]);
      assert Pow10(|ds|) == 10.0 * Pow10(|ds[1..]|);
    }
  }

  /** The arithmetic step of DigitsValueIsWhole: a leading digit d in front
      of a value n below 10^k (p = 10^k) gives the integer d p + n, below 10^(k+1). */
  lemma LeadingDigit(d: int, p: int, n: int, big: real, v: real, w: real, next: real)
    requires 0 <= d <= 9 && big == p as real && v == n as real && 0.0 <= v < big
    requires w == d as real * big + v && next == 10.0 * big
    ensures w == (d * p + n) as real && 0.0 <= w < next
  {
    assert d as real * big <= 9.0 * big;
  }

  /** A digit string denotes a whole number with at most |ds| digits. */
  lemma {:induction false} DigitsValueIsWhole(ds: seq<int>)
    requires AllDigits(ds)
    ensures IsWhole(DigitsValue(0.0, ds)) && 0.0 <= DigitsValue(0.0, ds) < Pow10(|ds|)
    decreases ds
  {
    if ds != [] {
      var rest := ds[1..];
      assert forall i :: 0 <= i < |rest| ==> rest[i] == ds[i + 1];
      DigitsValueIsWhole(rest);
      DigitsValueShift(ds[0] as real, rest);
      assert DigitsValue(0.0, ds) == DigitsValue(ds[0] as real, rest);
      Pow10IsWhole(|rest|);
      var p := WholeValue(Pow10(|rest|));
      var n := WholeValue(DigitsValue(0.0, rest));
      LeadingDigit(ds[0], p, n, Pow10(|rest|), DigitsValue(0.0, rest), DigitsValue(0.0, ds), Pow10(|ds|));
      IntIsWhole(ds[0] * p + n);
    }
  }

  /** Appending one digit d to acc gives 10 acc + d. */
  lemma DigitsValueOne(acc: real, d: int)
    ensures DigitsValue(acc, [d]) == 10.0 * acc + d as real
  {
    assert [d][1..] == [];
  }

  /** Appending two zeros to acc gives 100 acc. */
  lemma DigitsValueDoubleZero(acc: real)
    ensures DigitsValue(acc, [0, 0]) == 100.0 * acc
  {
    assert [0, 0][1..] == [0];
    DigitsValueOne(10.0 * acc, 0);
  }

  /** Digit d placed in fraction place k + 1 of x. */
  function AppendFractionDigit(x: real, k: nat, d: int): real {
    x + d as real / Pow10(k + 1)
  }

  /** Shifted back k + 1 places, the change AppendFractionDigit makes is the
      digit itself. */
  lemma AppendFractionDigitShiftsBack(x: real, k: nat, d: int)
    ensures (AppendFractionDigit(x, k, d) - x) * Pow10(k + 1) == d as real
  {
    var p := Pow10(k + 1);
    assert (x + d as real / p - x) * p == d as real;
  }

  /** Every power of ten is a whole number. */
  lemma {:induction false} Pow10IsWhole(k: nat)
    ensures IsWhole(Pow10(k))
  {
    if k > 0 {
      Pow10IsWhole(k - 1);
      var p := Pow10(k - 1).Floor;
      assert Pow10(k) == (10 * p) as real;
    }
  }

  /** y shifted by k + 1 places reads the integer m followed by the digit d. */
  predicate ReadsAsDigitAfter(y: real, k: nat, m: int, d: int) {
    y * Pow10(k + 1) == (10 * m + d) as real
  }

  /** A value whose shift by k + 1 places is 10m + d, with d a nonzero digit,
      is not whole when shifted by k places or fewer: its last digit is d. */
  lemma NotWholeBeforeLastDigit(y: real, k: nat, j: nat, m: int, d: int)
    requires ReadsAsDigitAfter(y, k, m, d) && 1 <= d <= 9 && j <= k
    ensures !WholeAt(y, j)
  {
    if WholeAt(y, j) {
      var e: nat := k + 1 - j;
      var a := y * Pow10(j);
      var q := WholeValue(a);
      Pow10IsWhole(e - 1);
      var p := WholeValue(Pow10(e - 1));
      Pow10Add(j, e);
      assert Pow10(e) == 10.0 * (p as real);
      var t := q * p;
      ShiftInTwoSteps(y, Pow10(j), Pow10(e), q, p);
      LastDigitOfMultipleOfTen(m, d, t);
    }
  }

  /** Shifting y by a then by b places, where y shifted by a reads q and b is
      ten times p: the result reads 10qp. */
  lemma ShiftInTwoSteps(y: real, a: real, b: real, q: int, p: int)
    requires y * a == q as real && b == 10.0 * (p as real)
    ensures y * (a * b) == (10 * (q * p)) as real
  {
    assert y * (a * b) == (y * a) * b;
  }

  /** 10m + d with d a nonzero digit is not a multiple of ten. */
  lemma LastDigitOfMultipleOfTen(m: int, d: int, t: int)
    requires 1 <= d <= 9
    ensures (10 * m + d) as real != (10 * t) as real
  {
  }

  /** An integer is whole. */
  lemma IntIsWhole(n: int)
    ensures IsWhole(n as real)
  {
  }

  /** The integer a whole number stands for. */
  lemma WholeValue(z: real) returns (m: int)
    requires IsWhole(z)
    ensures m as real == z
  {
    m := z.Floor;
  }

  /** Such a y is whole when shifted by k + 1 places. */
  lemma ReadsAsDigitAfterIsWhole(y: real, k: nat, m: int, d: int)
    requires ReadsAsDigitAfter(y, k, m, d)
    ensures WholeAt(y, k + 1)
  {
    IntIsWhole(10 * m + d);
    assert y * Pow10(k + 1) == (10 * m + d) as real;
  }

  /** Placing digit d right after the k fraction digits of x: shifted by
      k + 1 places, the result reads as x's digits (the integer m) followed by d. */
  lemma ShiftAfterDigit(x: real, k: nat, d: int) returns (m: int)
    requires WholeAt(x, k)
    ensures ReadsAsDigitAfter(AppendFractionDigit(x, k, d), k, m, d)
  {
    m := WholeValue(x * Pow10(k));
    var y := AppendFractionDigit(x, k, d);
    var p := Pow10(k);
    var q := Pow10(k + 1);
    assert q == 10.0 * p;
    assert x * q == 10.0 * (x * p);
    AppendFractionDigitShiftsBack(x, k, d);
    assert (y - x) * q == d as real;
    assert y * q == x * q + (y - x) * q;
  }

  /** A value whose shift by k + 1 places reads 10m + d, with d a nonzero
      digit, needs exactly k + 1 fraction digits. */
  lemma FracDigitsOfLastDigit(y: real, k: nat, m: int, d: int)
    requires k < MaxFracDigits && 1 <= d <= 9
    requires ReadsAsDigitAfter(y, k, m, d)
    ensures FracDigits(y) == k + 1
  {
    ReadsAsDigitAfterIsWhole(y, k, m, d);
    FracDigitsLeast(y, k + 1);
    var r := FracDigits(y);
    if r < k + 1 {
      assert WholeAt(y, r);
      NotWholeBeforeLastDigit(y, k, r, m, d);
    }
  }

  /** When x needs at most k fraction digits, adding a nonzero digit d in
      place k + 1 gives a value that needs exactly k + 1 of them. */
  lemma FracDigitsAfterNonzeroDigit(x: real, k: nat, d: int)
    requires WholeAt(x, k) && k < MaxFracDigits && 1 <= d <= 9
    ensures FracDigits(AppendFractionDigit(x, k, d)) == k + 1
  {
    var m := ShiftAfterDigit(x, k, d);
    FracDigitsOfLastDigit(AppendFractionDigit(x, k, d), k, m, d);
  }
}
