/** Values shared by the three components: an optional value (JavaScript's
    null/undefined) and a JavaScript number that is either finite or NaN. */
module Wrappers {

  /** A value that may be absent (`null` or `undefined` in the source). */
  datatype Option<+T> = None | Some(value: T)
}

module JsNumber {

  /** A JavaScript number, idealised: a finite value as an exact real, or NaN.
      Rounding, infinities and signed zero are not modelled. */
  datatype Num = Finite(v: real) | NaN

  /** JavaScript truthiness of a number: every number except 0 and NaN. */
  predicate Truthy(n: Num) {
    n.Finite? && n.v != 0.0
  }
}
