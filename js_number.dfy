/** The JavaScript numbers that reach a guard in the source: a finite value, or NaN (what
    `Number(text)` gives for text that is not a number, and what `undefined` becomes in
    arithmetic). Every comparison with NaN is false, which is why some guards let NaN through. */
module JsNumber {

  datatype Num = NaN | Val(v: real)

  /** `!!n`: NaN and zero are falsy, every other number is truthy. */
  predicate Truthy(n: Num) {
    n.Val? && n.v != 0.0
  }

  /** `n < c` */
  predicate Less(n: Num, c: real) {
    n.Val? && n.v < c
  }

  /** `n <= c` */
  predicate AtMost(n: Num, c: real) {
    n.Val? && n.v <= c
  }

  /** `n > c` */
  predicate Greater(n: Num, c: real) {
    n.Val? && n.v > c
  }

  /** `n >= c` */
  predicate AtLeast(n: Num, c: real) {
    n.Val? && n.v >= c
  }

  /** `a - b`; NaN on either side gives NaN. */
  function Minus(a: Num, b: Num): (r: Num)
    ensures r.Val? <==> a.Val? && b.Val?
  {
    if a.Val? && b.Val? then Val(a.v - b.v) else NaN
  }

  /** The guard `x < lo || x > hi` rejects a number outside [lo, hi]; NaN is never rejected. */
  predicate OutsideBand(x: Num, lo: real, hi: real) {
    Less(x, lo) || Greater(x, hi)
  }

  /** The guard `x <= 0 || x > hi` rejects a number outside (0, hi]; NaN is never rejected. */
  predicate OutsideWindow(x: Num, hi: real) {
    AtMost(x, 0.0) || Greater(x, hi)
  }

  /** For a finite number the band guard rejects exactly what lies outside [lo, hi], and NaN
      is let through. */
  lemma OutsideBandMeaning(x: Num, lo: real, hi: real)
    ensures x.Val? ==> (OutsideBand(x, lo, hi) <==> !(lo <= x.v <= hi))
    ensures x.NaN? ==> !OutsideBand(x, lo, hi)
  {
  }

  /** For a finite number the window guard rejects exactly what lies outside (0, hi], and NaN
      is let through. */
  lemma OutsideWindowMeaning(x: Num, hi: real)
    ensures x.Val? ==> (OutsideWindow(x, hi) <==> !(0.0 < x.v <= hi))
    ensures x.NaN? ==> !OutsideWindow(x, hi)
  {
  }
}
