/** The JavaScript number operations the annotator uses, on exact reals:
    `Math.min`, `Math.max`, `Math.round` and `Number.prototype.toFixed`. */
module Numbers {

  function RealMin(a: real, b: real): real {
    if a <= b then a else b
  }

  function RealMax(a: real, b: real): real {
    if a >= b then a else b
  }

  function IntMin(a: int, b: int): int {
    if a <= b then a else b
  }

  function IntMax(a: int, b: int): int {
    if a >= b then a else b
  }

  /** `Math.round`: the nearest integer, halves rounded towards +infinity. */
  function MathRound(x: real): (n: int)
    ensures n as real - 0.5 <= x < n as real + 0.5
  {
    (x + 0.5).Floor
  }

  /** `x.toFixed(d)` read back as a whole number of units of 10^-d, where `unitsPerOne`
      is 10^d: the nearest multiple, halves rounded away from zero. */
  function ToFixedUnits(x: real, unitsPerOne: real): (n: int)
    requires unitsPerOne > 0.0
    ensures x >= 0.0 ==> n as real - 0.5 <= x * unitsPerOne < n as real + 0.5
    ensures x < 0.0 ==> n as real - 0.5 < x * unitsPerOne <= n as real + 0.5
  {
    if x < 0.0 then -MathRound(-x * unitsPerOne) else MathRound(x * unitsPerOne)
  }

  lemma MathRoundOfInteger(k: int)
    ensures MathRound(k as real) == k
  {
  }

  lemma MathRoundMonotone(x: real, y: real)
    requires x <= y
    ensures MathRound(x) <= MathRound(y)
  {
  }
}
