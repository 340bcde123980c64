/**
 The range check on the score typed by a judge. The score is read with
 Python's `float(...)`, which besides finite numbers also yields the two
 infinities and NaN (for the texts "inf", "-inf" and "nan"). Under IEEE 754
 every ordered comparison with NaN is false.
 */
module ScoreInput {

  /** A value `float(...)` can return; finite values are kept exactly. */
  datatype Float = Finite(value: real) | Infinity(negative: bool) | NaN

  /** IEEE 754 `x < c` for a finite constant `c`. */
  predicate LessThan(x: Float, c: real)
  {
    match x
    case Finite(v) => v < c
    case Infinity(negative) => negative
    case NaN => false
  }

  /** IEEE 754 `x > c` for a finite constant `c`. */
  predicate GreaterThan(x: Float, c: real)
  {
    match x
    case Finite(v) => v > c
    case Infinity(negative) => !negative
    case NaN => false
  }

  /** The check as the source writes it: reject when `score < 1 or score > 10`. */
  predicate PassesAsWritten(x: Float)
  {
    !(LessThan(x, 1.0) || GreaterThan(x, 10.0))
  }

  /** The check as intended: accept exactly the numbers from 1 to 10. */
  predicate InScoreRange(x: Float)
  {
    x.Finite? && 1.0 <= x.value <= 10.0
  }

  /** The written check lets NaN through although NaN is no score in [1, 10]. */
  lemma NaNPassesAsWritten()
    ensures PassesAsWritten(NaN)
    ensures !InScoreRange(NaN)
  {
  }

  /**
   The intended check agrees with the written one on every input except NaN,
   and it rejects NaN; the written check already rejects both infinities.
   */
  lemma InScoreRangeFixesNaN(x: Float)
    ensures InScoreRange(x) <==> PassesAsWritten(x) && !x.NaN?
    ensures x.Infinity? ==> !PassesAsWritten(x) && !InScoreRange(x)
  {
  }
}
