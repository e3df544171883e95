/** Rounding to whole numbers. */
module Rounding {
  /** `Math.round`, and the database's rounding of a positive amount. */
  function RoundHalfUp(x: real): int {
    (x + 0.5).Floor
  }
}
