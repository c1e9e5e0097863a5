/** Arithmetic several modules share. */
module Numbers {
  function Min(a: int, b: int): int {
    if a <= b then a else b
  }

  /** Conversion of a float to an integer, Python's and numpy's: towards zero. */
  function Truncated(x: real): int {
    if x >= 0.0 then x.Floor else -((-x).Floor)
  }
}
