/** Conversions shared by the models. */
module Numbers {
  /** A float converted to an integer type: the fraction is dropped. */
  function Truncate(r: real): int {
    if r >= 0.0 then r.Floor else -((-r).Floor)
  }
}
