module Common {
  datatype Option<+T> = None | Some(value: T)

  // Counts that the settings force up to at least one.
  type positive = n: int | 1 <= n witness 1

  // int() of a float: towards zero.
  function Truncated(r: real): int {
    if r < 0.0 then -((-r).Floor) else r.Floor
  }
}
