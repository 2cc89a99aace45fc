/** What several components share: options and machine arithmetic that no operator of Dafny gives. */
module Prelude {
  datatype Option<+T> = None | Some(value: T)

  function Min(x: int, y: int): int { if x <= y then x else y }

  function Abs(x: int): nat { if x < 0 then -x else x }

  /** Integer division in Rust truncates. */
  function Quotient(x: int, y: int): int
    requires y != 0
  {
    if (x >= 0) == (y > 0) then Abs(x) / Abs(y) else -(Abs(x) / Abs(y))
  }
}
