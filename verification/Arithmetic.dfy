/** Integer arithmetic of the C++ code. */
module Arithmetic {
  function Min(a: int, b: int): int {
    if a < b then a else b
  }

  function Max(a: int, b: int): int {
    if a > b then a else b
  }

  function Abs(a: int): nat {
    if a < 0 then -a else a
  }

  // Integer division that truncates towards zero.
  function Quot(a: int, b: int): int
    requires b != 0
  {
    if b > 0 then if a >= 0 then a / b else -((-a) / b)
    else if a >= 0 then -(a / -b) else (-a) / (-b)
  }
}
