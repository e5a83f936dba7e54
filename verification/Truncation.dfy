/** Integer division as C++ defines it: towards zero, the remainder taking the sign of the dividend. */
module Truncation {

  function TruncDiv(n: int, d: int): (q: int)
    requires d > 0
  {
    if n < 0 then -((-n) / d) else n / d
  }

  function TruncMod(n: int, d: int): (r: int)
    requires d > 0
  {
    n - d * TruncDiv(n, d)
  }
}
