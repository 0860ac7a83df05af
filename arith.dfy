/** Facts about integer division used by the driver models. */
module DivMod {

  /**
   * Division by a positive divisor has exactly one quotient and remainder:
   * any decomposition x == q * b + r with 0 <= r < b is the one `/` and `%` give.
   */
  lemma Unique(x: int, b: int, q: int, r: int)
    requires b > 0 && 0 <= r < b
    requires x == q * b + r
    ensures x / b == q && x % b == r
  {
    var q', r' := x / b, x % b;
    assert (q - q') * b == r' - r;
    if q - q' >= 1 {
      assert false;
    } else if q - q' <= -1 {
      assert false;
    }
  }
}
