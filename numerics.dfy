/** Integer helpers shared by the physics and the collision rules. */
module Numerics {

  /** Division of `a` by a positive `d`, rounded toward zero the way Rust's
      integer `/` and its float-to-integer `as i32` cast do (Dafny's own `/`
      rounds toward negative infinity for a negative dividend). */
  function TruncDiv(a: int, d: int): (q: int)
    requires d > 0
    ensures a >= 0 ==> d * q <= a < d * q + d
    ensures a < 0 ==> d * q - d < a <= d * q
  {
    if a >= 0 then a / d
    else
      var w := -a;
      assert d * (w / d) <= w < d * (w / d) + d;
      assert d * -(w / d) == -(d * (w / d));
      -(w / d)
  }

  /** Truncation is symmetric: it never rounds a negative value away from zero. */
  lemma TruncDivOdd(a: int, d: int)
    requires d > 0
    ensures TruncDiv(-a, d) == -TruncDiv(a, d)
  {
  }

  /** The absolute difference of two rows. */
  function Distance(a: int, b: int): (r: nat)
    ensures r == a - b || r == b - a
  {
    if a >= b then a - b else b - a
  }
}
