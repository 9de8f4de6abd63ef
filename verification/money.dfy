/**
 * Money is modelled as `real`. Python's `round(x, 2)` and the `f"{x:.2f}"` texts the source
 * stores both round to whole pence, ties going to the even neighbour.
 */
module Money {

  /** `x` in pence, rounded to the nearest whole penny, ties to even. */
  function RoundCents(x: real): (c: int)
    ensures -0.5 <= c as real - x * 100.0 <= 0.5
  {
    var f := (x * 100.0).Floor;
    var d := x * 100.0 - f as real;
    if d < 0.5 then f
    else if d > 0.5 then f + 1
    else if f % 2 == 0 then f
    else f + 1
  }

  /** Python's `round(x, 2)`: the nearest whole-penny amount, at most half a penny away from `x`. */
  function Round2(x: real): (r: real)
    ensures -0.005 <= r - x <= 0.005
  {
    RoundCents(x) as real / 100.0
  }

  /** An amount already in whole pence is left as it is. */
  lemma Round2OfWholePence(c: int)
    ensures Round2(c as real / 100.0) == c as real / 100.0
  {
    var x := c as real / 100.0;
    assert x * 100.0 == c as real;
    assert (x * 100.0).Floor == c;
  }

  /** Rounding twice is rounding once. */
  lemma Round2Idempotent(x: real)
    ensures Round2(Round2(x)) == Round2(x)
  {
    Round2OfWholePence(RoundCents(x));
  }
}
