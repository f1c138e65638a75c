/**
 * The two rounding rules the code relies on, on exact reals: JavaScript's
 * `Math.round` (halves go up) and pandas' `round(1)` (to one decimal, halves to even).
 */
module Rounding {

  /** The magnitude of `q` (`Math.abs`, Python's `abs`). */
  function Abs(q: real): (r: real)
    ensures r >= 0.0 && (r == q || r == -q)
  {
    if q < 0.0 then -q else q
  }

  /** `Math.round(x)`: the nearest integer, halves rounded towards +∞. */
  function JsRound(x: real): (r: int)
    ensures x - 0.5 < r as real <= x + 0.5
  {
    (x + 0.5).Floor
  }

  /** The nearest integer, halves rounded to the even neighbour (NumPy's rule). */
  function RoundHalfEven(x: real): (r: int)
    ensures x - 0.5 <= r as real <= x + 0.5
    ensures (r as real == x - 0.5 || r as real == x + 0.5) ==> r % 2 == 0
  {
    var f := x.Floor;
    var d := x - f as real;
    if d < 0.5 then f
    else if d > 0.5 then f + 1
    else if f % 2 == 0 then f
    else f + 1
  }

  /**
   * `round(1)`: to one decimal place, that is, ten times the result is the integer
   * nearest to ten times `x`, and on a tie the even one.
   */
  function Round1(x: real): (r: real)
    ensures x - 0.05 <= r <= x + 0.05
    ensures (r * 10.0).Floor as real == r * 10.0
    ensures x * 10.0 - 0.5 <= r * 10.0 <= x * 10.0 + 0.5
    ensures (r * 10.0 == x * 10.0 - 0.5 || r * 10.0 == x * 10.0 + 0.5) ==> (r * 10.0).Floor % 2 == 0
  {
    var n := RoundHalfEven(x * 10.0);
    var r := n as real / 10.0;
    assert r * 10.0 == n as real;
    r
  }

  /**
   * The round-half-even rule leaves no choice: an integer within one half of `x`, and
   * even when exactly one half away, is `RoundHalfEven(x)`. So `Round1` is pandas'
   * `round(1)` and no other rounding.
   */
  lemma {:induction false} RoundHalfEvenUnique(x: real, n: int)
    requires x - 0.5 <= n as real <= x + 0.5
    requires (n as real == x - 0.5 || n as real == x + 0.5) ==> n % 2 == 0
    ensures n == RoundHalfEven(x)
  {
    var m := RoundHalfEven(x);
    assert -1 <= n - m <= 1;
  }

  /** A value between 0 and 100 stays between 0 and 100 after rounding, so a percentage stays one. */
  lemma Round1Percent(x: real)
    requires 0.0 <= x <= 100.0
    ensures 0.0 <= Round1(x) <= 100.0
  {
    var n := RoundHalfEven(x * 10.0);
    assert -0.5 <= n as real <= 1000.5;
    assert 0 <= n <= 1000;
  }
}
