/** Exact money arithmetic: amounts are `real` (exact rationals) and
    rounding to two decimals is an explicit round-half-to-even, the rule
    Python's `round(x, 2)` follows on exact values. */
module Dinero {

  /** An amount with no digits after the hundredths. */
  predicate IsCents(x: real) {
    (x * 100.0).Floor as real == x * 100.0
  }

  /** The integer nearest to `n`; a tie (a fractional part of exactly one
      half) goes to the even neighbour. */
  function RoundHalfEven(n: real): (k: int)
    ensures n - 0.5 <= k as real <= n + 0.5
    ensures (k as real == n - 0.5 || k as real == n + 0.5) ==> k % 2 == 0
    ensures n.Floor as real == n ==> k as real == n
  {
    var f := n.Floor;
    var frac := n - f as real;
    if frac < 0.5 then f
    else if frac > 0.5 then f + 1
    else if f % 2 == 0 then f
    else f + 1
  }

  /** Rounding to the integer nearest, ties to even, never reverses the
      order of two values. */
  lemma RoundHalfEvenMonotone(n: real, m: real)
    requires n <= m
    ensures RoundHalfEven(n) <= RoundHalfEven(m)
  {
  }

  /** `round(x, 2)`: the multiple of 0.01 nearest to `x`, a tie going
      to the even number of hundredths. */
  function Round2(x: real): (r: real)
    ensures IsCents(r)
    ensures x - 0.005 <= r <= x + 0.005
    ensures IsCents(x) ==> r == x
    ensures x >= 0.0 ==> r >= 0.0
    ensures (r == x - 0.005 || r == x + 0.005) ==> (r * 100.0).Floor % 2 == 0
  {
    var k := RoundHalfEven(x * 100.0);
    assert (k as real / 100.0) * 100.0 == k as real;
    assert k as real / 100.0 == x - 0.005 ==> k as real == x * 100.0 - 0.5;
    assert k as real / 100.0 == x + 0.005 ==> k as real == x * 100.0 + 0.5;
    k as real / 100.0
  }

  function Abs(x: real): real {
    if x < 0.0 then -x else x
  }

  /** No multiple of 0.01 lies closer to `x` than `Round2(x)` does. */
  lemma Round2Nearest(x: real, c: real)
    requires IsCents(c)
    ensures Abs(x - Round2(x)) <= Abs(x - c)
  {
    var n, k, m := x * 100.0, RoundHalfEven(x * 100.0), (c * 100.0).Floor;
    assert Abs(n - k as real) <= 0.5;
    assert Abs(x - Round2(x)) * 100.0 == Abs(n - k as real);
    assert Abs(x - c) * 100.0 == Abs(n - m as real);
    if m != k {
      assert m <= k - 1 || m >= k + 1;
      assert Abs(n - m as real) >= 0.5;
    }
  }

  /** Rounding to hundredths never reverses the order of two amounts. */
  lemma Round2Monotone(x: real, y: real)
    requires x <= y
    ensures Round2(x) <= Round2(y)
  {
    RoundHalfEvenMonotone(x * 100.0, y * 100.0);
  }

  /** An amount with the fraction `d` taken off: `p * (1 - d)`. Taking a
      fraction in [0, 1] off a non-negative amount leaves it between 0 and
      the amount. */
  function Discounted(p: real, d: real): (r: real)
    ensures p >= 0.0 && 0.0 <= d <= 1.0 ==> 0.0 <= r <= p
  {
    p * (1.0 - d)
  }

  /** An amount with the rate `t` added: `p * (1 + t)`. A non-negative rate
      never makes a non-negative amount smaller. */
  function Taxed(p: real, t: real): (r: real)
    ensures p >= 0.0 && t >= 0.0 ==> p <= r
  {
    p * (1.0 + t)
  }

  /** Taking a fraction in [0, 1) off a non-negative amount and rounding
      gives a non-negative result no larger than the amount rounded. */
  lemma Round2DiscountBounds(p: real, d: real)
    requires p >= 0.0 && 0.0 <= d < 1.0
    ensures 0.0 <= Round2(Discounted(p, d)) <= Round2(p)
  {
    Round2Monotone(Discounted(p, d), p);
  }

  /** Adding a non-negative rate to a non-negative amount and rounding
      gives a non-negative result no smaller than the amount rounded. */
  lemma Round2TaxBounds(p: real, t: real)
    requires p >= 0.0 && t >= 0.0
    ensures 0.0 <= Round2(p) <= Round2(Taxed(p, t))
  {
    Round2Monotone(p, Taxed(p, t));
  }

  /** Rounding an amount that is already rounded changes nothing. */
  lemma Round2Idempotent(x: real)
    ensures Round2(Round2(x)) == Round2(x)
  {
  }
}
