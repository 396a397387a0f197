/**
 * `Series.round(1)` on exact numbers: numpy rounds to one decimal place by
 * scaling by ten and rounding half to even.
 */
module Rounding {

  /** The integer nearest to `y`; a tie goes to the even neighbour. */
  function RoundHalfEven(y: real): (n: int)
    ensures y - 0.5 <= n as real <= y + 0.5
    ensures (n as real - y == 0.5 || y - n as real == 0.5) ==> n % 2 == 0
  {
    var f := y.Floor;
    var frac := y - f as real;
    if frac < 0.5 then f
    else if frac > 0.5 then f + 1
    else if f % 2 == 0 then f
    else f + 1
  }

  /** The two properties of RoundHalfEven pin its result down: no other integer has them. */
  lemma RoundHalfEvenUnique(y: real, m: int)
    requires y - 0.5 <= m as real <= y + 0.5
    requires (m as real - y == 0.5 || y - m as real == 0.5) ==> m % 2 == 0
    ensures RoundHalfEven(y) == m
  {
  }

  /** `x` is a whole number of tenths. */
  predicate OnTenths(x: real) {
    (x * 10.0).Floor as real == x * 10.0
  }

  /** `q.round(1)`: the multiple of a tenth nearest to `q`, ties to an even count of tenths. */
  function Round1(q: real): (r: real)
    ensures OnTenths(r)
    ensures q - 0.05 <= r <= q + 0.05
  {
    var n := RoundHalfEven(q * 10.0);
    var r := n as real / 10.0;
    assert r * 10.0 == n as real;
    assert (r * 10.0).Floor == n;
    r
  }

  /** Rounding a value that is already a whole number of tenths leaves it unchanged. */
  lemma Round1Fixed(x: real)
    requires OnTenths(x)
    ensures Round1(x) == x
  {
  }

  /** Sums of whole numbers of tenths are whole numbers of tenths. */
  lemma OnTenthsAdd(x: real, y: real)
    requires OnTenths(x) && OnTenths(y)
    ensures OnTenths(x + y)
  {
    var a, b := (x * 10.0).Floor, (y * 10.0).Floor;
    assert (x + y) * 10.0 == (a + b) as real;
  }

  /** Ties go to the even tenth: 0.25 rounds down to 0.2, 0.75 rounds up to 0.8. */
  lemma Round1TiesToEven()
    ensures Round1(0.25) == 0.2
    ensures Round1(0.75) == 0.8
  {
  }
}
