/** Sign facts about real multiplication used by the percentage arithmetic. */
module Arith {
  /** Multiplying by a positive number keeps the sign. */
  lemma MulSign(q: real, s: real)
    requires s > 0.0
    ensures q * s > 0.0 <==> q > 0.0
    ensures q * s < 0.0 <==> q < 0.0
    ensures q * s == 0.0 <==> q == 0.0
  {
    if q > 0.0 {
      assert q * s > 0.0;
    } else if q < 0.0 {
      assert (-q) * s > 0.0;
    }
  }

  /** `c / t * 100 >= bound` without the division, for a positive `t`. */
  lemma PercentAtLeast(c: real, t: real, bound: real)
    requires t > 0.0
    ensures (c / t) * 100.0 >= bound <==> 100.0 * c >= bound * t
  {
    var q := c / t;
    assert q * t == c;
    assert (q * 100.0 - bound) * t == 100.0 * c - bound * t;
    MulSign(q * 100.0 - bound, t);
  }

  /** The same for a negative `t`, where the comparison flips. */
  lemma PercentAtLeastNegative(c: real, t: real, bound: real)
    requires t < 0.0
    ensures (c / t) * 100.0 >= bound <==> 100.0 * c <= bound * t
  {
    var q := c / t;
    assert q * t == c;
    assert (q * 100.0 - bound) * (-t) == bound * t - 100.0 * c;
    MulSign(q * 100.0 - bound, -t);
  }
}
