/** `Math.round` applied to an exact rational `num / den`: the integer nearest to it,
    halves rounded up (`floor(x + 1/2)`). */
module Rounding {

  function Round(num: int, den: int): (r: int)
    requires den > 0
    ensures 2 * r * den <= 2 * num + den < 2 * (r + 1) * den
  {
    var q := (2 * num + den) / (2 * den);
    DivFloor(2 * num + den, 2 * den);
    q
  }

  /** The rounding condition determines the result: any integer within half of the ratio,
      the upper one on a tie, is `Round`. */
  lemma {:induction false} RoundUnique(num: int, den: int, r: int)
    requires den > 0 && 2 * r * den <= 2 * num + den < 2 * (r + 1) * den
    ensures Round(num, den) == r
  {
    var q := Round(num, den);
    if q < r {
      MulMonotone(q + 1, r, 2 * den);
    } else if q > r {
      MulMonotone(r + 1, q, 2 * den);
    }
  }

  /** Euclidean division by a positive divisor is the floor of the quotient. */
  lemma DivFloor(n: int, d: int)
    requires d > 0
    ensures (n / d) * d <= n < (n / d + 1) * d
  {
  }

  /** Rounding is monotone in the numerator. */
  lemma {:induction false} RoundMonotone(a: int, b: int, den: int)
    requires den > 0 && a <= b
    ensures Round(a, den) <= Round(b, den)
  {
    var ra, rb := Round(a, den), Round(b, den);
    if ra > rb {
      assert 2 * (rb + 1) * den <= 2 * ra * den by {
        assert rb + 1 <= ra;
        MulMonotone(rb + 1, ra, 2 * den);
      }
    }
  }

  lemma MulMonotone(x: int, y: int, k: int)
    requires x <= y && k >= 0
    ensures x * k <= y * k
  {
  }

  /** The result of rounding `num / den` stays within `[lo, hi]` when the quotient does. */
  lemma {:induction false} RoundBetween(num: int, den: int, lo: int, hi: int)
    requires den > 0 && lo * den <= num <= hi * den
    ensures lo <= Round(num, den) <= hi
  {
    var r := Round(num, den);
    if r < lo {
      MulMonotone(r + 1, lo, 2 * den);
    }
    if r > hi {
      MulMonotone(hi + 1, r, 2 * den);
    }
  }
}
