/** The few facts about division and remainder that the cursor and page arithmetic needs. */
module ModArith {
  /** A quotient and remainder are determined by the equation they satisfy. */
  lemma DivModUnique(x: int, m: int, q: int, r: int)
    requires 0 < m && x == q * m + r && 0 <= r < m
    ensures x / m == q && x % m == r
  {
    MultipleInRange(x / m - q, m, r - x % m);
  }

  /** Zero is the only multiple of m strictly between -m and m. */
  lemma MultipleInRange(k: int, m: int, d: int)
    requires 0 < m && k * m == d && -m < d < m
    ensures k == 0
  {
    assert k >= 1 ==> k * m >= m;
    assert k <= -1 ==> k * m <= -m;
  }

  /** Stepping an index by one steps its remainder by one, or wraps it to zero. */
  lemma ModStep(k: nat, m: nat)
    requires 0 < m
    ensures (k + 1) % m == if k % m + 1 == m then 0 else k % m + 1
  {
    var q := k / m;
    if k % m + 1 == m {
      assert k + 1 == (q + 1) * m + 0;
      DivModUnique(k + 1, m, q + 1, 0);
    } else {
      DivModUnique(k + 1, m, q, k % m + 1);
    }
  }

  /** The distance between two indices at most m apart, read off their remainders. */
  lemma ModGap(low: nat, high: nat, m: nat)
    requires 0 < m && low <= high <= low + m
    ensures high - low == high % m - low % m || high - low == high % m - low % m + m
         || (high - low == m && high % m == low % m)
  {
    var gap := high - low;
    var q, r := low / m, low % m;
    if r + gap < m {
      DivModUnique(high, m, q, r + gap);
    } else if r + gap < 2 * m {
      assert high == (q + 1) * m + (r + gap - m);
      DivModUnique(high, m, q + 1, r + gap - m);
    }
  }

  lemma ModSmall(x: nat, m: nat)
    requires 0 < m && x < m
    ensures x % m == x && x / m == 0
  {
    DivModUnique(x, m, 0, x);
  }

  lemma ModSelf(m: nat)
    requires 0 < m
    ensures m % m == 0
  {
    DivModUnique(m, m, 1, 0);
  }
}
