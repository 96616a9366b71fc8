/** Facts about division with remainder that the time grids rest on. */
module Divisibility {

  lemma MulAtLeast(q: int, d: nat)
    requires 1 <= q
    ensures d <= q * d
  {
    assert (q - 1) * d >= 0;
  }

  lemma RemainderUnique(x: int, q: int, r: int, d: nat)
    requires 0 < d && 0 <= r < d && x == q * d + r
    ensures x % d == r && x / d == q
  {
    var k, m := x / d, x % d;
    assert (q - k) * d == m - r;
    if q - k >= 1 {
      MulAtLeast(q - k, d);
    }
    if q - k <= -1 {
      MulAtLeast(k - q, d);
    }
  }

  lemma MultipleOf(q: int, d: nat)
    requires 0 < d
    ensures (q * d) % d == 0
  {
    RemainderUnique(q * d, q, 0, d);
  }

  lemma DivisionBounds(x: int, d: nat)
    requires 0 < d
    ensures x / d * d <= x < x / d * d + d && (x / d * d) % d == 0
  {
    assert x == x / d * d + x % d;
    MultipleOf(x / d, d);
  }

  lemma ShiftByMultiple(t: int, q: int, d: nat)
    requires 0 < d
    ensures (t - q * d) % d == t % d
  {
    var k := t / d;
    assert t == k * d + t % d;
    assert t - q * d == (k - q) * d + t % d;
    RemainderUnique(t - q * d, k - q, t % d, d);
  }

  /** Two multiples differ by a multiple. */
  lemma MultipleDifference(a: int, b: int, d: nat)
    requires 0 < d && b % d == 0
    ensures (a - b) % d == a % d
  {
    assert b == b / d * d;
    ShiftByMultiple(a, b / d, d);
  }
}
