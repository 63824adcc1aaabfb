/** Exact decimal rounding: to the nearest multiple, a tie to the even one. */
module Rounding {
  /** sum / n rounded to the nearest integer, a tie to the even one. */
  function Rounded(sum: int, n: int): int
    requires n > 0
  {
    var q, r := sum / n, sum % n;
    if 2 * r < n then q
    else if 2 * r > n then q + 1
    else if q % 2 == 0 then q else q + 1
  }

  lemma Quotient(b: int, n: int, sum: int)
    requires n > 0
    ensures b * n <= sum ==> b <= sum / n
    ensures sum <= b * n ==> sum / n < b || (sum / n == b && sum % n == 0)
  {
    var q, r := sum / n, sum % n;
    assert sum == q * n + r && 0 <= r < n;
    if q > b {
      assert q * n >= (b + 1) * n == b * n + n;
    } else if q < b {
      assert q * n <= (b - 1) * n == b * n - n;
    } else {
      assert q * n == b * n;
    }
  }

  /** A quotient between two integers is rounded to a number between them. */
  lemma RoundedBounds(sum: int, n: int, lo: int, hi: int)
    requires n > 0 && lo * n <= sum <= hi * n
    ensures lo <= Rounded(sum, n) <= hi
  {
    Quotient(lo, n, sum);
    Quotient(hi, n, sum);
  }

  /** Rounding is off by at most half a unit, and not at all on whole multiples. */
  lemma RoundingError(sum: int, n: int)
    requires n > 0
    ensures -n <= 2 * (Rounded(sum, n) * n - sum) <= n
    ensures sum % n == 0 ==> Rounded(sum, n) * n == sum
  {
    var q, r := sum / n, sum % n;
    assert sum == q * n + r && 0 <= r < n;
    assert (q + 1) * n == q * n + n;
  }

  lemma RoundingIsMonotone(sum: int, sum': int, n: int)
    requires n > 0 && sum <= sum'
    ensures Rounded(sum, n) <= Rounded(sum', n)
  {
    var q, r, q', r' := sum / n, sum % n, sum' / n, sum' % n;
    assert sum == q * n + r && sum' == q' * n + r';
    Quotient(q, n, sum');
    if q == q' {
      assert q * n == q' * n;
    }
  }
}
