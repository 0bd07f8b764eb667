/** Arithmetic of digits: division with remainder and its uniqueness, one digit at a time. */
module MixedRadix {
  lemma MulMonotone(m: nat, a: int, b: int)
    requires a <= b
    ensures a * m <= b * m
  {
    var c := b - a;
    assert b * m == a * m + c * m;
  }

  lemma DigitOrder(m: int, low1: int, high1: int, low2: int, high2: int)
    requires 0 <= low1 < m && 0 <= low2 && high1 < high2
    ensures low1 + high1 * m < low2 + high2 * m
  {
    MulMonotone(m, high1 + 1, high2);
    assert (high1 + 1) * m == high1 * m + m;
  }

  /** A low digit and a high part determine each other. */
  lemma DigitUnique(m: int, low1: int, high1: int, low2: int, high2: int)
    requires 0 <= low1 < m && 0 <= low2 < m && low1 + high1 * m == low2 + high2 * m
    ensures low1 == low2 && high1 == high2
  {
    if high1 < high2 { DigitOrder(m, low1, high1, low2, high2); }
    if high2 < high1 { DigitOrder(m, low2, high2, low1, high1); }
  }

  lemma DigitSplit(m: int, n: int)
    requires m > 0
    ensures n == n % m + (n / m) * m && 0 <= n % m < m
    ensures n >= 0 ==> n / m >= 0
  {
  }

  /** Taking the low digit off `low + high * m` gives back `low` and `high`. */
  lemma DigitTake(m: int, low: int, high: int)
    requires 0 <= low < m
    ensures (low + high * m) / m == high && (low + high * m) % m == low
  {
    var n := low + high * m;
    DigitSplit(m, n);
    DigitUnique(m, low, high, n % m, n / m);
  }

  /** Below `m * n`, the high part is below `n`. */
  lemma DigitBound(m: int, n: int, x: int)
    requires m > 0 && 0 <= x < n * m
    ensures 0 <= x / m < n
  {
    DigitSplit(m, x);
    if x / m >= n { MulMonotone(m, n, x / m); }
  }

  lemma DigitBelow(m: int, n: int, low: int, high: int)
    requires 0 <= low < m && 0 <= high < n
    ensures 0 <= low + high * m < n * m
  {
    MulMonotone(m, high + 1, n);
    MulMonotone(m, 0, high);
    assert (high + 1) * m == high * m + m;
  }

  /** Two digits below a high part are one wider digit below it. */
  lemma DigitJoin(low: int, mid: int, high: int, m: int, n: int)
    ensures low + (mid + high * n) * m == (low + mid * m) + high * (n * m)
  {
    calc {
      (mid + high * n) * m;
      mid * m + (high * n) * m;
      mid * m + high * (n * m);
    }
  }

  /** Counting modulo `n`. */
  lemma CyclicStep(c: nat, n: nat)
    requires c < n
    ensures (c + 1) % n == if c + 1 == n then 0 else c + 1
  {
  }

  /** The remainder by a product: the low digit, and the remainder of the high part. */
  lemma RemainderSplit(m: int, n: int, x: int)
    requires m > 0 && n > 0 && n * m > 0
    ensures x % (n * m) == x % m + ((x / m) % n) * m
  {
    DigitSplit(m, x);
    DigitSplit(n, x / m);
    var low, mid, high := x % m, (x / m) % n, (x / m) / n;
    DigitJoin(low, mid, high, m, n);
    DigitBelow(m, n, low, mid);
    DigitTake(n * m, low + mid * m, high);
  }
}
