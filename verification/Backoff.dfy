/** The retry delay the background workers share: least(3600, power(2, n)) seconds
    after the n-th attempt. */
module Backoff {
  import opened Prelude

  const MAX_RETRY_SECONDS := 3600
  /** power(2, n)::integer is out of range from here on, and the UPDATE fails. */
  const POWER_OVERFLOW := 31

  function Pow2(n: nat): int { if n == 0 then 1 else 2 * Pow2(n - 1) }

  function RetryDelay(n: nat): int { Min(MAX_RETRY_SECONDS, Pow2(n)) }

  lemma {:induction false} Pow2Grows(m: nat, n: nat)
    requires m <= n
    ensures 1 <= Pow2(m) <= Pow2(n)
    decreases n
  {
    if m < n {
      Pow2Grows(m, n - 1);
    } else if n > 0 {
      Pow2Grows(m - 1, n - 1);
    }
  }

  /** The delay never shrinks from one attempt to the next and is one hour at most;
      it reaches the hour exactly from the twelfth attempt on. */
  lemma RetryDelayShape(m: nat, n: nat)
    requires m <= n
    ensures 1 <= RetryDelay(m) <= RetryDelay(n) <= MAX_RETRY_SECONDS
    ensures n >= 1 ==> RetryDelay(n) >= 2
    ensures RetryDelay(n) == MAX_RETRY_SECONDS <==> n >= 12
  {
    Pow2Grows(m, n);
    assert Pow2(4) == 16 && Pow2(8) == 256 by { assert Pow2(6) == 64; }
    assert Pow2(11) == 2048 && Pow2(12) == 4096 by { assert Pow2(10) == 1024; }
    if n >= 1 { Pow2Grows(1, n); }
    if n >= 12 { Pow2Grows(12, n); } else { Pow2Grows(n, 11); }
  }

  /** One second, doubled from attempt to attempt up to an hour. */
  lemma RetryDelayDoubles(n: nat)
    ensures RetryDelay(0) == 1
    ensures RetryDelay(n + 1) == if RetryDelay(n) <= 1800 then 2 * RetryDelay(n) else 3600
  {
    Pow2Grows(0, n);
  }
}
