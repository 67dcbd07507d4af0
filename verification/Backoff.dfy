/** The retry delays of the outbox worker, in seconds. */
module Backoff {

  function Pow2(n: nat): nat { if n == 0 then 1 else 2 * Pow2(n - 1) }

  const CAP: nat := 3600

  /** `Math.min(60 * 60, 2 ** attempts)` */
  function Delay(attempts: nat): nat {
    if Pow2(attempts) < CAP then Pow2(attempts) else CAP
  }

  /** The delays after the first `n` failures, added up. */
  function TotalDelay(n: nat): nat {
    if n == 0 then 0 else TotalDelay(n - 1) + Delay(n)
  }

  lemma {:induction false} Pow2Grows(n: nat)
    requires n >= 12
    ensures Pow2(n) >= 4096
  {
    if n > 12 { Pow2Grows(n - 1); } else { SmallPowers(); }
  }

  lemma SmallPowers()
    ensures Pow2(11) == 2048 && Pow2(12) == 4096
  {
    assert Pow2(4) == 16;
    assert Pow2(8) == 16 * Pow2(4);
  }

  lemma {:induction false} Pow2Bound(n: nat)
    requires n <= 11
    ensures Pow2(n) <= 2048
    decreases 11 - n
  {
    if n == 11 { SmallPowers(); } else { Pow2Bound(n + 1); }
  }

  /** Closed form: the delays double up to the eleventh failure, and are one hour each after it. */
  lemma {:induction false} TotalDelayClosedForm(n: nat)
    ensures TotalDelay(n) == if n <= 11 then Pow2(n + 1) - 2 else 4094 + 3600 * (n - 11)
  {
    if n > 0 {
      TotalDelayClosedForm(n - 1);
      if n <= 11 {
        Pow2Bound(n);
      } else {
        Pow2Grows(n);
        SmallPowers();
      }
    }
  }

  lemma DelayIsPositive(n: nat)
    requires n > 0
    ensures Delay(n) >= 2
  {
    assert Pow2(n) == 2 * Pow2(n - 1);
    PowPositive(n - 1);
  }

  lemma {:induction false} PowPositive(n: nat)
    ensures Pow2(n) >= 1
  {
    if n > 0 { PowPositive(n - 1); }
  }
}
