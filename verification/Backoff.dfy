/** The capped doubling delay that the provider, the gateway and the room refresher all wait by. */
module Backoff {
  import opened Common

  const BASE_MS := 1000
  const MAX_MS := 30000

  function Pow2(n: nat): (p: nat)
    ensures p >= 1
  {
    if n == 0 then 1 else 2 * Pow2(n - 1)
  }

  /** The wait after `failures` earlier failures in a row. */
  function Delay(failures: nat): nat { Min(BASE_MS * Pow2(failures), MAX_MS) }

  /** 1 s, 2 s, 4 s, 8 s, 16 s, and 30 s from then on; never shorter after more failures. */
  lemma {:induction false} DelaySchedule(m: nat, n: nat)
    requires m <= n
    ensures 1000 <= Delay(m) <= Delay(n) <= 30000
    ensures Delay(n) == 30000 <==> n >= 5
    ensures Delay(n) == Min(1000 * Pow2(n), 30000)
    ensures Delay(0) == 1000 && Delay(1) == 2000 && Delay(2) == 4000 && Delay(3) == 8000 && Delay(4) == 16000
    decreases n
  {
    assert Pow2(0) == 1 && Pow2(1) == 2 && Pow2(2) == 4 && Pow2(3) == 8 && Pow2(4) == 16 && Pow2(5) == 32;
    if n > 5 {
      DelaySchedule(5, n - 1);
      assert Pow2(n) == 2 * Pow2(n - 1);
      PowGrows(m, n);
    } else {
      PowGrows(m, n);
    }
  }

  lemma {:induction false} PowGrows(m: nat, n: nat)
    requires m <= n
    ensures Pow2(m) <= Pow2(n)
  {
    if m < n {
      PowGrows(m, n - 1);
    }
  }
}
