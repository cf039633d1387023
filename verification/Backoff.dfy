/** The two waiting ladders: between tries of a step (src/papayya/durable/run.py)
    and between attempts of a ledger write (src/papayya/durable/cloud_store.py). */
module Backoff {

  const DEFAULT_STEP_RETRIES := 4
  const STEP_RETRY_MAX_SECONDS := 8
  const MAX_ATTEMPTS := 5
  const INITIAL_BACKOFF_TENTHS := 1
  const MAX_BACKOFF_TENTHS := 20

  function Pow2(n: nat): nat {
    if n == 0 then 1 else 2 * Pow2(n - 1)
  }

  function Min(a: int, b: int): int {
    if a < b then a else b
  }

  function Max(a: int, b: int): int {
    if a > b then a else b
  }

  /** Seconds slept after failed try `n`, counting from 1. */
  function RetryWait(n: nat): nat
    requires n >= 1
  {
    Min(Pow2(n - 1), STEP_RETRY_MAX_SECONDS)
  }

  /** Seconds slept after the first `n` failed tries together. */
  function StepSleep(n: nat): nat {
    if n == 0 then 0 else StepSleep(n - 1) + RetryWait(n)
  }

  /** The store doubles a running value instead of computing a power. */
  function NextBackoff(tenths: nat): nat {
    Min(tenths * 2, MAX_BACKOFF_TENTHS)
  }

  function BackoffAt(n: nat): nat {
    if n == 0 then INITIAL_BACKOFF_TENTHS else NextBackoff(BackoffAt(n - 1))
  }

  /** Tenths of a second slept over `m` sleeps of the store's ladder. */
  function StoreSleep(m: nat): nat {
    if m == 0 then 0 else StoreSleep(m - 1) + BackoffAt(m - 1)
  }

  lemma {:induction false} Pow2Large(n: nat)
    requires n >= 3
    ensures Pow2(n) >= 8
  {
    if n == 3 {
      assert Pow2(2) == 4 && Pow2(1) == 2 && Pow2(0) == 1;
    } else {
      Pow2Large(n - 1);
    }
  }

  lemma {:induction false} StepSleepClosed(r: nat)
    ensures StepSleep(r) == if r >= 4 then 15 + 8 * (r - 4) else if r == 3 then 7 else if r == 2 then 3 else r
  {
    if r == 0 {
    } else {
      StepSleepClosed(r - 1);
      if r >= 4 { Pow2Large(r - 1); }
      assert r == 4 ==> Pow2(2) == 4 && Pow2(1) == 2 && Pow2(0) == 1;
    }
  }

  lemma {:induction false} BackoffCapped(n: nat)
    requires n >= 5
    ensures BackoffAt(n) == MAX_BACKOFF_TENTHS
  {
    if n > 5 {
      BackoffCapped(n - 1);
    } else {
      assert BackoffAt(1) == 2 && BackoffAt(2) == 4 && BackoffAt(3) == 8 && BackoffAt(4) == 16;
    }
  }

  lemma {:induction false} StoreSleepClosed(m: nat)
    ensures StoreSleep(m) == if m >= 5 then 31 + 20 * (m - 5) else if m == 4 then 15 else if m == 3 then 7 else if m == 2 then 3 else m
  {
    if m > 5 {
      StoreSleepClosed(m - 1);
      BackoffCapped(m - 1);
      assert Pow2(1) == 2 && Pow2(2) == 4 && Pow2(3) == 8 && Pow2(4) == 16 && Pow2(5) == 32;
    } else {
      assert BackoffAt(1) == 2 && BackoffAt(2) == 4 && BackoffAt(3) == 8 && BackoffAt(4) == 16;
      assert Pow2(1) == 2 && Pow2(2) == 4 && Pow2(3) == 8 && Pow2(4) == 16 && Pow2(5) == 32;
      assert StoreSleep(1) == 1 && StoreSleep(2) == 3 && StoreSleep(3) == 7 && StoreSleep(4) == 15 && StoreSleep(5) == 31;
    }
  }
}
