/** Retry with exponential backoff: saturating ceilings, deterministic jitter and the bounded loop. */
module Retry {
  import opened Prelude

  const U32_MAX: nat := 0xFFFF_FFFF
  const U64_MAX: nat := 0xFFFF_FFFF_FFFF_FFFF
  const U128_MAX: nat := 0xFFFF_FFFF_FFFF_FFFF_FFFF_FFFF_FFFF_FFFF
  const MILLI: nat := 1_000_000

  /** The longest representable duration, in nanoseconds. */
  const DURATION_MAX: nat := U64_MAX * 1_000_000_000 + 999_999_999

  /** Durations are nanoseconds. */
  datatype BackoffConfig = BackoffConfig(initialDelay: nat, maxDelay: nat, maxAttempts: nat, multiplier: nat)

  predicate Valid(c: BackoffConfig) {
    c.initialDelay <= DURATION_MAX && c.maxDelay <= DURATION_MAX && c.maxAttempts <= U32_MAX && c.multiplier <= U32_MAX
  }

  const DEFAULT: BackoffConfig := BackoffConfig(100 * MILLI, 5000 * MILLI, 6, 2)

  function Pow(b: nat, e: nat): nat {
    if e == 0 then 1 else b * Pow(b, e - 1)
  }

  function Clamp(n: nat, max: nat): nat {
    if n < max then n else max
  }

  /** Upper bound of the sleep after the given attempt, counted from 1. */
  function Ceiling(c: BackoffConfig, attempt: nat): nat {
    var exponent := if attempt == 0 then 0 else attempt - 1;
    var factor := Clamp(Pow(c.multiplier, exponent), U32_MAX);
    var nanos := Clamp(c.initialDelay * factor, U128_MAX);
    Clamp(Clamp(nanos, U64_MAX), c.maxDelay)
  }

  lemma {:induction false} MulMono(a: nat, x: nat, y: nat)
    requires x <= y
    ensures a * x <= a * y && x * a <= y * a
  {
  }

  lemma {:induction false} PowMono(b: nat, e: nat, f: nat)
    requires b >= 1 && e <= f
    ensures 1 <= Pow(b, e) <= Pow(b, f)
    decreases f
  {
    if e < f {
      PowMono(b, e, f - 1);
      MulMono(Pow(b, f - 1), 1, b);
    } else if e > 0 {
      PowMono(b, e - 1, e - 1);
      MulMono(b, 1, Pow(b, e - 1));
    }
  }

  /** For a multiplier of at least 1 the ceilings never shrink; no ceiling exceeds the cap. */
  lemma {:induction false} CeilingGrowsToCap(c: BackoffConfig, a: nat, b: nat)
    requires c.multiplier >= 1 && a <= b
    ensures Ceiling(c, a) <= Ceiling(c, b) <= c.maxDelay
  {
    var e, f := if a == 0 then 0 else a - 1, if b == 0 then 0 else b - 1;
    PowMono(c.multiplier, e, f);
    MulMono(c.initialDelay, Clamp(Pow(c.multiplier, e), U32_MAX), Clamp(Pow(c.multiplier, f), U32_MAX));
  }

  /** The 128-bit product never saturates for durations. */
  lemma {:induction false} ProductFits(c: BackoffConfig, attempt: nat)
    requires Valid(c)
    ensures c.initialDelay * Clamp(Pow(c.multiplier, attempt), U32_MAX) <= U128_MAX
  {
    var factor := Clamp(Pow(c.multiplier, attempt), U32_MAX);
    MulMono(c.initialDelay, factor, U32_MAX);
    MulMono(U32_MAX, c.initialDelay, DURATION_MAX);
  }

  /**
   The ceiling is the unbounded geometric schedule cut at `maxDelay` exactly when saturation does not
   show: the cut schedule fits 64 bits of nanoseconds, and the 32-bit power either did not saturate or
   was already enough to reach the cap.
   */
  lemma {:induction false} CeilingExactIff(c: BackoffConfig, n: nat)
    requires Valid(c) && n >= 1
    ensures var ideal, pow := Clamp(c.initialDelay * Pow(c.multiplier, n - 1), c.maxDelay), Pow(c.multiplier, n - 1);
            Ceiling(c, n) == ideal <==>
              ideal <= U64_MAX && (pow <= U32_MAX || c.initialDelay == 0 || c.initialDelay * U32_MAX >= c.maxDelay)
  {
    ProductFits(c, n - 1);
    var pow := Pow(c.multiplier, n - 1);
    if pow > U32_MAX {
      MulMono(c.initialDelay, U32_MAX, pow);
      MulMono(c.initialDelay, U32_MAX + 1, pow);
    }
  }

  // ---------- jitter ----------

  /** The share of the ceiling slept after `attempt`, in 1024ths; the multiplication wraps at 64 bits. */
  function JitterRatio(attempt: nat): nat {
    attempt * 1103515245 % (U64_MAX + 1) % 1024
  }

  function SleepAfter(c: BackoffConfig, attempt: nat): nat {
    Clamp(Ceiling(c, attempt) * JitterRatio(attempt) / 1024, U64_MAX)
  }

  /** Adding multiples of 1024 changes nothing modulo 1024. */
  lemma {:induction false} DropsMultiples(k: nat, y: nat)
    ensures (k * 1024 + y) % 1024 == y % 1024
  {
    if k > 0 {
      DropsMultiples(k - 1, y);
      assert k * 1024 + y == ((k - 1) * 1024 + y) + 1024;
    }
  }

  /** The 64-bit wrap never shows in the share slept: it is `attempt * 621` modulo 1024. */
  lemma {:induction false} JitterIs(attempt: nat)
    ensures JitterRatio(attempt) == attempt * 621 % 1024
  {
    var x := attempt * 1103515245;
    var w := U64_MAX + 1;
    assert x == x / w * (w / 1024) * 1024 + x % w;
    DropsMultiples(x / w * (w / 1024), x % w);
    assert x == attempt * 1077651 * 1024 + attempt * 621;
    DropsMultiples(attempt * 1077651, attempt * 621);
  }

  /** Exactly that many 1024ths of the ceiling are slept, rounded down. */
  lemma {:induction false} SleepIs(c: BackoffConfig, attempt: nat)
    ensures var share := attempt * 621 % 1024;
            1024 * SleepAfter(c, attempt) <= Ceiling(c, attempt) * share < 1024 * (SleepAfter(c, attempt) + 1)
  {
    JitterIs(attempt);
    MulMono(Ceiling(c, attempt), attempt * 621 % 1024, 1023);
  }

  function TotalSleep(c: BackoffConfig, attempts: nat): nat {
    if attempts == 0 then 0 else TotalSleep(c, attempts - 1) + SleepAfter(c, attempts)
  }

  /** A sleep stays strictly below a positive ceiling. */
  lemma {:induction false} SleepBelowCeiling(c: BackoffConfig, attempt: nat)
    ensures SleepAfter(c, attempt) <= Ceiling(c, attempt) <= c.maxDelay
    ensures Ceiling(c, attempt) > 0 ==> SleepAfter(c, attempt) < Ceiling(c, attempt)
  {
    MulMono(Ceiling(c, attempt), JitterRatio(attempt), 1023);
  }

  lemma {:induction false} TotalSleepBound(c: BackoffConfig, attempts: nat)
    ensures TotalSleep(c, attempts) <= attempts * c.maxDelay
  {
    if attempts > 0 {
      TotalSleepBound(c, attempts - 1);
      SleepBelowCeiling(c, attempts);
      OneMore(attempts - 1, c.maxDelay);
    }
  }

  lemma {:induction false} OneMore(n: nat, m: nat)
    ensures (n + 1) * m == n * m + m
  {
  }

  // ---------- the loop ----------

  datatype Outcome<T> = Success(value: T) | Permanent(error: Error) | Transient(error: Error)

  /**
   `answers(k)` is what the k-th call of the operation would return, counted from 1. The result is the
   first answer that is not transient, or the last transient one after `maxAttempts` calls.
   */
  method RetryWithBackoff<T>(c: BackoffConfig, answers: nat -> Outcome<T>)
    returns (r: Outcome<T>, calls: nat, slept: nat)
    requires c.maxAttempts >= 1
    ensures 1 <= calls <= c.maxAttempts && r == answers(calls)
    ensures forall k :: 1 <= k < calls ==> answers(k).Transient?
    ensures calls == c.maxAttempts || !r.Transient?
    // One sleep after each call but the last.
    ensures slept == TotalSleep(c, calls - 1) <= (c.maxAttempts - 1) * c.maxDelay
  {
    var attempt := 1;
    slept := 0;
    while true
      invariant 1 <= attempt <= c.maxAttempts && slept == TotalSleep(c, attempt - 1)
      invariant forall k :: 1 <= k < attempt ==> answers(k).Transient?
      decreases c.maxAttempts - attempt
    {
      r, calls := answers(attempt), attempt;
      TotalSleepBound(c, attempt - 1);
      MulMono(c.maxDelay, attempt - 1, c.maxAttempts - 1);
      if !r.Transient? || attempt >= c.maxAttempts {
        return;
      }
      slept := slept + SleepAfter(c, attempt);
      attempt := attempt + 1;
    }
  }

  /** The default schedule: 100 ms doubling to 3.2 s, then the 5 s cap. */
  lemma {:induction false} DefaultSchedule(n: nat)
    requires n >= 1
    ensures Ceiling(DEFAULT, n) == if n <= 6 then 100_000_000 * Pow(2, n - 1) else 5_000_000_000
    ensures DEFAULT.maxAttempts == 6
  {
    assert Pow(2, 1) == 2 && Pow(2, 2) == 4 && Pow(2, 3) == 8;
    assert Pow(2, 4) == 16;
    assert Pow(2, 5) == 32;
    assert Pow(2, 6) == 64;
    if n <= 6 {
      PowMono(2, n - 1, 5);
    } else {
      PowMono(2, 6, n - 1);
      MulMono(100 * MILLI, 64, Clamp(Pow(2, n - 1), U32_MAX));
    }
  }
}
