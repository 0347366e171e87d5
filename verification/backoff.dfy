/** The retry schedule shared by the GePG inbox and outbox. */
module Backoff {
  import opened Common

  /** Retry settings, in seconds, as the deployment configures them. */
  datatype Settings = Settings(initial: nat, max: nat, maxAge: nat)

  /** How long a claimed row or a sending request is left alone before it counts as abandoned. */
  const STALE_PROCESSING_AFTER: int := 300 * SECOND

  /** The values the base settings ship with: one minute, half an hour, one day. */
  const DEFAULTS := Settings(60, 1800, 86400)

  function Pow2(n: nat): nat {
    if n == 0 then 1 else 2 * Pow2(n - 1)
  }

  /** Seconds to wait after the given attempt; the exponent stops growing at ten. */
  function RetryDelay(cfg: Settings, attempts: nat): nat
    requires attempts >= 1
  {
    Min(cfg.initial * Pow2(Min(attempts - 1, 10)), cfg.max)
  }

  lemma {:induction false} Pow2Monotone(m: nat, n: nat)
    requires m <= n
    ensures 1 <= Pow2(m) <= Pow2(n)
    decreases n
  {
    if m < n {
      Pow2Monotone(m, n - 1);
    } else if n > 0 {
      Pow2Monotone(m - 1, n - 1);
    }
  }

  lemma ScaleMonotone(k: nat, x: nat, y: nat)
    requires x <= y
    ensures k * x <= k * y
  {
  }

  /** Later attempts never wait less. */
  lemma DelayMonotone(cfg: Settings, a: nat, b: nat)
    requires 1 <= a <= b
    ensures RetryDelay(cfg, a) <= RetryDelay(cfg, b)
  {
    var x, y := Min(a - 1, 10), Min(b - 1, 10);
    Pow2Monotone(x, y);
    ScaleMonotone(cfg.initial, Pow2(x), Pow2(y));
  }

  /** Every wait lies between the smaller of the two limits and the cap, and the doubling
      stops after ten. */
  lemma DelayBounds(cfg: Settings, attempts: nat)
    requires attempts >= 1
    ensures Min(cfg.initial, cfg.max) <= RetryDelay(cfg, attempts) <= cfg.max
    ensures attempts >= 11 ==> RetryDelay(cfg, attempts) == RetryDelay(cfg, 11)
  {
    var x := Min(attempts - 1, 10);
    Pow2Monotone(0, x);
    ScaleMonotone(cfg.initial, 1, Pow2(x));
  }

  /** The schedule by itself: it starts at the initial wait, doubles from attempt to attempt
      for ten times, and never passes the cap. */
  lemma DelayDoubles(cfg: Settings, attempts: nat)
    requires attempts >= 1
    ensures RetryDelay(cfg, 1) == Min(cfg.initial, cfg.max)
    ensures attempts <= 10 ==> RetryDelay(cfg, attempts + 1) == Min(2 * RetryDelay(cfg, attempts), cfg.max)
    ensures attempts >= 11 ==> RetryDelay(cfg, attempts + 1) == RetryDelay(cfg, attempts)
  {
    assert Pow2(0) == 1;
    if attempts <= 10 {
      assert Pow2(attempts) == 2 * Pow2(attempts - 1);
      Doubled(cfg.initial, Pow2(attempts - 1));
    }
  }

  lemma Doubled(k: nat, x: nat)
    ensures k * (2 * x) == 2 * (k * x)
  {
  }

  /** The default schedule: 1, 2, 4, 8, 16 minutes, then every 30 minutes. */
  lemma DefaultSchedule(attempts: nat)
    requires attempts >= 1
    ensures RetryDelay(DEFAULTS, attempts) ==
            if attempts == 1 then 60 else if attempts == 2 then 120
            else if attempts == 3 then 240 else if attempts == 4 then 480
            else if attempts == 5 then 960 else 1800
  {
    if attempts >= 6 {
      assert Pow2(5) == 32;
      DelayMonotone(DEFAULTS, 6, attempts);
      DelayBounds(DEFAULTS, attempts);
    }
  }
}
