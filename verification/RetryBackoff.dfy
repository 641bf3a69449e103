/** The delay before a failed Gireve push is retried (gireveRetryBackoff). */
module RetryBackoff {

  datatype BackoffOptions = BackoffOptions(baseIntervalSeconds: real, multiplier: real, maxIntervalSeconds: real)

  /** What the configuration schema lets through: positive intervals and a multiplier of at
      least one. */
  ghost predicate Sensible(options: BackoffOptions) {
    options.baseIntervalSeconds > 0.0 && options.multiplier >= 1.0 && options.maxIntervalSeconds > 0.0
  }

  function Power(m: real, n: nat): real {
    if n == 0 then 1.0 else m * Power(m, n - 1)
  }

  function Min(a: real, b: real): real {
    if a <= b then a else b
  }

  function Uncapped(exponent: nat, options: BackoffOptions): real {
    options.baseIntervalSeconds * Power(options.multiplier, exponent)
  }

  /** computeGireveRetryDelaySeconds: base * multiplier^attempts, capped; a negative count is
      the first attempt. */
  function DelaySeconds(attemptCount: int, options: BackoffOptions): real {
    Min(Uncapped(if attemptCount < 0 then 0 else attemptCount, options), options.maxIntervalSeconds)
  }

  /** computeGireveNextRetryAt, in milliseconds; a date keeps no fraction of a millisecond. */
  function NextRetryAt(attemptCount: int, options: BackoffOptions, from: int): int {
    from + (DelaySeconds(attemptCount, options) * 1000.0).Floor
  }

  /** Between the two instants base * multiplier^n seconds have passed, or the maximum if that is
      less; to the millisecond. */
  ghost predicate Waited(n: int, o: BackoffOptions, from: int, now: int) {
    var uncapped := o.baseIntervalSeconds * Power(o.multiplier, if n < 0 then 0 else n);
    var seconds := if uncapped <= o.maxIntervalSeconds then uncapped else o.maxIntervalSeconds;
    (now - from) as real + 1.0 > seconds * 1000.0
  }

  /** From when on a retry is due. */
  lemma DueExactly(n: int, o: BackoffOptions, from: int, now: int)
    ensures NextRetryAt(n, o, from) <= now <==> Waited(n, o, from, now)
  {
  }

  lemma ScaleMonotone(k: real, a: real, b: real)
    requires k >= 0.0 && a <= b
    ensures k * a <= k * b
  {
  }

  lemma {:induction false} PowerAtLeastOne(m: real, n: nat)
    requires m >= 1.0
    ensures Power(m, n) >= 1.0
  {
    if n > 0 {
      PowerAtLeastOne(m, n - 1);
      ScaleMonotone(m, 1.0, Power(m, n - 1));
    }
  }

  lemma UncappedStep(n: nat, o: BackoffOptions)
    ensures Uncapped(n + 1, o) == o.multiplier * Uncapped(n, o)
  {
    var b, m, p := o.baseIntervalSeconds, o.multiplier, Power(o.multiplier, n);
    assert b * (m * p) == m * (b * p);
  }

  lemma UncappedGrows(n: nat, o: BackoffOptions)
    requires Sensible(o)
    ensures 0.0 <= Uncapped(n, o) <= Uncapped(n + 1, o)
  {
    PowerAtLeastOne(o.multiplier, n);
    ScaleMonotone(o.baseIntervalSeconds, 0.0, Power(o.multiplier, n));
    UncappedStep(n, o);
    GrowsBy(o.multiplier, Uncapped(n, o));
  }

  lemma GrowsBy(m: real, x: real)
    requires m >= 1.0 && x >= 0.0
    ensures m * x >= x
  {
    ScaleMonotone(x, 1.0, m);
    assert x * m == m * x;
  }

  lemma CapStep(m: real, x: real, cap: real)
    requires m >= 1.0 && x >= 0.0 && cap >= 0.0
    ensures Min(m * x, cap) == Min(m * Min(x, cap), cap)
  {
    GrowsBy(m, x);
    GrowsBy(m, cap);
  }

  /** The capped exponential is the recursion "multiply the last delay, then cap". */
  lemma DelayRecursion(n: nat, o: BackoffOptions)
    requires Sensible(o)
    ensures DelaySeconds(0, o) == Min(o.baseIntervalSeconds, o.maxIntervalSeconds)
    ensures DelaySeconds(n + 1, o) == Min(o.multiplier * DelaySeconds(n, o), o.maxIntervalSeconds)
  {
    assert Power(o.multiplier, 0) == 1.0;
    assert Uncapped(0, o) == o.baseIntervalSeconds;
    UncappedStep(n, o);
    UncappedGrows(n, o);
    CapStep(o.multiplier, Uncapped(n, o), o.maxIntervalSeconds);
  }

  /** Retries never come sooner after more failures, and never later than the cap. */
  lemma {:induction false} DelayGrows(a: int, b: int, o: BackoffOptions)
    requires Sensible(o) && a <= b
    ensures DelaySeconds(a, o) <= DelaySeconds(b, o) <= o.maxIntervalSeconds
    decreases b - a
  {
    if a < b {
      DelayGrows(a, b - 1, o);
      if b > 0 {
        UncappedGrows(b - 1, o);
        assert Uncapped(b - 1, o) <= Uncapped(b, o);
      }
    }
  }

  lemma BernoulliStep(m: real, k: real, p: real)
    requires m >= 1.0 && p >= 1.0 && p >= 1.0 + k * (m - 1.0)
    ensures m * p >= 1.0 + (k + 1.0) * (m - 1.0)
  {
    var d := m - 1.0;
    ScaleMonotone(d, 1.0, p);
    assert m * p == p + d * p;
    assert (k + 1.0) * d == k * d + d;
  }

  lemma {:induction false} Bernoulli(m: real, n: nat)
    requires m >= 1.0
    ensures Power(m, n) >= 1.0 + n as real * (m - 1.0)
  {
    if n > 0 {
      Bernoulli(m, n - 1);
      PowerAtLeastOne(m, n - 1);
      BernoulliStep(m, (n - 1) as real, Power(m, n - 1));
    }
  }

  /** With a growing delay the cap is reached, after at most (max/base - 1)/(m - 1) attempts. */
  lemma CapIsReached(n: nat, o: BackoffOptions)
    requires Sensible(o) && o.multiplier > 1.0
    requires n as real * (o.multiplier - 1.0) >= o.maxIntervalSeconds / o.baseIntervalSeconds - 1.0
    ensures DelaySeconds(n, o) == o.maxIntervalSeconds
  {
    var b := o.baseIntervalSeconds;
    Bernoulli(o.multiplier, n);
    var ratio := o.maxIntervalSeconds / b;
    ScaleMonotone(b, ratio, Power(o.multiplier, n));
    assert b * ratio == o.maxIntervalSeconds;
  }

  lemma SomeAttemptReachesCap(o: BackoffOptions)
    requires Sensible(o) && o.multiplier > 1.0
    ensures exists n: nat :: DelaySeconds(n, o) == o.maxIntervalSeconds
  {
    var needed := o.maxIntervalSeconds / o.baseIntervalSeconds - 1.0;
    var x := needed / (o.multiplier - 1.0);
    var n: nat := if x <= 0.0 then 0 else x.Floor + 1;
    ScaleMonotone(o.multiplier - 1.0, x, n as real);
    assert (o.multiplier - 1.0) * x == needed;
    CapIsReached(n, o);
  }
}
