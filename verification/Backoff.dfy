/** The two retry delays: doubling by retry count, and doubling up to a queue age. */
module Backoff {

  /** A duration in nanoseconds, as wide as the server's. */
  newtype Duration = x: int | -0x8000_0000_0000_0000 <= x < 0x8000_0000_0000_0000

  const HALF: Duration := 0x4000_0000_0000_0000

  /** Doubling in that width, which wraps around. */
  function Twice(d: Duration): (r: Duration)
    ensures -HALF <= d < HALF ==> r as int == 2 * d as int
    ensures d >= HALF ==> r < 0
  {
    if d >= HALF then (2 * d as int - 0x1_0000_0000_0000_0000) as Duration
    else if d < -HALF then (2 * d as int + 0x1_0000_0000_0000_0000) as Duration
    else 2 * d
  }

  function Pow2(k: nat): nat { if k == 0 then 1 else 2 * Pow2(k - 1) }

  function Min(a: int, b: int): int { if a <= b then a else b }

  /** The delay of the `n`th retry: the base doubled `n - 1` times, up to the limit. */
  function Delay(base: int, limit: int, n: int): int {
    Min(base * Pow2(if n <= 1 then 0 else n - 1), limit)
  }

  lemma {:induction false} Pow2Grows(j: nat, k: nat)
    requires j <= k
    ensures Pow2(j) <= Pow2(k)
    decreases k - j
  {
    if j < k {
      Pow2Grows(j, k - 1);
    }
  }

  lemma TimesGrows(base: nat, j: nat, k: nat)
    requires j <= k
    ensures base * Pow2(j) <= base * Pow2(k)
  {
    Pow2Grows(j, k);
    assert base * Pow2(k) - base * Pow2(j) == base * (Pow2(k) - Pow2(j));
  }

  /** More retries never wait less, and no retry waits longer than the limit. */
  lemma DelayGrows(base: nat, limit: int, m: int, n: int)
    requires m <= n
    ensures Delay(base, limit, m) <= Delay(base, limit, n) <= limit
  {
    TimesGrows(base, if m <= 1 then 0 else m - 1, if n <= 1 then 0 else n - 1);
  }

  /** The loop's doublings, `left` of them to go. */
  function Doubled(d: Duration, limit: Duration, left: nat): Duration
    decreases left
  {
    if left == 0 then d
    else
      var next := Twice(d);
      if next >= limit then limit else Doubled(next, limit, left - 1)
  }

  /** What the loop computes, wrap-around included. */
  function Computed(base: Duration, limit: Duration, n: int): Duration {
    var d := Doubled(base, limit, if n <= 1 then 0 else n - 1);
    if d > limit then limit else d
  }

  method NextRetryDelay(base: Duration, limit: Duration, n: int) returns (delay: Duration)
    ensures delay == Computed(base, limit, n) && delay <= limit
  {
    delay := base;
    var i := 1;
    while i < n
      invariant 1 <= i && (i <= n || i == 1)
      invariant Doubled(base, limit, if n <= 1 then 0 else n - 1) == Doubled(delay, limit, if n <= i then 0 else n - i)
    {
      delay := Twice(delay);
      if delay >= limit {
        delay := limit;
        break;
      }
      i := i + 1;
    }
    if delay > limit {
      delay := limit;
    }
  }

  /** Some doubling that the loop makes starts from half the range or more. */
  ghost predicate Overflows(base: int, limit: int, n: int) {
    exists k: nat :: k < n - 1 && base * Pow2(k) >= HALF as int && (k == 0 || base * Pow2(k) < limit)
  }

  lemma TimesTwice(base: int, k: nat)
    ensures base * Pow2(k + 1) == 2 * (base * Pow2(k))
  {
    assert Pow2(k + 1) == 2 * Pow2(k);
    assert base * (2 * Pow2(k)) == 2 * (base * Pow2(k));
  }

  lemma {:induction false} DoubledIsDelay(base: Duration, limit: Duration, n: int, k: nat, d: Duration)
    requires base >= 0 && !Overflows(base as int, limit as int, n) && k < n
    requires d as int == base as int * Pow2(k) && (k == 0 || d < limit)
    ensures var end := Doubled(d, limit, n - 1 - k); (if end > limit then limit else end) as int == Delay(base as int, limit as int, n)
    decreases n - k
  {
    hide Pow2;
    if k < n - 1 {
      assert d < HALF;
      hide Overflows, Twice;
      TimesTwice(base as int, k);
      var next := Twice(d);
      if next >= limit {
        TimesGrows(base as int, k + 1, n - 1);
      } else {
        DoubledIsDelay(base, limit, n, k + 1, next);
      }
    }
  }

  /** Unless a doubling overflows, the delay is the base doubled once per earlier retry, up to the limit. */
  lemma DelayIsExactWithoutOverflow(base: Duration, limit: Duration, n: int)
    requires base >= 0 && !Overflows(base as int, limit as int, n)
    ensures Computed(base, limit, n) as int == Delay(base as int, limit as int, n)
  {
    if n >= 1 {
      DoubledIsDelay(base, limit, n, 0, base);
    }
  }

  /** A configuration below half the range, which is 146 years, never overflows. */
  lemma BoundedConfigurationsDoNotOverflow(base: Duration, limit: Duration, n: int)
    requires base < HALF && limit <= HALF
    ensures !Overflows(base as int, limit as int, n)
  {
    assert base as int * Pow2(0) == base as int;
  }

  // ------------------------------------------------------ configured delays

  const RANGE: int := 0x8000_0000_0000_0000

  /** A whole number as the server's duration holds it. */
  function Wrapped(x: int): (r: Duration)
    ensures -RANGE <= x < RANGE ==> r as int == x
  {
    ((x + RANGE) % (2 * RANGE) - RANGE) as Duration
  }

  const SECOND: int := 1_000_000_000
  const DEFAULT_BASE_SECONDS: int := 15
  const DEFAULT_LIMIT_SECONDS: int := 300

  /** The nanoseconds a configured number of seconds stands for; a number that is not positive gives the default. */
  function Nanoseconds(seconds: int, fallback: int): int { (if seconds <= 0 then fallback else seconds) * SECOND }

  /** The duration the configuration makes of it. */
  function DurationSeconds(seconds: int, fallback: int): Duration { Wrapped(Nanoseconds(seconds, fallback)) }

  /** The first of a number and its doublings that is half the range or more. */
  function Reach(b: int): (r: int)
    requires b > 0
    ensures r >= b && r >= HALF as int
    decreases HALF as int - b
  {
    if b >= HALF as int then b else Reach(2 * b)
  }

  /**
   Base and limit, in nanoseconds, for which no doubling overflows: the limit is in range, and so is the
   base and what doubling it before the limit reaches. A base beyond the range is still served when it
   wraps to one below half the range that is no less than the limit.
   */
  predicate Safe(base: int, limit: int) {
    && limit < RANGE
    && if base < RANGE then base > 0 && base < HALF as int && limit <= Reach(base)
       else limit <= Wrapped(base) as int < HALF as int
  }

  lemma {:induction false} ReachIsLeast(b: int, k: nat)
    requires b > 0 && b * Pow2(k) >= HALF as int
    ensures Reach(b) <= b * Pow2(k)
    decreases HALF as int - b
  {
    if b >= HALF as int {
      TimesGrows(b, 0, k);
    } else {
      assert k > 0;
      TimesTwice(b, k - 1);
      assert 2 * b * Pow2(k - 1) == 2 * (b * Pow2(k - 1));
      ReachIsLeast(2 * b, k - 1);
    }
  }

  lemma SafeDoesNotOverflow(base: int, limit: int, n: int)
    requires 0 < base < HALF as int && limit <= Reach(base)
    ensures !Overflows(base, limit, n)
  {
    forall k: nat | base * Pow2(k) >= HALF as int ensures k > 0 && base * Pow2(k) >= limit {
      assert base * Pow2(0) == base;
      ReachIsLeast(base, k);
    }
  }

  /** Where doubling passes half the range below the limit, some number of doublings gives a negative delay. */
  lemma {:induction false} DoublingGoesNegative(d: Duration, limit: Duration) returns (left: nat)
    requires d > 0 && limit > 0 && (d >= HALF || Reach(d as int) < limit as int)
    ensures left >= 1 && Doubled(d, limit, left) < 0
    decreases HALF as int - d as int
  {
    var next := Twice(d);
    if d >= HALF {
      left := 1;
      assert Doubled(next, limit, 0) == next;
    } else {
      var rest := DoublingGoesNegative(next, limit);
      left := rest + 1;
    }
  }

  /** The delays the seconds in the configuration promise, for every number of retries. */
  ghost predicate KeepsPromise(base: int, limit: int) {
    forall n :: Computed(Wrapped(base), Wrapped(limit), n) as int == Delay(base, limit, n)
  }

  lemma SafeKeepsPromise(base: int, limit: int)
    requires base > 0 && limit > 0 && Safe(base, limit)
    ensures KeepsPromise(base, limit)
  {
    forall n ensures Computed(Wrapped(base), Wrapped(limit), n) as int == Delay(base, limit, n) {
      if base < RANGE {
        SafeDoesNotOverflow(base, limit, n);
        DelayIsExactWithoutOverflow(Wrapped(base), Wrapped(limit), n);
      } else {
        TimesGrows(base, 0, if n <= 1 then 0 else n - 1);
        assert base * Pow2(0) == base;
      }
    }
  }

  lemma {:induction false} Pow2Exceeds(k: nat)
    ensures Pow2(k) > k
  {
    if k > 0 {
      Pow2Exceeds(k - 1);
    }
  }

  /** A limit out of range is never reached. */
  lemma LimitOutOfRange(base: int, limit: int)
    requires base > 0 && limit >= RANGE
    ensures !KeepsPromise(base, limit)
  {
    hide Pow2, Computed, Wrapped;
    Pow2Exceeds(limit);
    TimesAtLeast(base, Pow2(limit));
    assert Delay(base, limit, limit + 1) == limit;
    assert Computed(Wrapped(base), Wrapped(limit), limit + 1) as int < RANGE;
  }

  lemma TimesAtLeast(a: int, b: int)
    requires a >= 1 && b >= 0
    ensures a * b >= b
  {
    assert (a - 1) * b >= 0;
  }

  lemma DelayIsPositive(base: int, limit: int, n: int)
    requires base > 0 && limit > 0
    ensures Delay(base, limit, n) > 0
  {
    TimesGrows(base, 0, if n <= 1 then 0 else n - 1);
    assert base * Pow2(0) == base;
  }

  lemma UnsafeBreaksPromise(base: int, limit: int)
    requires base > 0 && 0 < limit < RANGE && !Safe(base, limit)
    ensures !KeepsPromise(base, limit)
  {
    var b, l := Wrapped(base), Wrapped(limit);
    if base < RANGE {
      var left := DoublingGoesNegative(b, l);
      DelayIsPositive(base, limit, left + 1);
      assert Computed(b, l, left + 1) as int != Delay(base, limit, left + 1);
    } else {
      TimesGrows(base, 0, 1);
      assert base * Pow2(0) == base;
      assert Delay(base, limit, 1) == limit && Delay(base, limit, 2) == limit;
      if b < l {
        assert Computed(b, l, 1) as int != Delay(base, limit, 1);
      } else {
        assert Doubled(Twice(b), l, 0) == Twice(b);
        assert Computed(b, l, 2) as int != Delay(base, limit, 2);
      }
    }
  }

  /**
   For every configured number of seconds, the retry delays are for all retry counts the base doubled once per
   earlier retry, up to the limit, exactly when the configuration is safe.
   */
  lemma ConfiguredDelaysAreExactExactlyWhen(baseSeconds: int, limitSeconds: int)
    ensures var base := (if baseSeconds <= 0 then 15 else baseSeconds) * 1_000_000_000;
      var limit := (if limitSeconds <= 0 then 300 else limitSeconds) * 1_000_000_000;
      Safe(base, limit) <==>
      forall n :: Computed(DurationSeconds(baseSeconds, DEFAULT_BASE_SECONDS),
                           DurationSeconds(limitSeconds, DEFAULT_LIMIT_SECONDS), n) as int == Delay(base, limit, n)
  {
    hide Wrapped, Computed, Delay;
    var base, limit := Nanoseconds(baseSeconds, DEFAULT_BASE_SECONDS), Nanoseconds(limitSeconds, DEFAULT_LIMIT_SECONDS);
    assert base == (if baseSeconds <= 0 then 15 else baseSeconds) * 1_000_000_000;
    assert limit == (if limitSeconds <= 0 then 300 else limitSeconds) * 1_000_000_000;
    hide Nanoseconds;
    if Safe(base, limit) {
      SafeKeepsPromise(base, limit);
    } else {
      if limit >= RANGE {
        LimitOutOfRange(base, limit);
      } else {
        UnsafeBreaksPromise(base, limit);
      }
      var n :| Computed(Wrapped(base), Wrapped(limit), n) as int != Delay(base, limit, n);
      assert Computed(DurationSeconds(baseSeconds, DEFAULT_BASE_SECONDS), DurationSeconds(limitSeconds, DEFAULT_LIMIT_SECONDS), n) as int
        != Delay(base, limit, n);
    }
  }

  /** Configurations of at most 146 years are safe. */
  lemma BoundedSecondsAreSafe(baseSeconds: int, limitSeconds: int)
    requires baseSeconds <= 4_611_686_018 && limitSeconds <= 4_611_686_018
    ensures Safe(Nanoseconds(baseSeconds, DEFAULT_BASE_SECONDS), Nanoseconds(limitSeconds, DEFAULT_LIMIT_SECONDS))
  {
  }

  /** A configuration beyond: its second retry is due in the past. */
  lemma OverflowingDelayIsNegative()
    ensures var base, limit := DurationSeconds(4_611_686_019, DEFAULT_BASE_SECONDS), DurationSeconds(4_611_686_020, DEFAULT_LIMIT_SECONDS);
      && base as int == 4_611_686_019_000_000_000 && limit as int == 4_611_686_020_000_000_000
      && Computed(base, limit, 2) < 0 && Delay(base as int, limit as int, 2) == limit as int
  {
    var base, limit := DurationSeconds(4_611_686_019, DEFAULT_BASE_SECONDS), DurationSeconds(4_611_686_020, DEFAULT_LIMIT_SECONDS);
    assert Pow2(1) == 2;
    assert Doubled(base, limit, 1) == Doubled(Twice(base), limit, 0) == Twice(base);
  }

  // ------------------------------------------------------------ waiting jobs

  /** `k` doublings are the fewest that take the base past the age or to the limit. */
  ghost predicate FewestDoublings(base: int, limit: int, age: int, k: nat) {
    && (base * Pow2(k) > age || base * Pow2(k) >= limit)
    && forall j :: 0 <= j < k ==> base * Pow2(j) <= age && base * Pow2(j) < limit
  }

  /** No doubling of the waiting loop starts from half the range or more. */
  predicate WaitSafe(base: int, limit: int, age: int) {
    base <= 0 || limit <= Reach(base) || age < Reach(base)
  }

  /**
   The wait until a job that is not ready is asked about again; `k` counts the doublings. It is exact when
   no doubling overflows and negative otherwise.
   */
  method WaitingDelay(base: Duration, limit: Duration, age: Duration) returns (delay: Duration, ghost k: nat)
    ensures delay <= limit
    ensures WaitSafe(base as int, limit as int, age as int) ==> delay as int == Min(base as int * Pow2(k), limit as int)
    ensures WaitSafe(base as int, limit as int, age as int) && base > 0 ==> FewestDoublings(base as int, limit as int, age as int, k)
    ensures base <= 0 ==> k == 0
    ensures !WaitSafe(base as int, limit as int, age as int) ==> delay < 0
  {
    delay := base;
    k := 0;
    while delay > 0 && delay < limit && age >= delay
      invariant WaitSafe(base as int, limit as int, age as int) ==> delay as int == base as int * Pow2(k) && (base > 0 ==> delay > 0)
      invariant base <= 0 ==> k == 0 && delay == base
      invariant base > 0 ==> delay != 0 && (delay > 0 ==> Reach(delay as int) == Reach(base as int))
      invariant WaitSafe(base as int, limit as int, age as int) ==>
        forall j :: 0 <= j < k ==> base as int * Pow2(j) <= age as int && base as int * Pow2(j) < limit as int
      decreases if delay > 0 then limit as int - delay as int else 0
    {
      TimesTwice(base as int, k);
      delay := Twice(delay);
      k := k + 1;
    }
    if delay > limit {
      delay := limit;
    }
  }

  /** A wait below the limit is longer than the age, so the age at the next poll has doubled. */
  lemma UncappedWaitDoublesAge(base: int, limit: int, age: int, k: nat)
    requires base > 0 && FewestDoublings(base, limit, age, k) && Min(base * Pow2(k), limit) < limit
    ensures age + Min(base * Pow2(k), limit) > 2 * age
  {
  }

  /**
   Successive polls of a waiting job: each comes at least its wait after the one before, or earlier
   when a delivery woke the request.
   */
  ghost predicate Polls(base: int, limit: int, ages: seq<int>, ks: seq<nat>, woken: seq<bool>) {
    && |ages| == |ks| == |woken| && (forall i :: 0 <= i < |ages| ==> FewestDoublings(base, limit, ages[i], ks[i]))
    && (forall i :: 0 <= i < |ages| ==> ages[i] >= 0)
    && (forall i :: 0 < i < |ages| ==>
          ages[i] >= ages[i - 1] + if woken[i] then 0 else Min(base * Pow2(ks[i - 1]), limit))
  }

  /** How many of the polls up to the `i`th came after a full wait. */
  function Slept(woken: seq<bool>, i: nat): nat
    requires i < |woken|
  {
    if i == 0 then 0 else Slept(woken, i - 1) + if woken[i] then 0 else 1
  }

  lemma {:induction false} PollDoublesWait(base: int, limit: int, ages: seq<int>, ks: seq<nat>, woken: seq<bool>, i: nat)
    requires base > 0 && Polls(base, limit, ages, ks, woken) && i < |ks|
    requires forall j :: 0 <= j <= i ==> base * Pow2(ks[j]) < limit
    ensures ks[i] >= Slept(woken, i)
  {
    if i > 0 {
      PollDoublesWait(base, limit, ages, ks, woken, i - 1);
      assert FewestDoublings(base, limit, ages[i], ks[i]) && FewestDoublings(base, limit, ages[i - 1], ks[i - 1]);
    }
  }

  /** The waits below the limit are logarithmically many: the base doubled once for each stays below the limit. */
  lemma UncappedPollsAreLogarithmic(base: int, limit: int, ages: seq<int>, ks: seq<nat>, woken: seq<bool>)
    requires base > 0 && Polls(base, limit, ages, ks, woken) && |ks| > 0
    requires forall j :: 0 <= j < |ks| ==> base * Pow2(ks[j]) < limit
    ensures base * Pow2(Slept(woken, |ks| - 1)) < limit
  {
    PollDoublesWait(base, limit, ages, ks, woken, |ks| - 1);
    TimesGrows(base, Slept(woken, |ks| - 1), ks[|ks| - 1]);
  }
}
