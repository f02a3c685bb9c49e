/**
 The waits of the channel projection. The loop doubles a value until it meets the cap, so that a
 huge stored count cannot overflow it; it equals the capped power of two.
 */
module ChannelDelays {
  import opened Doubling
  import opened Wrappers

  /** The count an exponent stands for; negative ones double nothing. */
  function Count(exponent: int): nat { if exponent > 0 then exponent else 0 }

  lemma Saturated(value: real, cap: real, n: nat)
    requires value > 0.0 && value >= cap
    ensures Capped(value, cap, n) == cap
  {
    DoubledGrows(value, 0, n);
  }

  /** `_bounded_exponential`. `doublings` counts the times the value was doubled, `peak` is the
      largest value the variable had. */
  method BoundedExponential(base: real, cap: real, exponent: int)
    returns (r: real, ghost doublings: nat, ghost peak: real)
    requires base > 0.0 && cap > 0.0
    ensures r == Capped(base, cap, Count(exponent))
    ensures peak <= Max(base, cap)
    ensures doublings <= Count(exponent)
    ensures doublings > 0 ==> Doubled(base, doublings) < cap
  {
    var value, remaining := base, exponent;
    doublings, peak := 0, base;
    while remaining > 0 && value < cap
      invariant value > 0.0 && peak == value
      invariant doublings + Count(remaining) == Count(exponent)
      invariant value == Doubled(base, doublings)
      invariant doublings > 0 ==> value < cap
      invariant Capped(value, cap, Count(remaining)) == Capped(base, cap, Count(exponent))
    {
      DoubleFirst(value, remaining);
      if value >= cap / 2.0 {
        Saturated(value * 2.0, cap, remaining - 1);
        return cap, doublings, peak;
      }
      value := value * 2.0;
      remaining := remaining - 1;
      doublings := doublings + 1;
      peak := value;
    }
    if value >= cap {
      Saturated(value, cap, Count(remaining));
    }
    r := Min(cap, value);
  }

  /** However large the exponent is, the loop doubles fewer times than it takes to reach the cap. */
  lemma DoublingsBounded(base: real, cap: real, doublings: nat, enough: nat)
    requires base > 0.0 && cap > 0.0
    requires doublings > 0 ==> Doubled(base, doublings) < cap
    requires Doubled(base, enough) >= cap
    ensures doublings <= enough
  {
  }

  datatype Settings = Settings(retryBase: real, retryCap: real, pollBase: real, pollCap: real) {
    predicate Valid() { 0.0 < retryBase <= retryCap && 0.0 < pollBase <= pollCap }
  }

  /** The wait after a failed delivery: the provider may ask for more, but never above the cap. */
  function RetryWait(s: Settings, asked: Option<real>, failures: nat): real {
    Min(s.retryCap, Max(Capped(s.retryBase, s.retryCap, failures), if asked.Some? then asked.value else 0.0))
  }

  /** `_retry_delay`. */
  method RetryDelay(s: Settings, asked: Option<real>, failures: nat) returns (r: real)
    requires s.Valid() && (asked.Some? ==> asked.value >= 0.0)
    ensures r == RetryWait(s, asked, failures)
    ensures s.retryBase <= r <= s.retryCap
    ensures asked.Some? ==> Min(s.retryCap, asked.value) <= r
  {
    var exponential, _, _ := BoundedExponential(s.retryBase, s.retryCap, failures);
    CappedGrows(s.retryBase, s.retryCap, failures, failures);
    var requested := if asked.Some? then asked.value else 0.0;
    r := Min(s.retryCap, Max(exponential, requested));
  }

  /** The wait without a wish starts at the base and doubles with each failure up to the cap; a wish is granted
      where it is longer, up to the cap. */
  lemma RetryWaitIs(s: Settings, asked: real, n: nat)
    requires s.Valid() && asked >= 0.0
    ensures RetryWait(s, None, 0) == s.retryBase
    ensures var w := RetryWait(s, None, n);
            RetryWait(s, None, n + 1) == if 2.0 * w < s.retryCap then 2.0 * w else s.retryCap
    ensures var w := RetryWait(s, None, n);
            RetryWait(s, Some(asked), n) == if asked <= w then w else if asked < s.retryCap then asked else s.retryCap
  {
    CappedDoubles(s.retryBase, s.retryCap, n);
    CappedGrows(s.retryBase, s.retryCap, n, n + 1);
    CappedGrows(s.retryBase, s.retryCap, 0, n);
  }

  /** The poll wait starts at the base, doubles with each attempt that was no delivery failure behind the
      first, and stops at the cap. */
  lemma PollWaitIs(s: Settings, polls: nat, failures: nat)
    requires s.Valid()
    ensures PollWait(s, failures, failures) == s.pollBase && PollWait(s, failures + 1, failures) == s.pollBase
    ensures var w := PollWait(s, polls + failures + 1, failures);
            PollWait(s, polls + failures + 2, failures) == if 2.0 * w < s.pollCap then 2.0 * w else s.pollCap
  {
    CappedDoubles(s.pollBase, s.pollCap, polls);
  }

  /** More failures, or a longer wish of the provider, never shorten the wait. */
  lemma RetryWaitGrows(s: Settings, asked: real, longer: real, m: nat, n: nat)
    requires s.Valid() && 0.0 <= asked <= longer && m <= n
    ensures RetryWait(s, Some(asked), m) <= RetryWait(s, Some(longer), n)
    ensures RetryWait(s, None, m) == RetryWait(s, Some(0.0), m)
  {
    CappedGrows(s.retryBase, s.retryCap, m, n);
  }

  /** Attempts that were no delivery failures, but at least one. */
  function Polls(attempts: nat, failures: nat): (p: nat)
    ensures p >= 1
  {
    if attempts - failures > 1 then attempts - failures else 1
  }

  function PollWait(s: Settings, attempts: nat, failures: nat): real {
    Capped(s.pollBase, s.pollCap, Polls(attempts, failures) - 1)
  }

  /** `_task_poll_delay`. */
  method TaskPollDelay(s: Settings, attempts: nat, failures: nat) returns (r: real)
    requires s.Valid()
    ensures r == PollWait(s, attempts, failures)
    ensures s.pollBase <= r <= s.pollCap
  {
    var polls := if attempts - failures > 1 then attempts - failures else 1;
    CappedGrows(s.pollBase, s.pollCap, polls - 1, polls - 1);
    var wait, _, _ := BoundedExponential(s.pollBase, s.pollCap, polls - 1);
    r := wait;
  }

  /** More attempts never shorten the wait, and delivery failures never lengthen it. */
  lemma PollWaitGrows(s: Settings, attempts: nat, more: nat, failures: nat, fewer: nat)
    requires s.Valid() && attempts <= more && fewer <= failures
    ensures PollWait(s, attempts, failures) <= PollWait(s, more, fewer)
  {
    CappedGrows(s.pollBase, s.pollCap, Polls(attempts, failures) - 1, Polls(more, fewer) - 1);
  }
}
