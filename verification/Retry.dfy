/** Bounded retry with full-jitter backoff (src/adapters/common/retry.py) and the loop that both
    provider adapters run around one SDK call, for `invoke` and for establishing a stream
    (src/adapters/bedrock/bedrock_model_provider.py, src/adapters/openai/openai_model_provider.py).
    Delays are exact reals. */
module Retry {
  import opened Domain

  datatype RetryPolicy = RetryPolicy(maxAttempts: int, baseDelay: real, maxDelay: real)

  /** One SDK call: a raw response, or an exception already classified. */
  datatype SdkOutcome<T> = Returned(raw: T) | Threw(category: ErrorCategory)
  {
    predicate Retryable() { Threw? && !category.Permanent? }
  }

  function Pow2(n: nat): (r: nat)
    ensures 1 <= r
  {
    if n == 0 then 1 else 2 * Pow2(n - 1)
  }

  /** `2 ** n - 1`: one base delay, doubled `n - 1` times, added up. */
  function Doublings(n: nat): nat { Pow2(n) - 1 }

  function Min(a: real, b: real): real { if b < a then b else a }

  /** `n * x`, by repeated addition. */
  function Times(n: nat, x: real): real {
    if n == 0 then 0.0 else Times(n - 1, x) + x
  }

  lemma {:induction false} TimesIsProduct(n: nat, x: real)
    ensures Times(n, x) == n as real * x
  {
    if n > 0 {
      TimesIsProduct(n - 1, x);
      OneMore(n - 1, x);
    }
  }

  lemma OneMore(n: nat, x: real)
    ensures (n + 1) as real * x == n as real * x + x
  {
    assert (n + 1) as real == n as real + 1.0;
  }

  lemma {:induction false} TimesAdds(n: nat, m: nat, x: real)
    ensures Times(n + m, x) == Times(n, x) + Times(m, x)
  {
    if m > 0 { TimesAdds(n, m - 1, x); }
  }

  lemma {:induction false} TimesMonotone(n: nat, m: nat, x: real)
    requires n <= m && 0.0 <= x
    ensures Times(n, x) <= Times(m, x)
  {
    if n < m { TimesMonotone(n, m - 1, x); }
  }

  /** `base * 2 ** n`, by doubling. */
  function Doubled(base: real, n: nat): real {
    if n == 0 then base else 2.0 * Doubled(base, n - 1)
  }

  lemma {:induction false} DoubledIsPower(base: real, n: nat)
    ensures Doubled(base, n) == Times(Pow2(n), base)
  {
    if n > 0 {
      DoubledIsPower(base, n - 1);
      TimesAdds(Pow2(n - 1), Pow2(n - 1), base);
    } else {
      assert Times(1, base) == Times(0, base) + base;
    }
  }

  function CappedDelay(attempt: nat, policy: RetryPolicy): real
    requires 1 <= attempt
  {
    Min(policy.maxDelay, Doubled(policy.baseDelay, attempt - 1))
  }

  function Fraction(cap: real, jitter: real): real { cap * jitter }

  function BackoffDelay(attempt: nat, policy: RetryPolicy, jitter: real): real
    requires 1 <= attempt
  {
    Fraction(CappedDelay(attempt, policy), jitter)
  }

  lemma CapOfProduct(cap: real, most: real, n: nat, x: real)
    requires cap == Min(most, Times(n, x))
    ensures cap == Min(most, n as real * x)
  {
    TimesIsProduct(n, x);
  }

  /** The cap is `base * 2 ** (attempt - 1)`, or the maximum delay if that is less. */
  lemma CapIs(attempt: nat, policy: RetryPolicy, power: nat)
    requires 1 <= attempt && power == Pow2(attempt - 1)
    ensures CappedDelay(attempt, policy) == Min(policy.maxDelay, power as real * policy.baseDelay)
  {
    DoubledIsPower(policy.baseDelay, attempt - 1);
    CapOfProduct(CappedDelay(attempt, policy), policy.maxDelay, power, policy.baseDelay);
  }

  /** The backoff is the jittered fraction of that cap. */
  lemma BackoffIs(attempt: nat, policy: RetryPolicy, jitter: real)
    requires 1 <= attempt
    ensures BackoffDelay(attempt, policy, jitter) == jitter * CappedDelay(attempt, policy)
  {
  }

  /** At least one call is always made, even for a limit below one. */
  function Limit(policy: RetryPolicy): nat {
    if policy.maxAttempts < 1 then 1 else policy.maxAttempts
  }

  predicate NonNegative(policy: RetryPolicy) { 0.0 <= policy.baseDelay && 0.0 <= policy.maxDelay }

  predicate IsJitter(jitter: nat -> real, n: nat) { forall i | 0 <= i < n :: 0.0 <= jitter(i) < 1.0 }

  /** The most `n` sleeps can add up to: `min(n * max, base * (2 ** n - 1))`. */
  function SleepBound(policy: RetryPolicy, n: nat): real {
    Min(Times(n, policy.maxDelay), Doubled(policy.baseDelay, n) - policy.baseDelay)
  }

  lemma NonNegativeProduct(a: real, b: real)
    requires 0.0 <= a && 0.0 <= b
    ensures 0.0 <= a * b
  {
  }

  lemma FractionOf(cap: real, jitter: real)
    requires 0.0 <= cap && 0.0 <= jitter < 1.0
    ensures 0.0 <= Fraction(cap, jitter) <= cap
  {
    NonNegativeProduct(cap, jitter);
    NonNegativeProduct(cap, 1.0 - jitter);
    assert cap * (1.0 - jitter) == cap - cap * jitter;
  }

  lemma DelayBound(attempt: nat, policy: RetryPolicy, jitter: real)
    requires 1 <= attempt && NonNegative(policy) && 0.0 <= jitter < 1.0
    ensures 0.0 <= BackoffDelay(attempt, policy, jitter) <= CappedDelay(attempt, policy)
  {
    var cap := CappedDelay(attempt, policy);
    assert 0.0 <= cap by { DoubledMonotone(policy.baseDelay, 0, attempt - 1); }
    FractionOf(cap, jitter);
  }

  lemma OneMoreSleep(policy: RetryPolicy, n: nat, slept: real, delay: real)
    requires NonNegative(policy) && slept <= SleepBound(policy, n) && delay <= CappedDelay(n + 1, policy)
    ensures slept + delay <= SleepBound(policy, n + 1)
  {
    assert Times(n + 1, policy.maxDelay) == Times(n, policy.maxDelay) + policy.maxDelay;
  }

  /** The backoff after each of the first `n` calls, added up. */
  function Slept(policy: RetryPolicy, jitter: nat -> real, n: nat): real {
    if n == 0 then 0.0 else Slept(policy, jitter, n - 1) + BackoffDelay(n, policy, jitter(n - 1))
  }

  /** How many calls are made in all, when the first `n` were retryable. */
  function CallsMade<T>(policy: RetryPolicy, sdk: nat -> SdkOutcome<T>, n: nat): (calls: nat)
    requires n < Limit(policy)
    ensures n < calls <= Limit(policy)
    decreases Limit(policy) - n
  {
    if sdk(n).Retryable() && n + 1 < Limit(policy) then CallsMade(policy, sdk, n + 1) else n + 1
  }

  lemma {:induction false} SleptWithin(policy: RetryPolicy, jitter: nat -> real, n: nat)
    requires NonNegative(policy) && IsJitter(jitter, n)
    ensures 0.0 <= Slept(policy, jitter, n) <= SleepBound(policy, n)
  {
    if n > 0 {
      SleptWithin(policy, jitter, n - 1);
      DelayBound(n, policy, jitter(n - 1));
      OneMoreSleep(policy, n - 1, Slept(policy, jitter, n - 1), BackoffDelay(n, policy, jitter(n - 1)));
    }
  }

  /** `sdk(i)` answers the i-th call and `jitter(i)` is the fraction drawn after it. A retryable
      error surfaces only after exactly the limit of calls, a permanent one at once, and what surfaces
      is what the last call did. */
  method CallWithRetry<T>(policy: RetryPolicy, sdk: nat -> SdkOutcome<T>, jitter: nat -> real)
    returns (r: SdkOutcome<T>, calls: nat, slept: real)
    requires NonNegative(policy) && IsJitter(jitter, Limit(policy))
    ensures 1 <= calls <= Limit(policy) && r == sdk(calls - 1) && calls == CallsMade(policy, sdk, 0)
    ensures forall i | 0 <= i < calls - 1 :: sdk(i).Retryable()
    ensures r.Retryable() ==> calls == Limit(policy)
    ensures forall i | 0 <= i < calls - 1 :: sdk(i) in {Threw(Throttled), Threw(Transient), Threw(Timeout)}
    ensures r in {Threw(Throttled), Threw(Transient), Threw(Timeout)} ==> calls == Limit(policy)
    ensures slept == Slept(policy, jitter, calls - 1) && 0.0 <= slept <= SleepBound(policy, calls - 1)
  {
    calls, slept := 0, 0.0;
    while true
      invariant calls < Limit(policy) && CallsMade(policy, sdk, calls) == CallsMade(policy, sdk, 0)
      invariant forall i | 0 <= i < calls :: sdk(i).Retryable()
      invariant slept == Slept(policy, jitter, calls) && 0.0 <= slept <= SleepBound(policy, calls)
      decreases Limit(policy) - calls
    {
      r := sdk(calls);
      calls := calls + 1;
      if r.Returned? || r.category == Permanent || policy.maxAttempts <= calls {
        return;
      }
      DelayBound(calls, policy, jitter(calls - 1));
      var delay := BackoffDelay(calls, policy, jitter(calls - 1));
      OneMoreSleep(policy, calls - 1, slept, delay);
      slept := slept + delay;
    }
  }

  lemma {:induction false} DoubledMonotone(base: real, n: nat, m: nat)
    requires n <= m && 0.0 <= base
    ensures base <= Doubled(base, n) <= Doubled(base, m)
  {
    if n < m {
      DoubledMonotone(base, n, m - 1);
    } else if 0 < n {
      DoubledMonotone(base, n - 1, n - 1);
    }
  }

  lemma SleepBoundMonotone(policy: RetryPolicy, n: nat, m: nat)
    requires NonNegative(policy) && n <= m
    ensures SleepBound(policy, n) <= SleepBound(policy, m)
  {
    DoubledMonotone(policy.baseDelay, n, m);
    TimesMonotone(n, m, policy.maxDelay);
  }

  /** What one candidate's adapter call used. */
  datatype Spent = Spent(calls: nat, slept: real)

  function TotalCalls(s: seq<Spent>): nat {
    if s == [] then 0 else s[0].calls + TotalCalls(s[1..])
  }

  function TotalSlept(s: seq<Spent>): real {
    if s == [] then 0.0 else s[0].slept + TotalSlept(s[1..])
  }

  lemma {:induction false} CallBudget(limit: nat, spent: seq<Spent>)
    requires forall i | 0 <= i < |spent| :: spent[i].calls <= limit
    ensures TotalCalls(spent) <= |spent| * limit
  {
    if spent != [] {
      CallBudget(limit, spent[1..]);
      assert |spent| * limit == (|spent| - 1) * limit + limit;
    }
  }

  lemma {:induction false} SleepBudget(bound: real, spent: seq<Spent>)
    requires forall i | 0 <= i < |spent| :: spent[i].slept <= bound
    ensures TotalSlept(spent) <= Times(|spent|, bound)
  {
    if spent != [] {
      SleepBudget(bound, spent[1..]);
    }
  }

  /** What `CallWithRetry` promises about one candidate. */
  ghost predicate WithinRetryLimits(policy: RetryPolicy, s: Spent) {
    1 <= s.calls <= Limit(policy) && s.slept <= SleepBound(policy, s.calls - 1)
  }

  lemma MinOfProducts(bound: real, n: nat, x: real, m: nat, y: real)
    requires bound == Min(Times(n, x), Times(m, y))
    ensures bound == Min(n as real * x, m as real * y)
  {
    TimesIsProduct(n, x);
    TimesIsProduct(m, y);
  }

  lemma SleepBoundAsTimes(policy: RetryPolicy, n: nat)
    ensures SleepBound(policy, n) == Min(Times(n, policy.maxDelay), Times(Doublings(n), policy.baseDelay))
  {
    DoubledIsPower(policy.baseDelay, n);
  }

  /** The sleep bound in the closed form `min((R - 1) * max, base * (2 ** (R - 1) - 1))`. */
  lemma SleepBoundClosedForm(policy: RetryPolicy, n: nat)
    ensures SleepBound(policy, n) == Min(n as real * policy.maxDelay, Doublings(n) as real * policy.baseDelay)
  {
    SleepBoundAsTimes(policy, n);
    MinOfProducts(SleepBound(policy, n), n, policy.maxDelay, Doublings(n), policy.baseDelay);
  }

  lemma CallsWithin(limit: nat, maximumAttempts: nat, spent: seq<Spent>)
    requires |spent| <= maximumAttempts && forall i | 0 <= i < |spent| :: spent[i].calls <= limit
    ensures TotalCalls(spent) <= maximumAttempts * limit
  {
    CallBudget(limit, spent);
    ProductMonotone(|spent|, maximumAttempts, limit);
  }

  lemma SleepsWithin(bound: real, maximumAttempts: nat, spent: seq<Spent>)
    requires |spent| <= maximumAttempts && 0.0 <= bound && forall i | 0 <= i < |spent| :: spent[i].slept <= bound
    ensures TotalSlept(spent) <= Times(maximumAttempts, bound)
  {
    SleepBudget(bound, spent);
    TimesMonotone(|spent|, maximumAttempts, bound);
  }

  lemma EachWithinBound(policy: RetryPolicy, spent: seq<Spent>)
    requires NonNegative(policy) && forall i | 0 <= i < |spent| :: WithinRetryLimits(policy, spent[i])
    ensures forall i | 0 <= i < |spent| :: spent[i].slept <= SleepBound(policy, Limit(policy) - 1)
    ensures 0.0 <= SleepBound(policy, Limit(policy) - 1)
  {
    forall i | 0 <= i < |spent| ensures spent[i].slept <= SleepBound(policy, Limit(policy) - 1) {
      SleepBoundMonotone(policy, spent[i].calls - 1, Limit(policy) - 1);
    }
    SleepBoundMonotone(policy, 0, Limit(policy) - 1);
  }

  lemma ProductMonotone(x: nat, y: nat, w: nat)
    requires x <= y
    ensures x * w <= y * w
  {
    assert 0 <= (y - x) * w == y * w - x * w;
  }
}
