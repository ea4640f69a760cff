/** The retry loop under the fallback loop: what one logical request spends, for the chain the
    orchestrator walks. */
module RequestBudget {
  import opened Domain
  import opened RouteEvaluation
  import opened CandidateChain
  import opened StreamMappers
  import Orchestrator
  import opened Retry

  /** How the SDK answers the calls made for one candidate, and the jitter drawn after each. */
  datatype Behaviour = Behaviour(sdk: nat -> SdkOutcome<Parsed>, jitter: nat -> real)

  function OutcomeOf(parsed: Parsed): Orchestrator.Outcome {
    match parsed
    case Ok(response) => Orchestrator.Responded(response)
    case Malformed(category) => Orchestrator.Errored(category)
  }

  /** What the adapter's call for one candidate amounts to: the last SDK answer, parsed. */
  function Surfaced(policy: RetryPolicy, b: Behaviour): Orchestrator.Outcome {
    match b.sdk(CallsMade(policy, b.sdk, 0) - 1)
    case Returned(parsed) => OutcomeOf(parsed)
    case Threw(category) => Orchestrator.Errored(category)
  }

  /** The provider behaviour the orchestrator meets over a list of candidates. */
  function WorldOf(policy: RetryPolicy, behaviours: seq<Behaviour>, latency: seq<nat>): (w: Orchestrator.World)
    ensures |w.outcomes| == |behaviours| && w.latency == latency
    ensures forall i | 0 <= i < |behaviours| :: w.outcomes[i] == Surfaced(policy, behaviours[i])
  {
    Orchestrator.World(seq(|behaviours|, i requires 0 <= i < |behaviours| => Surfaced(policy, behaviours[i])), latency)
  }

  function SpentOn(policy: RetryPolicy, b: Behaviour): Spent {
    var calls := CallsMade(policy, b.sdk, 0);
    Spent(calls, Slept(policy, b.jitter, calls - 1))
  }

  /** What the first `n` candidates cost. */
  function SpentBy(policy: RetryPolicy, behaviours: seq<Behaviour>, n: nat): (r: seq<Spent>)
    requires n <= |behaviours|
    ensures |r| == n && forall i | 0 <= i < n :: r[i] == SpentOn(policy, behaviours[i])
  {
    seq(n, i requires 0 <= i < n <= |behaviours| => SpentOn(policy, behaviours[i]))
  }

  ghost predicate Jittered(policy: RetryPolicy, behaviours: seq<Behaviour>) {
    forall i | 0 <= i < |behaviours| :: IsJitter(behaviours[i].jitter, Limit(policy))
  }

  lemma SpentWithinLimits(policy: RetryPolicy, b: Behaviour)
    requires NonNegative(policy) && IsJitter(b.jitter, Limit(policy))
    ensures WithinRetryLimits(policy, SpentOn(policy, b))
  {
    SleptWithin(policy, b.jitter, CallsMade(policy, b.sdk, 0) - 1);
  }

  /** The adapter loop does what `Surfaced` and `SpentOn` say. */
  method InvokeAdapter(policy: RetryPolicy, b: Behaviour) returns (outcome: Orchestrator.Outcome, spent: Spent)
    requires NonNegative(policy) && IsJitter(b.jitter, Limit(policy))
    ensures outcome == Surfaced(policy, b) && spent == SpentOn(policy, b)
  {
    var r, calls, slept := CallWithRetry(policy, b.sdk, b.jitter);
    spent := Spent(calls, slept);
    match r
    case Returned(Ok(response)) => outcome := Orchestrator.Responded(response);
    case Returned(Malformed(category)) => outcome := Orchestrator.Errored(category);
    case Threw(category) => outcome := Orchestrator.Errored(category);
  }

  lemma EachCandidateWithinLimits(policy: RetryPolicy, behaviours: seq<Behaviour>, n: nat)
    requires NonNegative(policy) && Jittered(policy, behaviours) && n <= |behaviours|
    ensures forall i | 0 <= i < n :: WithinRetryLimits(policy, SpentBy(policy, behaviours, n)[i])
  {
    forall i | 0 <= i < n ensures WithinRetryLimits(policy, SpentBy(policy, behaviours, n)[i]) {
      SpentWithinLimits(policy, behaviours[i]);
    }
  }

  /** Any `n` candidates of the chain, tried in either form, cost at most `maximum_attempts * R` SDK calls
      and `maximum_attempts` times the sleep bound of one retry loop, whatever the SDK answers. */
  lemma ChainBudget(policy: RetryPolicy, d: Decision, fallback: FallbackPolicy, behaviours: seq<Behaviour>, n: nat)
    requires NonNegative(policy) && Jittered(policy, behaviours)
    requires WellFormed(d) && 1 <= fallback.maximumAttempts && n <= |Chain(d, fallback)| && n <= |behaviours|
    ensures var spent := SpentBy(policy, behaviours, n);
            && TotalCalls(spent) <= fallback.maximumAttempts * Limit(policy)
            && TotalSlept(spent) <= Times(fallback.maximumAttempts, SleepBound(policy, Limit(policy) - 1))
  {
    ChainProperties(d, fallback);
    EachCandidateWithinLimits(policy, behaviours, n);
    var spent := SpentBy(policy, behaviours, n);
    CallsWithin(Limit(policy), fallback.maximumAttempts, spent);
    EachWithinBound(policy, spent);
    SleepsWithin(SleepBound(policy, Limit(policy) - 1), fallback.maximumAttempts, spent);
  }

  /** The budget of one logical request: the candidates its result attempted, when the provider behaves
      as the retry loops surface it. */
  lemma RequestWithinBudget(policy: RetryPolicy, d: Decision, fallback: FallbackPolicy, behaviours: seq<Behaviour>,
                            latency: seq<nat>, r: InferenceResult)
    requires NonNegative(policy) && Jittered(policy, behaviours)
    requires WellFormed(d) && 1 <= fallback.maximumAttempts
    requires WorldOf(policy, behaviours, latency).Covers(|Chain(d, fallback)|)
    requires Orchestrator.IsResult(d, Chain(d, fallback), WorldOf(policy, behaviours, latency), r)
    ensures |r.attempts| <= |behaviours|
    ensures var spent := SpentBy(policy, behaviours, |r.attempts|);
            && TotalCalls(spent) <= fallback.maximumAttempts * Limit(policy)
            && TotalSlept(spent) <= Times(fallback.maximumAttempts, SleepBound(policy, Limit(policy) - 1))
  {
    ChainBudget(policy, d, fallback, behaviours, |r.attempts|);
  }
}
