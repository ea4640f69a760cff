/** Synchronous invocation with fallback (`_invoke_uncached` in
    src/application/invocation_orchestrator.py). */
module Orchestrator {
  import opened Domain
  import opened RequirementsResolution
  import opened HealthRepository
  import opened Cohorts
  import opened Catalogue
  import opened RouteEvaluation
  import opened CandidateChain
  import opened Aggregation
  import opened AttemptHistory
  import Strategy

  /** What one provider call does; `outcomes[i]` below answers the i-th call of a request. */
  datatype Outcome = Responded(response: ProviderResponse) | Errored(category: ErrorCategory)
  {
    /** Throttled, transient and timeout failures move on to the next candidate. */
    function AsLeg(alias: string, latencyMs: nat): Leg {
      match this
      case Responded(_) => Leg(Attempt(alias, Succeeded, latencyMs), false, None)
      case Errored(category) => Leg(Attempt(alias, StatusFor(category), latencyMs), !category.Permanent?, CodeFor(category))
    }
  }

  /** A provider behaviour and clock readings for a chain. */
  datatype World = World(outcomes: seq<Outcome>, latency: seq<nat>)
  {
    predicate Covers(n: nat) { n <= |outcomes| && n <= |latency| }
  }

  function Legs(chain: seq<string>, w: World): (r: seq<Leg>)
    requires w.Covers(|chain|)
    ensures |r| == |chain| && forall i | 0 <= i < |r| :: r[i] == w.outcomes[i].AsLeg(chain[i], w.latency[i])
  {
    seq(|chain|, i requires 0 <= i < |chain| && w.Covers(|chain|) => w.outcomes[i].AsLeg(chain[i], w.latency[i]))
  }

  function SucceededAlias(chain: seq<string>, w: World, n: nat): Option<string>
    requires n <= |chain| && w.Covers(n)
  {
    if 0 < n && w.outcomes[n - 1].Responded? then Some(chain[n - 1]) else None
  }

  /** The codes gathered along the way, FALLBACK_SELECTED last. */
  function ExtraCodes(legs: seq<Leg>, selected: Option<string>, n: nat): seq<ReasonCode>
    requires n <= |legs|
  {
    if 0 < n && legs[n - 1].attempt.status.Succeeded? && Some(legs[n - 1].attempt.alias) != selected
    then FailureCodes(legs, n) + [FallbackSelected]
    else FailureCodes(legs, n)
  }

  /** The codes the attempts and a successful fallback add to the decision. */
  ghost predicate Added(d: Decision, chain: seq<string>, w: World, n: nat, code: ReasonCode)
    requires n <= |chain| && w.Covers(|chain|)
  {
    var alias := SucceededAlias(chain, w, n);
    CodeAdded(Legs(chain, w), n, code) || (code.FallbackSelected? && alias.Some? && alias != d.selected)
  }

  ghost function AddedCodes(d: Decision, chain: seq<string>, w: World, n: nat): (r: set<ReasonCode>)
    requires n <= |chain| && w.Covers(|chain|)
    ensures forall code :: code in r <==> Added(d, chain, w, n, code)
  {
    set code | Added(d, chain, w, n, code)
  }

  ghost predicate IsResult(d: Decision, chain: seq<string>, w: World, r: InferenceResult)
    requires w.Covers(|chain|)
  {
    && IsHistory(Legs(chain, w), r.attempts)
    && var n := |r.attempts|;
       && r.response == (if 0 < n && w.outcomes[n - 1].Responded? then Some(w.outcomes[n - 1].response) else None)
       && Reports(d, SucceededAlias(chain, w, n), AddedCodes(d, chain, w, n), r.decision)
  }

  function HealthView(failures: Failures, degradedAfter: nat, unavailableAfter: nat): string -> HealthStatus {
    alias => if 1 <= degradedAfter < unavailableAfter then Health(failures, degradedAfter, unavailableAfter, alias) else Healthy
  }

  /** The view answers each alias from its own counter. */
  lemma ViewReadsCounters(failures: Failures, degradedAfter: nat, unavailableAfter: nat, alias: string)
    requires 1 <= degradedAfter < unavailableAfter
    ensures var h, count := HealthView(failures, degradedAfter, unavailableAfter)(alias), FailureCount(failures, alias);
            (h == Unavailable <==> unavailableAfter <= count) && (h == Healthy <==> count < degradedAfter)
  {
  }

  /** What a walk of `n` candidates leaves behind. */
  function ResultOf(d: Decision, chain: seq<string>, w: World, n: nat, attempts: seq<Attempt>, extra: seq<ReasonCode>): InferenceResult
    requires 0 < n <= |chain| && w.Covers(|chain|)
    requires forall alias | alias in chain :: Strategy.Find(d.candidates, alias).Some?
  {
    var outcome := w.outcomes[n - 1];
    InferenceResult(
      Aggregate(d, SucceededAlias(chain, w, n), extra),
      if outcome.Responded? then Some(outcome.response) else None,
      attempts)
  }

  lemma WalkYieldsResult(d: Decision, chain: seq<string>, w: World, n: nat)
    requires w.Covers(|chain|) && 0 < n && StopsAfter(Legs(chain, w), n)
    requires forall alias | alias in chain :: Strategy.Find(d.candidates, alias).Some?
    ensures var r := ResultOf(d, chain, w, n, Attempts(Legs(chain, w), n), ExtraCodes(Legs(chain, w), d.selected, n));
            IsResult(d, chain, w, r) && |r.attempts| == n
  {
    WalkIsHistory(Legs(chain, w), n);
    FailureCodesAreAdded(Legs(chain, w), n);
    AggregateReports(d, SucceededAlias(chain, w, n), ExtraCodes(Legs(chain, w), d.selected, n),
                     AddedCodes(d, chain, w, n));
  }

  /** Every attempted alias is a considered candidate, so the final lookup never raises. */
  lemma ChainMembersFound(d: Decision, fallback: FallbackPolicy)
    requires WellFormed(d) && 1 <= fallback.maximumAttempts
    ensures forall alias | alias in Chain(d, fallback) :: Strategy.Find(d.candidates, alias).Some?
    ensures |Chain(d, fallback)| <= fallback.maximumAttempts
  {
    ChainProperties(d, fallback);
    forall alias | alias in Chain(d, fallback) ensures Strategy.Find(d.candidates, alias).Some? {
      var c :| c in d.candidates && c.eligible && c.alias == alias;
    }
  }

  class InvocationOrchestrator {
    const health: InMemoryModelHealthRepository
    /** Results persisted, measured and published, oldest first. */
    var finalised: seq<InferenceResult>
    /** Requests handed to the provider, oldest first. */
    var sent: seq<ProviderRequest>

    constructor (health: InMemoryModelHealthRepository)
      ensures this.health == health && finalised == [] && sent == []
    {
      this.health := health;
      finalised, sent := [], [];
    }

    /** The attempt loop over what each candidate would do; `n` candidates were attempted. */
    method Walk(chain: seq<string>, legs: seq<Leg>, request: Request, req: EffectiveRequirements, selected: Option<string>)
      returns (attempts: seq<Attempt>, extra: seq<ReasonCode>, requests: seq<ProviderRequest>, n: nat)
      requires |legs| == |chain| && forall i | 0 <= i < |legs| :: legs[i].attempt.status.Succeeded? ==> !legs[i].movesOn
      modifies health
      ensures StopsAfter(legs, n) && attempts == Attempts(legs, n)
      ensures extra == ExtraCodes(legs, selected, n)
      ensures requests == Requests(chain, n, request, req)
      ensures health.failures == HealthAfter(old(health.failures), legs, n)
    {
      attempts, extra, requests, n := [], [], [], 0;
      while n < |chain|
        invariant n <= |chain| && attempts == Attempts(legs, n) && AllMovedOn(legs, n)
        invariant extra == FailureCodes(legs, n)
        invariant requests == Requests(chain, n, request, req)
        invariant health.failures == HealthAfter(old(health.failures), legs, n)
      {
        requests := requests + [RequestFor(chain[n], request, req)];
        var leg := legs[n];
        attempts := attempts + [leg.attempt];
        health.RecordOutcome(leg.attempt.alias, leg.attempt.status);
        n := n + 1;
        if leg.code.Some? {
          extra := extra + [leg.code.value];
        }
        if leg.attempt.status == Succeeded {
          if Some(leg.attempt.alias) != selected {
            extra := extra + [FallbackSelected];
          }
          return;
        }
        if !leg.movesOn {
          return;
        }
      }
    }

    /** The attempts and the aggregated result for a non-empty chain. */
    method InvokeChain(d: Decision, chain: seq<string>, request: Request, req: EffectiveRequirements, w: World)
      returns (r: InferenceResult)
      requires w.Covers(|chain|)
      requires chain != [] && forall alias | alias in chain :: Strategy.Find(d.candidates, alias).Some?
      modifies this, health
      ensures IsResult(d, chain, w, r)
      ensures health.failures == RecordedAll(old(health.failures), r.attempts)
      ensures sent == old(sent) + Requests(chain, |r.attempts|, request, req)
      ensures finalised == old(finalised) + [r]
    {
      var attempts, extra, requests, n := Walk(chain, Legs(chain, w), request, req, d.selected);
      sent := sent + requests;
      HealthFollowsHistory(old(health.failures), Legs(chain, w), n);
      WalkYieldsResult(d, chain, w, n);
      r := ResultOf(d, chain, w, n, attempts, extra);
      finalised := finalised + [r];
    }

    /** The whole of a request: `w` is any behaviour of the provider and of the clock, long enough for
        the attempts the policy allows. */
    method InvokeUncached(id: string, request: Request, policy: Policy, catalogue: Catalogue, hash: nat, w: World)
      returns (r: InferenceResult)
      requires policy.Valid() && hash <= HASH_SPACE && health.Valid() && w.Covers(policy.fallback.maximumAttempts)
      modifies this, health
      ensures var view := HealthView(old(health.failures), health.degradedAfter, health.unavailableAfter);
              var d := Evaluate(id, request, policy, catalogue, view, hash);
              var chain := Chain(d, policy.fallback);
              && w.Covers(|chain|) && |r.attempts| <= |chain|
              && (chain == [] ==> r == InferenceResult(d, None, []))
              && (chain != [] ==> IsResult(d, chain, w, r))
              && sent == old(sent) + Requests(chain, |r.attempts|, request, ResolveEffective(request.requirements, policy))
      ensures health.failures == RecordedAll(old(health.failures), r.attempts)
      ensures finalised == old(finalised) + [r]
    {
      var view := HealthView(health.failures, health.degradedAfter, health.unavailableAfter);
      var d := Evaluate(id, request, policy, catalogue, view, hash);
      EvaluationWellFormed(id, request, policy, catalogue, view, hash);
      var chain := BuildCandidateChain(d, policy.fallback);
      ChainMembersFound(d, policy.fallback);
      if chain == [] {
        r := InferenceResult(d, None, []);
        finalised := finalised + [r];
        return;
      }
      var req := ResolveEffective(request.requirements, policy);
      r := InvokeChain(d, chain, request, req, w);
    }
  }

  /** The failure counter closed into the loop: a request evaluated while a model is UNAVAILABLE never
      attempts it, whatever the provider does, and leaves its counter as it was. */
  lemma UnavailableIsAbsorbing(id: string, request: Request, policy: Policy, catalogue: Catalogue, failures: Failures,
                               degradedAfter: nat, unavailableAfter: nat, hash: nat, attempts: seq<Attempt>, alias: string)
    requires policy.Valid() && hash <= HASH_SPACE && Loaded(catalogue) && 1 <= degradedAfter < unavailableAfter
    requires var view := HealthView(failures, degradedAfter, unavailableAfter);
             var chain := Chain(Evaluate(id, request, policy, catalogue, view, hash), policy.fallback);
             |attempts| <= |chain| && forall i | 0 <= i < |attempts| :: attempts[i].alias == chain[i]
    requires unavailableAfter <= FailureCount(failures, alias)
    ensures forall i | 0 <= i < |attempts| :: attempts[i].alias != alias
    ensures FailureCount(RecordedAll(failures, attempts), alias) == FailureCount(failures, alias)
  {
    var view := HealthView(failures, degradedAfter, unavailableAfter);
    forall i | 0 <= i < |attempts| ensures attempts[i].alias != alias {
      var m := ChainIsGoverned(id, request, policy, catalogue, view, hash, attempts[i].alias);
    }
    OthersKeepCount(failures, attempts, alias);
  }

  /** Each attempt names its candidate, carries its latency, and its status says what the call did. */
  lemma StatusesFollowOutcomes(d: Decision, chain: seq<string>, w: World, r: InferenceResult, i: nat)
    requires w.Covers(|chain|) && IsResult(d, chain, w, r) && i < |r.attempts|
    ensures i < |chain| && r.attempts[i].alias == chain[i] && r.attempts[i].latencyMs == w.latency[i]
    ensures r.attempts[i].status == Succeeded <==> w.outcomes[i].Responded?
    ensures r.attempts[i].status == ThrottledCall <==> w.outcomes[i] == Errored(Throttled)
    ensures r.attempts[i].status == TransientError <==> w.outcomes[i] == Errored(Transient)
    ensures r.attempts[i].status == TimedOut <==> w.outcomes[i] == Errored(Timeout)
    ensures r.attempts[i].status == NonRetryableError <==> w.outcomes[i] == Errored(Permanent)
  {
    assert r.attempts[i] == Legs(chain, w)[i].attempt;
  }

  lemma CodeOfLeg(chain: seq<string>, w: World, i: nat)
    requires w.Covers(|chain|) && i < |chain|
    ensures Legs(chain, w)[i].code == Some(ModelThrottled) <==> w.outcomes[i] == Errored(Throttled)
    ensures Legs(chain, w)[i].code == Some(ModelUnavailable) <==> w.outcomes[i] in {Errored(Transient), Errored(Timeout)}
    ensures Legs(chain, w)[i].code in {None, Some(ModelThrottled), Some(ModelUnavailable)}
  {
  }

  /** Some attempt ended with one of these statuses. */
  ghost predicate Attempted(r: InferenceResult, statuses: set<AttemptStatus>) {
    exists i | 0 <= i < |r.attempts| :: r.attempts[i].status in statuses
  }

  /** The codes of failed attempts, told by the attempts' statuses; every other code is the evaluation's. */
  lemma CodesFollowStatuses(d: Decision, chain: seq<string>, w: World, r: InferenceResult)
    requires w.Covers(|chain|) && WellFormed(d) && chain != [] && IsResult(d, chain, w, r)
    ensures ModelThrottled in r.decision.reasonCodes <==> Attempted(r, {ThrottledCall})
    ensures ModelUnavailable in r.decision.reasonCodes <==> Attempted(r, {TransientError, TimedOut})
    ensures forall code | code !in {ModelThrottled, ModelUnavailable, FallbackSelected, NoEligibleModel} ::
              code in r.decision.reasonCodes <==> code in d.reasonCodes
  {
    var n, legs := |r.attempts|, Legs(chain, w);
    forall i | 0 <= i < n
      ensures legs[i].code == Some(ModelThrottled) <==> r.attempts[i].status in {ThrottledCall}
      ensures legs[i].code == Some(ModelUnavailable) <==> r.attempts[i].status in {TransientError, TimedOut}
      ensures legs[i].code in {None, Some(ModelThrottled), Some(ModelUnavailable)}
    {
      StatusesFollowOutcomes(d, chain, w, r, i);
      CodeOfLeg(chain, w, i);
    }
    CodesAdded(d, chain, w, r);
  }

  lemma CodesAdded(d: Decision, chain: seq<string>, w: World, r: InferenceResult)
    requires w.Covers(|chain|) && WellFormed(d) && IsResult(d, chain, w, r)
    ensures forall code | code in {ModelThrottled, ModelUnavailable} ::
              code in r.decision.reasonCodes <==> CodeAdded(Legs(chain, w), |r.attempts|, code)
    ensures forall code: ReasonCode | !code.FallbackSelected? && !code.NoEligibleModel? ::
              code in r.decision.reasonCodes <==> code in d.reasonCodes || CodeAdded(Legs(chain, w), |r.attempts|, code)
  {
  }

  /** The attempts are an in-order prefix of the chain; all but the last were throttled, transient or
      timed out; and the whole chain is tried unless a success or a permanent error ends it. */
  lemma HistoryShape(d: Decision, chain: seq<string>, w: World, r: InferenceResult)
    requires w.Covers(|chain|) && chain != [] && IsResult(d, chain, w, r)
    ensures 0 < |r.attempts| <= |chain| && forall i | 0 <= i < |r.attempts| :: r.attempts[i].alias == chain[i]
    ensures forall i | 0 <= i < |r.attempts| - 1 :: r.attempts[i].status in {ThrottledCall, TransientError, TimedOut}
    ensures |r.attempts| < |chain| ==> r.attempts[|r.attempts| - 1].status in {Succeeded, NonRetryableError}
  {
  }

  /** A selected alias, a response and a last status of SUCCEEDED are the same event, and
      FALLBACK_SELECTED is reported exactly when a fallback answered. */
  lemma ResultConsistent(d: Decision, chain: seq<string>, w: World, r: InferenceResult)
    requires w.Covers(|chain|) && WellFormed(d) && chain != [] && IsResult(d, chain, w, r)
    ensures r.decision.selected.Some? <==> r.response.Some?
    ensures r.response.Some? <==> r.attempts[|r.attempts| - 1].status.Succeeded?
    ensures r.decision.selected.Some? ==> r.decision.selected.value == r.attempts[|r.attempts| - 1].alias
    ensures FallbackSelected in r.decision.reasonCodes <==> r.decision.fallbackUsed
    ensures NoEligibleModel !in r.decision.reasonCodes
  {
  }
}
