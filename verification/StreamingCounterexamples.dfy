/** Requests on which the streaming form and the synchronous form, or the fallback code and the fallback
    flag, part ways. */
module StreamingCounterexamples {
  import opened Domain
  import opened RequirementsResolution
  import opened HealthRepository
  import opened Cohorts
  import opened Catalogue
  import opened RouteEvaluation
  import opened CandidateChain
  import opened AttemptHistory
  import opened SampleInputs
  import Orchestrator
  import opened Streaming
  import opened StreamingRuns
  import opened StreamingInvocation

  // ---- An empty chain ----

  ghost predicate AllDown(models: seq<Model>, health: string -> HealthStatus) {
    forall m | m in models :: health(m.alias).Unavailable?
  }

  lemma {:induction false} NoneLeft(candidates: seq<Candidate>)
    requires forall c | c in candidates :: !c.eligible
    ensures EligibleOnly(candidates) == []
  {
    if candidates != [] { NoneLeft(candidates[1..]); }
  }

  lemma NoneEligible(models: seq<Model>, req: EffectiveRequirements, policy: Policy, messages: seq<Message>,
                     health: string -> HealthStatus)
    requires AllDown(models, health)
    ensures EligibleOnly(Candidates(models, req, policy, messages, health)) == []
  {
    var candidates := Candidates(models, req, policy, messages, health);
    forall i | 0 <= i < |candidates| ensures !candidates[i].eligible {
      assert models[i] in models;
    }
    NoneLeft(candidates);
  }

  lemma {:induction false} NoPicks(aliases: seq<string>, selected: Option<string>)
    ensures Picks(aliases, {}, selected) == []
    decreases |aliases|
  {
    if aliases != [] { NoPicks(aliases[..|aliases| - 1], selected); }
  }

  lemma NoneEligibleEmptiesChain(d: Decision, fallback: FallbackPolicy)
    requires d.selected.None? && forall c | c in d.candidates :: !c.eligible
    ensures Chain(d, fallback) == []
  {
    assert EligibleAliases(d.candidates) == {};
    NoPicks(fallback.aliases, d.selected);
  }

  /** While every model that declares it is UNAVAILABLE, an allowed, catalogued capability evaluates to
      NO_ELIGIBLE_MODEL and an empty chain. */
  lemma AllDownEmptiesChain(id: string, request: Request, policy: Policy, catalogue: Catalogue,
                            health: string -> HealthStatus, hash: nat)
    requires policy.ExperimentValid() && hash <= HASH_SPACE
    requires request.requirements.capability in policy.allowedCapabilities
    requires catalogue.FindByCapability(request.requirements.capability) != []
    requires AllDown(catalogue.FindByCapability(request.requirements.capability), health)
    ensures var d := Evaluate(id, request, policy, catalogue, health, hash);
            d.reasonCodes == [NoEligibleModel] && Chain(d, policy.fallback) == []
  {
    var req := ResolveEffective(request.requirements, policy);
    var models := catalogue.FindByCapability(req.capability);
    NoneEligible(models, req, policy, request.messages, health);
    var d := Evaluate(id, request, policy, catalogue, health, hash);
    forall c | c in d.candidates ensures !c.eligible {
      assert c.eligible ==> c in EligibleOnly(d.candidates);
    }
    NoneEligibleEmptiesChain(d, policy.fallback);
  }

  /** The streaming form finalises an empty chain differently exactly when evaluation found no eligible model. */
  lemma EmptyChainDiffersIff(plan: Plan, fallback: FallbackPolicy)
    requires plan.chain == Chain(plan.decision, fallback) == [] && WellFormed(plan.decision)
    ensures plan.Known() && |FirstMove(plan).next.finalised| == 1
    ensures FirstMove(plan).next.finalised[0] != InferenceResult(plan.decision, None, [])
            <==> NoEligibleModel in plan.decision.reasonCodes
  {
    FirstMovePulls(plan);
    EmptyChainFormsAgreeIff(plan, fallback, FirstMove(plan).next.finalised[0]);
  }

  /** An unselected decision reports NO_ELIGIBLE_MODEL exactly when there were models to consider. */
  lemma UnselectedBecause(id: string, request: Request, policy: Policy, catalogue: Catalogue,
                          health: string -> HealthStatus, hash: nat)
    requires policy.ExperimentValid() && hash <= HASH_SPACE
    requires Evaluate(id, request, policy, catalogue, health, hash).selected.None?
    ensures NoEligibleModel in Evaluate(id, request, policy, catalogue, health, hash).reasonCodes
            <==> request.requirements.capability in policy.allowedCapabilities
                 && catalogue.FindByCapability(request.requirements.capability) != []
  {
  }

  /** Whatever emptied the chain (health, cost, tokens, tier or allowlist), the two forms return different
      results if and only if the capability is allowed and some model declares it. */
  lemma EmptyChainFormsDifferIff(id: string, request: Request, policy: Policy, catalogue: Catalogue,
                                 health: string -> HealthStatus, hash: nat)
    requires policy.ExperimentValid() && hash <= HASH_SPACE
    requires Chain(Evaluate(id, request, policy, catalogue, health, hash), policy.fallback) == []
    ensures var plan := PlanFor(id, request, policy, catalogue, health, hash, [], []);
            && plan.Known() && |FirstMove(plan).next.finalised| == 1
            && (FirstMove(plan).next.finalised[0] != InferenceResult(plan.decision, None, [])
                <==> request.requirements.capability in policy.allowedCapabilities
                     && catalogue.FindByCapability(request.requirements.capability) != [])
  {
    var plan := PlanFor(id, request, policy, catalogue, health, hash, [], []);
    EvaluationWellFormed(id, request, policy, catalogue, health, hash);
    EmptyChainDiffersIff(plan, policy.fallback);
    UnselectedBecause(id, request, policy, catalogue, health, hash);
  }

  /** A valid policy, a loaded catalogue and recorded failures for which this happens. */
  lemma EmptyChainExample(tag: string, alias: string)
    returns (request: Request, policy: Policy, catalogue: Catalogue, failures: Failures)
    ensures policy.Valid() && Loaded(catalogue) && request.requirements.Valid()
    ensures request.requirements.capability in policy.allowedCapabilities
    ensures catalogue.FindByCapability(request.requirements.capability) != []
    ensures AllDown(catalogue.FindByCapability(request.requirements.capability), Orchestrator.HealthView(failures, 3, 5))
  {
    request, policy, catalogue := RequestOf(tag), PolicyFor(alias, [], tag), CatalogueOf(alias, [], tag);
    failures := map[alias := 5];
    PolicyIsValid(alias, [], tag);
    CatalogueIsLoaded(alias, [], tag);
  }

  // ---- A fallback that breaks midway ----

  /** The first candidate fails retryably to start, the second is not the selected one and breaks midway. */
  predicate BreaksAtFallback(plan: Plan) {
    && plan.Covered() && 2 <= |plan.chain| && Some(plan.chain[1]) != plan.decision.selected
    && plan.streams[0].FailsToStart? && !plan.streams[0].category.Permanent?
    && plan.streams[1].Streams? && plan.streams[1].end.Breaks?
  }

  lemma WalkEndsAtFallback(plan: Plan)
    requires BreaksAtFallback(plan)
    ensures Stop(plan.Legs()) == 2
  {
    var legs := plan.Legs();
    assert legs[0].movesOn && !legs[1].movesOn;
    assert AllMovedOn(legs, 0);
    assert AllMovedOn(legs, 1);
    StopUnique(legs, 2);
  }

  /** Then FALLBACK_SELECTED is reported although no fallback was used. */
  lemma BrokenFallbackIsMarked(plan: Plan, streamed: InferenceResult)
    requires BreaksAtFallback(plan) && WellFormed(plan.decision) && IsResult(plan, streamed)
    ensures FallbackSelected in streamed.decision.reasonCodes && !streamed.decision.fallbackUsed
  {
    WalkEndsAtFallback(plan);
    FallbackMarkAgreesIff(plan, streamed);
    HistoryLength(plan.Legs(), streamed.attempts);
  }

  /** The second alias of a chain is never the selected one. */
  lemma SecondIsFallback(d: Decision, fallback: FallbackPolicy)
    requires WellFormed(d) && 1 <= fallback.maximumAttempts && 2 <= |Chain(d, fallback)|
    ensures Some(Chain(d, fallback)[1]) != d.selected
  {
    ChainProperties(d, fallback);
  }

  /** Every evaluated request with a fallback to break: the first stream fails retryably to start, the second
      breaks midway, and the published result carries the code without the flag. */
  lemma BrokenFallbackSplitsMark(id: string, request: Request, policy: Policy, catalogue: Catalogue,
                                 health: string -> HealthStatus, hash: nat, streams: seq<Stream>, latency: seq<nat>)
    returns (pulls: nat)
    requires policy.Valid() && hash <= HASH_SPACE
    requires policy.fallback.maximumAttempts <= |streams| && policy.fallback.maximumAttempts <= |latency|
    requires 2 <= |Chain(Evaluate(id, request, policy, catalogue, health, hash), policy.fallback)| && 2 <= |streams|
    requires streams[0].FailsToStart? && !streams[0].category.Permanent? && streams[1].Streams? && streams[1].end.Breaks?
    ensures var plan := PlanFor(id, request, policy, catalogue, health, hash, streams, latency);
            && plan.Known() && |After(plan, pulls).finalised| == 1
            && var final := After(plan, pulls).finalised[0].decision;
               FallbackSelected in final.reasonCodes && !final.fallbackUsed
  {
    var plan := PlanFor(id, request, policy, catalogue, health, hash, streams, latency);
    EvaluatedPlanIsKnown(id, request, policy, catalogue, health, hash, streams, latency);
    EvaluationWellFormed(id, request, policy, catalogue, health, hash);
    SecondIsFallback(plan.decision, policy.fallback);
    pulls := RunEnds(plan);
    BrokenFallbackIsMarked(plan, After(plan, pulls).finalised[0]);
  }

  /** A valid policy and a loaded catalogue whose evaluated chain, with no failure recorded, has such a fallback. */
  lemma BrokenFallbackExample(tag: string, first: string, second: string)
    requires first != second
    ensures PolicyFor(first, [second], tag).Valid() && Loaded(CatalogueOf(first, [second], tag))
    ensures var view := Orchestrator.HealthView(map[], 3, 5);
            Chain(Evaluated(first, [second], tag, view), PolicyFor(first, [second], tag).fallback) == [first] + [second]
  {
    PolicyIsValid(first, [second], tag);
    CatalogueIsLoaded(first, [second], tag);
    AllUsableChain(first, [second], tag, Orchestrator.HealthView(map[], 3, 5));
  }
}
