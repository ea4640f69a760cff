/** Candidate filtering (src/domain/filtering.py). */
module Filtering {
  import opened Domain
  import opened ReasonCodes
  import opened CostEstimation
  import opened RequirementsResolution

  predicate CapabilityMatched(m: Model, req: EffectiveRequirements) {
    && req.capability in m.capabilities.tags
    && (req.requiresToolUse ==> m.capabilities.supportsToolUse)
    && (req.requiresStructuredOutput ==> m.capabilities.supportsStructuredOutput)
  }

  function UsageFor(req: EffectiveRequirements, messages: seq<Message>): Usage {
    EstimateUsage(messages, req.maximumOutputTokens, CHARS_PER_TOKEN)
  }

  predicate WithinTokenLimits(m: Model, usage: Usage) {
    usage.inputTokens <= m.capabilities.maxInputTokens && usage.outputTokens <= m.capabilities.maxOutputTokens
  }

  /** What one evaluation establishes about a model, dimension by dimension. */
  datatype Findings = Findings(
    health: HealthStatus,
    capabilityMatched: bool,
    allowed: bool,
    tierMatched: bool,
    withinTokens: bool,
    withinCost: bool)
  {
    predicate AllPassed() {
      !health.Unavailable? && capabilityMatched && allowed && tierMatched && withinTokens && withinCost
    }

    /** The codes that explain these findings. */
    predicate Explain(code: ReasonCode) {
      match code
      case ModelUnhealthy => health.Unavailable?
      case ModelDegraded => health.Degraded?
      case CapabilityMatch => capabilityMatched
      case ModelAllowed => allowed
      case ModelNotAllowed => !allowed
      case QualityTierMatch => tierMatched
      case TokenLimitExceeded => !withinTokens
      case WithinCostLimit => withinCost
      case CostLimitExceeded => !withinCost
      case _ => false
    }
  }

  function FindingsFor(m: Model, req: EffectiveRequirements, policy: Policy, messages: seq<Message>,
                       health: HealthStatus): Findings
  {
    var usage := UsageFor(req, messages);
    Findings(health, CapabilityMatched(m, req), m.alias in policy.allowedAliases,
             m.capabilities.qualityTier == req.qualityTier, WithinTokenLimits(m, usage),
             EstimateCost(usage, m.pricing) <= req.maximumCost)
  }

  /** The codes in the order the filter appends them. */
  function Appended(f: Findings): seq<ReasonCode> {
    var a := if f.health.Unavailable? then [] + [ModelUnhealthy] else if f.health.Degraded? then [] + [ModelDegraded] else [];
    var b := if f.capabilityMatched then a + [CapabilityMatch] else a;
    var c := if f.allowed then b + [ModelAllowed] else b + [ModelNotAllowed];
    var d := if f.tierMatched then c + [QualityTierMatch] else c;
    var e := if f.withinTokens then d else d + [TokenLimitExceeded];
    if f.withinCost then e + [WithinCostLimit] else e + [CostLimitExceeded]
  }

  /** Exactly the explaining codes, in canonical order. */
  function Explanation(f: Findings): (r: seq<ReasonCode>)
    ensures Ascending(r) && forall c :: c in r <==> f.Explain(c)
  {
    assert forall c :: c in Appended(f) <==> f.Explain(c);
    SortReasonCodes(Appended(f))
  }

  /** The candidate a model becomes: eligible exactly when every dimension passed, fully explained. */
  function CandidateFor(m: Model, req: EffectiveRequirements, policy: Policy, messages: seq<Message>,
                        health: HealthStatus): Candidate
  {
    var usage := UsageFor(req, messages);
    var f := FindingsFor(m, req, policy, messages, health);
    Candidate(m.alias, m.provider, f.AllPassed(), Explanation(f), usage, EstimateCost(usage, m.pricing))
  }

  /** The filter as written: one pass over the dimensions, appending codes and clearing a flag. */
  method EvaluateCandidate(m: Model, req: EffectiveRequirements, policy: Policy, messages: seq<Message>,
                           health: HealthStatus) returns (c: Candidate)
    ensures c == CandidateFor(m, req, policy, messages, health)
  {
    ghost var f := FindingsFor(m, req, policy, messages, health);
    var codes: seq<ReasonCode>, eligible := [], true;
    if health == Unavailable {
      codes := codes + [ModelUnhealthy];
      eligible := false;
    } else if health == Degraded {
      codes := codes + [ModelDegraded];
    }
    if CapabilityMatched(m, req) {
      codes := codes + [CapabilityMatch];
    } else {
      eligible := false;
    }
    if m.alias in policy.allowedAliases {
      codes := codes + [ModelAllowed];
    } else {
      codes := codes + [ModelNotAllowed];
      eligible := false;
    }
    if m.capabilities.qualityTier == req.qualityTier {
      codes := codes + [QualityTierMatch];
    } else {
      eligible := false;
    }
    var usage := UsageFor(req, messages);
    if m.capabilities.maxInputTokens < usage.inputTokens || m.capabilities.maxOutputTokens < usage.outputTokens {
      codes := codes + [TokenLimitExceeded];
      eligible := false;
    }
    var cost := EstimateCost(usage, m.pricing);
    if cost <= req.maximumCost {
      codes := codes + [WithinCostLimit];
    } else {
      codes := codes + [CostLimitExceeded];
      eligible := false;
    }
    assert codes == Appended(f);
    c := Candidate(m.alias, m.provider, eligible, SortReasonCodes(codes), usage, cost);
  }

  /** Everything the policy, the request and the model's state of health ask of a model. */
  predicate Suits(m: Model, req: EffectiveRequirements, policy: Policy, messages: seq<Message>, health: HealthStatus) {
    var usage := EstimateUsage(messages, req.maximumOutputTokens, 4);
    && health != Unavailable
    && req.capability in m.capabilities.tags
    && (req.requiresToolUse ==> m.capabilities.supportsToolUse)
    && (req.requiresStructuredOutput ==> m.capabilities.supportsStructuredOutput)
    && m.alias in policy.allowedAliases
    && m.capabilities.qualityTier == req.qualityTier
    && usage.inputTokens <= m.capabilities.maxInputTokens && usage.outputTokens <= m.capabilities.maxOutputTokens
    && EstimateCost(usage, m.pricing) <= req.maximumCost
  }

  /** Eligible if and only if nothing is missing: no model that meets every need is refused. */
  lemma EligibleIffSuits(m: Model, req: EffectiveRequirements, policy: Policy, messages: seq<Message>, health: HealthStatus)
    ensures CandidateFor(m, req, policy, messages, health).eligible <==> Suits(m, req, policy, messages, health)
  {
  }

  /** Each code the filter can give, told by what it says of the model; it gives no other. */
  lemma CodesTell(m: Model, req: EffectiveRequirements, policy: Policy, messages: seq<Message>, health: HealthStatus)
    ensures var codes := CandidateFor(m, req, policy, messages, health).reasonCodes;
            var usage := EstimateUsage(messages, req.maximumOutputTokens, 4);
            && (ModelUnhealthy in codes <==> health == Unavailable)
            && (ModelDegraded in codes <==> health == Degraded)
            && (CapabilityMatch in codes <==>
                  && req.capability in m.capabilities.tags
                  && (req.requiresToolUse ==> m.capabilities.supportsToolUse)
                  && (req.requiresStructuredOutput ==> m.capabilities.supportsStructuredOutput))
            && (ModelAllowed in codes <==> m.alias in policy.allowedAliases)
            && (ModelNotAllowed in codes <==> m.alias !in policy.allowedAliases)
            && (QualityTierMatch in codes <==> m.capabilities.qualityTier == req.qualityTier)
            && (TokenLimitExceeded in codes <==>
                  usage.inputTokens > m.capabilities.maxInputTokens || usage.outputTokens > m.capabilities.maxOutputTokens)
            && (WithinCostLimit in codes <==> EstimateCost(usage, m.pricing) <= req.maximumCost)
            && (CostLimitExceeded in codes <==> EstimateCost(usage, m.pricing) > req.maximumCost)
            && (forall code | code in codes :: code in FILTER_CODES)
  {
    var f := FindingsFor(m, req, policy, messages, health);
    ExplanationTells(f, Explanation(f));
  }

  const FILTER_CODES: set<ReasonCode> :=
    {ModelUnhealthy, ModelDegraded, CapabilityMatch, ModelAllowed, ModelNotAllowed, QualityTierMatch, TokenLimitExceeded,
     WithinCostLimit, CostLimitExceeded}

  lemma ExplanationTells(f: Findings, codes: seq<ReasonCode>)
    requires forall c :: c in codes <==> f.Explain(c)
    ensures (ModelUnhealthy in codes <==> f.health.Unavailable?) && (ModelDegraded in codes <==> f.health.Degraded?)
    ensures CapabilityMatch in codes <==> f.capabilityMatched
    ensures (ModelAllowed in codes <==> f.allowed) && (ModelNotAllowed in codes <==> !f.allowed)
    ensures QualityTierMatch in codes <==> f.tierMatched
    ensures TokenLimitExceeded in codes <==> !f.withinTokens
    ensures (WithinCostLimit in codes <==> f.withinCost) && (CostLimitExceeded in codes <==> !f.withinCost)
    ensures forall code | code in codes :: code in FILTER_CODES
  {
  }

  /** The codes alone decide eligibility. */
  predicate EligibleByCodes(codes: seq<ReasonCode>) {
    && CapabilityMatch in codes && ModelAllowed in codes && QualityTierMatch in codes && WithinCostLimit in codes
    && TokenLimitExceeded !in codes && ModelUnhealthy !in codes
  }

  lemma FindingsRecoverable(f: Findings, codes: seq<ReasonCode>)
    requires forall c :: c in codes <==> f.Explain(c)
    ensures f.AllPassed() <==> EligibleByCodes(codes)
  {
    assert CapabilityMatch in codes <==> f.capabilityMatched;
    assert ModelAllowed in codes <==> f.allowed;
    assert QualityTierMatch in codes <==> f.tierMatched;
    assert WithinCostLimit in codes <==> f.withinCost;
    assert TokenLimitExceeded in codes <==> !f.withinTokens;
    assert ModelUnhealthy in codes <==> f.health.Unavailable?;
  }

  lemma EligibilityRecoverable(m: Model, req: EffectiveRequirements, policy: Policy, messages: seq<Message>, health: HealthStatus)
    ensures var c := CandidateFor(m, req, policy, messages, health); c.eligible <==> EligibleByCodes(c.reasonCodes)
  {
    var f := FindingsFor(m, req, policy, messages, health);
    FindingsRecoverable(f, Explanation(f));
  }

  /** With non-negative prices, asking for fewer output tokens, or setting a limit at all, never makes an eligible model
      ineligible, whatever overrides the policy allows. */
  lemma FewerTokensKeepEligibility(m: Model, requested: Requirements, fewer: int, policy: Policy,
                                   messages: seq<Message>, health: HealthStatus)
    requires requested.maximumOutputTokens.Some? ==> fewer <= requested.maximumOutputTokens.value
    requires 0.0 <= m.pricing.inputPer1k && 0.0 <= m.pricing.outputPer1k
    requires CandidateFor(m, ResolveEffective(requested, policy), policy, messages, health).eligible
    ensures CandidateFor(m, ResolveEffective(requested.(maximumOutputTokens := Some(fewer)), policy), policy, messages,
                         health).eligible
  {
    var before := ResolveEffective(requested, policy);
    var after := ResolveEffective(requested.(maximumOutputTokens := Some(fewer)), policy);
    assert after == before.(maximumOutputTokens := after.maximumOutputTokens);
    EstimateMonotone(UsageFor(after, messages), UsageFor(before, messages), m.pricing);
  }
}
