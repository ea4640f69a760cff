/** The closed vocabularies and frozen records shared by every component of the router. */
module Domain {

  datatype Option<+T> = None | Some(value: T)

  datatype QualityTier = Standard | Premium

  datatype LatencyPreference = Low | Balanced | High

  datatype StrategyType = PreferredModel | LowestCost | ByQualityTier | ByExperiment

  datatype ProviderName = Bedrock | OpenAI

  datatype HealthStatus = Healthy | Degraded | Unavailable

  datatype ResolutionType =
    | DirectModelId
    | CrossRegionInferenceProfile
    | ApplicationInferenceProfile
    | RouterAlias

  datatype StopReason =
    | EndTurn | MaxTokens | StopSequence | ToolUse | ContentFiltered | GuardrailIntervened | Other

  datatype ErrorCategory = Throttled | Transient | Timeout | Permanent

  datatype AttemptStatus = Succeeded | ThrottledCall | TransientError | NonRetryableError | TimedOut

  datatype ReasonCode =
    | CapabilityMatch
    | ModelAllowed
    | ModelNotAllowed
    | WithinCostLimit
    | CostLimitExceeded
    | TokenLimitExceeded
    | LowestEstimatedCost
    | LatencyPreferenceMatch
    | QualityTierMatch
    | RegionPolicyMatch
    | ModelUnhealthy
    | ModelDegraded
    | ModelThrottled
    | ModelUnavailable
    | FallbackSelected
    | ExperimentRouteSelected
    | NoEligibleModel
    | InvalidRoutingPolicy
    | RequiredCapabilityUnavailable

  datatype Message = Message(content: string)

  datatype Usage = Usage(inputTokens: int, outputTokens: int)

  // ---- Catalogue entries ----

  datatype Capabilities = Capabilities(
    tags: seq<string>,
    qualityTier: QualityTier,
    maxInputTokens: int,
    maxOutputTokens: int,
    supportsToolUse: bool,
    supportsStructuredOutput: bool)

  /** Prices are decimals in the source; exact decimals are reals here. */
  datatype Pricing = Pricing(inputPer1k: real, outputPer1k: real)

  datatype Resolution = Resolution(kind: ResolutionType, value: string)

  datatype Model = Model(
    alias: string,
    provider: ProviderName,
    resolution: Resolution,
    capabilities: Capabilities,
    pricing: Pricing)

  // ---- Policy ----

  datatype Overrides = Overrides(qualityTier: bool, cost: bool, outputTokens: bool, latency: bool)

  datatype FallbackPolicy = FallbackPolicy(aliases: seq<string>, maximumAttempts: int)

  datatype Arm = Arm(alias: string, weight: int)

  datatype Experiment = Experiment(arms: seq<Arm>)
  {
    /** At least two arms, positive weights, no repeated alias. */
    predicate Valid() {
      && 2 <= |arms|
      && (forall i | 0 <= i < |arms| :: 0 < arms[i].weight)
      && (forall i, j | 0 <= i < j < |arms| :: arms[i].alias != arms[j].alias)
    }
  }

  datatype Policy = Policy(
    policyId: string,
    policyVersion: int,
    allowedCapabilities: seq<string>,
    allowedAliases: seq<string>,
    allowedTiers: seq<QualityTier>,
    defaultTier: QualityTier,
    maximumCost: real,
    maximumOutputTokens: int,
    strategy: StrategyType,
    preferredAlias: Option<string>,
    latencyPreference: LatencyPreference,
    overrides: Overrides,
    fallback: FallbackPolicy,
    experiment: Option<Experiment>)
  {
    predicate ExperimentValid() { experiment.Some? ==> experiment.value.Valid() }

    /** What loading a policy validates. */
    predicate Valid() {
      && defaultTier in allowedTiers
      && 0 < maximumOutputTokens
      && 1 <= fallback.maximumAttempts
      && (strategy.PreferredModel? ==> preferredAlias.Some?)
      && (preferredAlias.Some? ==> preferredAlias.value in allowedAliases)
      && (strategy.ByExperiment? ==> experiment.Some?)
      && ExperimentValid()
      && (experiment.Some? ==>
            forall i | 0 <= i < |experiment.value.arms| :: experiment.value.arms[i].alias in allowedAliases)
      && (forall i | 0 <= i < |fallback.aliases| :: fallback.aliases[i] in allowedAliases)
    }
  }

  // ---- Requests ----

  datatype Requirements = Requirements(
    capability: string,
    qualityTier: Option<QualityTier>,
    maximumCost: Option<real>,
    maximumOutputTokens: Option<int>,
    latencyPreference: Option<LatencyPreference>,
    requiresToolUse: bool,
    requiresStructuredOutput: bool)
  {
    predicate Valid() { maximumOutputTokens.Some? ==> 0 < maximumOutputTokens.value }
  }

  datatype EffectiveRequirements = EffectiveRequirements(
    capability: string,
    qualityTier: QualityTier,
    maximumCost: real,
    maximumOutputTokens: int,
    latencyPreference: LatencyPreference,
    requiresToolUse: bool,
    requiresStructuredOutput: bool)

  datatype Request = Request(applicationId: string, messages: seq<Message>, requirements: Requirements)

  // ---- Routing results ----

  datatype Candidate = Candidate(
    alias: string,
    provider: ProviderName,
    eligible: bool,
    reasonCodes: seq<ReasonCode>,
    usage: Usage,
    cost: real)

  datatype Decision = Decision(
    decisionId: string,
    applicationId: string,
    policyId: string,
    policyVersion: int,
    capability: string,
    selected: Option<string>,
    provider: Option<ProviderName>,
    fallbackUsed: bool,
    reasonCodes: seq<ReasonCode>,
    candidates: seq<Candidate>,
    usage: Option<Usage>,
    cost: Option<real>)

  datatype ProviderRequest = ProviderRequest(
    alias: string,
    messages: seq<Message>,
    maxOutputTokens: int,
    requiresToolUse: bool,
    requiresStructuredOutput: bool)

  datatype ProviderResponse = ProviderResponse(text: string, stopReason: StopReason, usage: Usage)

  datatype Chunk = Chunk(deltaText: string, isFinal: bool, stopReason: Option<StopReason>, usage: Option<Usage>)

  datatype Attempt = Attempt(alias: string, status: AttemptStatus, latencyMs: nat)

  datatype InferenceResult = InferenceResult(
    decision: Decision,
    response: Option<ProviderResponse>,
    attempts: seq<Attempt>)

  function StatusFor(category: ErrorCategory): AttemptStatus {
    match category
    case Throttled => ThrottledCall
    case Transient => TransientError
    case Timeout => TimedOut
    case Permanent => NonRetryableError
  }

  /** The decision-level code a failed invocation contributes, if any. */
  function CodeFor(category: ErrorCategory): Option<ReasonCode> {
    match category
    case Throttled => Some(ModelThrottled)
    case Transient => Some(ModelUnavailable)
    case Timeout => Some(ModelUnavailable)
    case Permanent => None
  }
}
