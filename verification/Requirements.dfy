/** Merging requested constraints with the policy (src/domain/requirements.py). */
module RequirementsResolution {
  import opened Domain

  function MinReal(a: real, b: real): real { if b < a then b else a }

  function MinInt(a: int, b: int): int { if b < a then b else a }

  /** An allowed requested tier is honoured where the policy lets callers choose; otherwise the default holds. */
  function EffectiveTier(requested: Option<QualityTier>, policy: Policy): (tier: QualityTier)
    ensures policy.defaultTier in policy.allowedTiers ==> tier in policy.allowedTiers
    ensures policy.overrides.qualityTier && requested.Some? && requested.value in policy.allowedTiers ==> requested == Some(tier)
    ensures tier != policy.defaultTier ==> policy.overrides.qualityTier && requested == Some(tier)
  {
    if policy.overrides.qualityTier && requested.Some? && requested.value in policy.allowedTiers then requested.value
    else policy.defaultTier
  }

  /** Overrides can only tighten: the effective limits never exceed the policy's. */
  function ResolveEffective(requested: Requirements, policy: Policy): (e: EffectiveRequirements)
    ensures e.capability == requested.capability
    ensures e.requiresToolUse == requested.requiresToolUse && e.requiresStructuredOutput == requested.requiresStructuredOutput
    ensures e.maximumCost <= policy.maximumCost && e.maximumOutputTokens <= policy.maximumOutputTokens
    ensures policy.defaultTier in policy.allowedTiers ==> e.qualityTier in policy.allowedTiers
    ensures 0 < policy.maximumOutputTokens && requested.Valid() ==> 0 < e.maximumOutputTokens
    ensures policy.overrides.cost && requested.maximumCost.Some? ==> e.maximumCost <= requested.maximumCost.value
    ensures policy.overrides.outputTokens && requested.maximumOutputTokens.Some? ==>
              e.maximumOutputTokens <= requested.maximumOutputTokens.value
    ensures e.maximumCost == policy.maximumCost || (policy.overrides.cost && requested.maximumCost == Some(e.maximumCost))
    ensures e.maximumOutputTokens == policy.maximumOutputTokens ||
            (policy.overrides.outputTokens && requested.maximumOutputTokens == Some(e.maximumOutputTokens))
    ensures e.latencyPreference == policy.latencyPreference ||
            (policy.overrides.latency && requested.latencyPreference == Some(e.latencyPreference))
    ensures policy.overrides.latency && requested.latencyPreference.Some? ==> requested.latencyPreference == Some(e.latencyPreference)
    ensures e.qualityTier == EffectiveTier(requested.qualityTier, policy)
  {
    EffectiveRequirements(
      requested.capability,
      EffectiveTier(requested.qualityTier, policy),
      if policy.overrides.cost && requested.maximumCost.Some?
      then MinReal(requested.maximumCost.value, policy.maximumCost) else policy.maximumCost,
      if policy.overrides.outputTokens && requested.maximumOutputTokens.Some?
      then MinInt(requested.maximumOutputTokens.value, policy.maximumOutputTokens) else policy.maximumOutputTokens,
      if policy.overrides.latency && requested.latencyPreference.Some?
      then requested.latencyPreference.value else policy.latencyPreference,
      requested.requiresToolUse,
      requested.requiresStructuredOutput)
  }
}
