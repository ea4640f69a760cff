/** Route evaluation (src/application/route_evaluation_service.py). The clock and the identifier
    generator are parameters; `health` is what the health repository answers per alias. */
module RouteEvaluation {
  import opened Domain
  import opened ReasonCodes
  import opened RequirementsResolution
  import opened Filtering
  import opened Cohorts
  import opened Strategy
  import opened Catalogue

  function Candidates(models: seq<Model>, req: EffectiveRequirements, policy: Policy, messages: seq<Message>,
                      health: string -> HealthStatus): (r: seq<Candidate>)
    ensures |r| == |models|
    ensures forall i | 0 <= i < |r| :: r[i] == CandidateFor(models[i], req, policy, messages, health(models[i].alias))
  {
    seq(|models|, i requires 0 <= i < |models| =>
      CandidateFor(models[i], req, policy, messages, health(models[i].alias)))
  }

  function EligibleOnly(candidates: seq<Candidate>): (r: seq<Candidate>)
    ensures forall c :: c in r <==> c in candidates && c.eligible
  {
    if candidates == [] then []
    else
      assert candidates == [candidates[0]] + candidates[1..];
      if candidates[0].eligible then [candidates[0]] + EligibleOnly(candidates[1..]) else EligibleOnly(candidates[1..])
  }

  function BuildDecision(id: string, request: Request, policy: Policy, selected: Option<Candidate>,
                         candidates: seq<Candidate>, codes: seq<ReasonCode>): Decision
  {
    Decision(id, request.applicationId, policy.policyId, policy.policyVersion, request.requirements.capability,
             if selected.Some? then Some(selected.value.alias) else None,
             if selected.Some? then Some(selected.value.provider) else None,
             false, codes, candidates,
             if selected.Some? then Some(selected.value.usage) else None,
             if selected.Some? then Some(selected.value.cost) else None)
  }

  /** The decision once the capability is allowed and some model declares it. */
  function Route(id: string, request: Request, policy: Policy, candidates: seq<Candidate>, selection: Selection): Decision {
    if selection.selected.None? then BuildDecision(id, request, policy, None, candidates, [NoEligibleModel])
    else
      BuildDecision(id, request, policy, selection.selected, candidates,
                    SortReasonCodes(selection.selected.value.reasonCodes + selection.extraCodes))
  }

  function Evaluate(id: string, request: Request, policy: Policy, catalogue: Catalogue,
                    health: string -> HealthStatus, hash: nat): Decision
    requires policy.ExperimentValid() && hash <= HASH_SPACE
  {
    var req := ResolveEffective(request.requirements, policy);
    var models := catalogue.FindByCapability(req.capability);
    if request.requirements.capability !in policy.allowedCapabilities || models == [] then
      BuildDecision(id, request, policy, None, [], [RequiredCapabilityUnavailable])
    else
      RouteModels(id, request, policy, models, req, health, hash)
  }

  function RouteModels(id: string, request: Request, policy: Policy, models: seq<Model>, req: EffectiveRequirements,
                       health: string -> HealthStatus, hash: nat): Decision
    requires policy.ExperimentValid() && hash <= HASH_SPACE
  {
    var candidates := Candidates(models, req, policy, request.messages, health);
    Route(id, request, policy, candidates, Select(EligibleOnly(candidates), policy, hash))
  }

  /** The decision reports `c` as its choice, with its estimates and everything that explains it. */
  ghost predicate Chosen(d: Decision, c: Candidate) {
    && d.selected == Some(c.alias) && d.provider == Some(c.provider) && d.usage == Some(c.usage) && d.cost == Some(c.cost)
    && forall code | code in c.reasonCodes :: code in d.reasonCodes
  }

  /** What evaluation guarantees to the orchestrator. */
  ghost predicate WellFormed(d: Decision) {
    && !d.fallbackUsed && Ascending(d.reasonCodes)
    && (d.selected.Some? ==> exists c :: c in d.candidates && c.eligible && Chosen(d, c))
    && (forall code | code in d.reasonCodes ::
          !code.FallbackSelected? && !code.ModelThrottled? && !code.ModelUnavailable?)
    && (d.selected.None? ==> d.reasonCodes == [NoEligibleModel] || d.reasonCodes == [RequiredCapabilityUnavailable])
    && (d.selected.None? ==> d.provider.None? && d.usage.None? && d.cost.None?)
    && (d.selected.Some? ==> NoEligibleModel !in d.reasonCodes)
  }

  /** Codes only the invocation layer, or a failed evaluation, may add. */
  ghost predicate OnlyEvaluationCodes(codes: seq<ReasonCode>) {
    FallbackSelected !in codes && ModelThrottled !in codes && ModelUnavailable !in codes && NoEligibleModel !in codes
  }

  lemma ExplanationCodes(f: Findings, codes: seq<ReasonCode>)
    requires forall code :: code in codes <==> f.Explain(code)
    ensures OnlyEvaluationCodes(codes)
  {
    assert !f.Explain(FallbackSelected) && !f.Explain(ModelThrottled) && !f.Explain(ModelUnavailable);
  }

  lemma CandidateCodes(models: seq<Model>, req: EffectiveRequirements, policy: Policy, messages: seq<Message>,
                       health: string -> HealthStatus)
    ensures var candidates := Candidates(models, req, policy, messages, health);
            forall i | 0 <= i < |candidates| :: OnlyEvaluationCodes(candidates[i].reasonCodes)
  {
    var candidates := Candidates(models, req, policy, messages, health);
    forall i | 0 <= i < |candidates| ensures OnlyEvaluationCodes(candidates[i].reasonCodes) {
      var f := FindingsFor(models[i], req, policy, messages, health(models[i].alias));
      ExplanationCodes(f, Explanation(f));
    }
  }

  lemma RouteWellFormed(id: string, request: Request, policy: Policy, candidates: seq<Candidate>, selection: Selection)
    requires forall i | 0 <= i < |candidates| :: OnlyEvaluationCodes(candidates[i].reasonCodes)
    requires selection.selected.Some? ==> selection.selected.value in candidates && selection.selected.value.eligible
    requires OnlyEvaluationCodes(selection.extraCodes)
    ensures WellFormed(Route(id, request, policy, candidates, selection))
  {
    if selection.selected.Some? {
      assert OnlyEvaluationCodes(selection.selected.value.reasonCodes + selection.extraCodes);
      assert Chosen(Route(id, request, policy, candidates, selection), selection.selected.value);
    }
  }

  lemma SelectionCodes(eligible: seq<Candidate>, policy: Policy, hash: nat)
    requires policy.ExperimentValid() && hash <= HASH_SPACE
    ensures OnlyEvaluationCodes(Select(eligible, policy, hash).extraCodes)
  {
    var codes := Select(eligible, policy, hash).extraCodes;
    assert codes == [] || codes == [LowestEstimatedCost] || codes == [ExperimentRouteSelected];
  }

  lemma UnavailableWellFormed(id: string, request: Request, policy: Policy)
    ensures WellFormed(BuildDecision(id, request, policy, None, [], [RequiredCapabilityUnavailable]))
  {
  }

  lemma ModelsWellFormed(id: string, request: Request, policy: Policy, models: seq<Model>, req: EffectiveRequirements,
                         health: string -> HealthStatus, hash: nat)
    requires policy.ExperimentValid() && hash <= HASH_SPACE
    ensures WellFormed(RouteModels(id, request, policy, models, req, health, hash))
  {
    var candidates := Candidates(models, req, policy, request.messages, health);
    CandidateCodes(models, req, policy, request.messages, health);
    SelectionCodes(EligibleOnly(candidates), policy, hash);
    RouteWellFormed(id, request, policy, candidates, Select(EligibleOnly(candidates), policy, hash));
  }

  lemma EvaluationWellFormed(id: string, request: Request, policy: Policy, catalogue: Catalogue,
                             health: string -> HealthStatus, hash: nat)
    requires policy.ExperimentValid() && hash <= HASH_SPACE
    ensures WellFormed(Evaluate(id, request, policy, catalogue, health, hash))
  {
    var req := ResolveEffective(request.requirements, policy);
    UnavailableWellFormed(id, request, policy);
    ModelsWellFormed(id, request, policy, catalogue.FindByCapability(req.capability), req, health, hash);
  }

  /** The candidates of a decision are the models that declare an allowed capability, each eligible exactly when
      it suits: a decision has no eligible candidate if and only if every such model lacks something. */
  lemma NoneEligibleIff(id: string, request: Request, policy: Policy, catalogue: Catalogue,
                        health: string -> HealthStatus, hash: nat)
    requires policy.ExperimentValid() && hash <= HASH_SPACE && Loaded(catalogue)
    ensures var req := ResolveEffective(request.requirements, policy);
            (forall c | c in Evaluate(id, request, policy, catalogue, health, hash).candidates :: !c.eligible)
            <==> request.requirements.capability in policy.allowedCapabilities ==>
                   forall m | m in catalogue.models && req.capability in m.capabilities.tags ::
                     !Suits(m, req, policy, request.messages, health(m.alias))
  {
    var req := ResolveEffective(request.requirements, policy);
    ConsideredCandidates(id, request, policy, catalogue, health, hash);
    CandidatesSuit(catalogue.FindByCapability(req.capability), req, policy, request.messages, health);
    DeclaringModels(catalogue, req.capability);
  }

  lemma ConsideredCandidates(id: string, request: Request, policy: Policy, catalogue: Catalogue,
                             health: string -> HealthStatus, hash: nat)
    requires policy.ExperimentValid() && hash <= HASH_SPACE
    ensures var req := ResolveEffective(request.requirements, policy);
            Evaluate(id, request, policy, catalogue, health, hash).candidates ==
            if request.requirements.capability in policy.allowedCapabilities
            then Candidates(catalogue.FindByCapability(req.capability), req, policy, request.messages, health) else []
  {
  }

  lemma DeclaringModels(catalogue: Catalogue, tag: string)
    requires Loaded(catalogue)
    ensures forall m :: m in catalogue.FindByCapability(tag) <==> m in catalogue.models && tag in m.capabilities.tags
  {
    forall m ensures m in catalogue.FindByCapability(tag) <==> m in catalogue.models && tag in m.capabilities.tags {
      TaggedMembers(catalogue.models, tag, m);
    }
  }

  lemma CandidatesSuit(models: seq<Model>, req: EffectiveRequirements, policy: Policy, messages: seq<Message>,
                       health: string -> HealthStatus)
    ensures (forall c | c in Candidates(models, req, policy, messages, health) :: !c.eligible)
            <==> forall m | m in models :: !Suits(m, req, policy, messages, health(m.alias))
  {
    var candidates := Candidates(models, req, policy, messages, health);
    forall i | 0 <= i < |models| ensures candidates[i].eligible <==> Suits(models[i], req, policy, messages, health(models[i].alias)) {
      EligibleIffSuits(models[i], req, policy, messages, health(models[i].alias));
    }
    assert forall i | 0 <= i < |models| :: candidates[i] in candidates && models[i] in models;
  }

  /** The decision carries the request's and the policy's own identification. */
  lemma DecisionIdentifies(id: string, request: Request, policy: Policy, catalogue: Catalogue,
                           health: string -> HealthStatus, hash: nat)
    requires policy.ExperimentValid() && hash <= HASH_SPACE
    ensures var d := Evaluate(id, request, policy, catalogue, health, hash);
            && d.decisionId == id && d.applicationId == request.applicationId && d.capability == request.requirements.capability
            && d.policyId == policy.policyId && d.policyVersion == policy.policyVersion
  {
  }

  /** A selecting decision reports exactly the chosen candidate's codes and its strategy's own code. */
  lemma SelectionReported(id: string, request: Request, policy: Policy, candidates: seq<Candidate>, hash: nat)
    requires policy.ExperimentValid() && hash <= HASH_SPACE
    ensures var d := Route(id, request, policy, candidates, Select(EligibleOnly(candidates), policy, hash));
            d.selected.Some? ==>
              exists c :: && c in candidates && c.eligible && Chosen(d, c)
                          && forall code :: code in d.reasonCodes <==>
                               || code in c.reasonCodes
                               || (code == LowestEstimatedCost && policy.strategy == LowestCost)
                               || (code == ExperimentRouteSelected && policy.strategy == ByExperiment)
  {
    var selection := Select(EligibleOnly(candidates), policy, hash);
    if selection.selected.Some? {
      var c := selection.selected.value;
      StrategyCode(EligibleOnly(candidates), policy, hash);
      assert c in candidates && c.eligible && Chosen(Route(id, request, policy, candidates, selection), c);
    }
  }

  lemma StrategyCode(eligible: seq<Candidate>, policy: Policy, hash: nat)
    requires policy.ExperimentValid() && hash <= HASH_SPACE && Select(eligible, policy, hash).selected.Some?
    ensures forall code :: code in Select(eligible, policy, hash).extraCodes <==>
              || (code == LowestEstimatedCost && policy.strategy == LowestCost)
              || (code == ExperimentRouteSelected && policy.strategy == ByExperiment)
  {
  }

  /** Every eligible candidate is a catalogued model that passed every dimension. */
  lemma EligibleCandidateIsGoverned(id: string, request: Request, policy: Policy, catalogue: Catalogue,
                                    health: string -> HealthStatus, hash: nat, c: Candidate)
    returns (m: Model)
    requires policy.ExperimentValid() && hash <= HASH_SPACE && Loaded(catalogue)
    requires c in Evaluate(id, request, policy, catalogue, health, hash).candidates && c.eligible
    ensures m in catalogue.models && m.alias == c.alias && catalogue.GetByAlias(c.alias) == Some(m)
    ensures FindingsFor(m, ResolveEffective(request.requirements, policy), policy, request.messages, health(m.alias)).AllPassed()
    ensures request.requirements.capability in policy.allowedCapabilities
  {
    var req := ResolveEffective(request.requirements, policy);
    var models := catalogue.FindByCapability(req.capability);
    var candidates := Candidates(models, req, policy, request.messages, health);
    var i :| 0 <= i < |candidates| && candidates[i] == c;
    m := models[i];
    TaggedMembers(catalogue.models, req.capability, m);
    IndexFindsModel(catalogue, m);
  }
}
