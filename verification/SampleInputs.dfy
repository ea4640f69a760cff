/** Small valid inputs on which evaluation is easy to follow: free models of one tier that all declare one
    tag, and a policy that prefers the first of them. */
module SampleInputs {
  import opened Domain
  import opened CostEstimation
  import opened RequirementsResolution
  import opened Filtering
  import opened Cohorts
  import opened Strategy
  import opened Catalogue
  import opened RouteEvaluation
  import opened CandidateChain

  function FreeModel(alias: string, tag: string): Model {
    Model(alias, Bedrock, Resolution(DirectModelId, alias), Capabilities([tag], Standard, 1000, 1000, false, false),
          Pricing(0.0, 0.0))
  }

  /** The catalogue that loading builds from one or two distinct free models. */
  function CatalogueOf(first: string, others: seq<string>, tag: string): Catalogue
    requires |others| <= 1
  {
    var a := FreeModel(first, tag);
    if others == [] then Catalogue([a], map[first := a], map[tag := [a]])
    else
      var b := FreeModel(others[0], tag);
      Catalogue([a, b], map[first := a, others[0] := b], map[tag := [a, b]])
  }

  function PolicyFor(first: string, others: seq<string>, tag: string): Policy {
    Policy(first, 1, [tag], [first] + others, [Standard], Standard, 1.0, 100, PreferredModel, Some(first), Balanced,
           Overrides(false, false, false, false), FallbackPolicy(others, 2), None)
  }

  function RequestOf(tag: string): Request {
    Request(tag, [], Requirements(tag, None, None, None, None, false, false))
  }

  lemma PolicyIsValid(first: string, others: seq<string>, tag: string)
    ensures PolicyFor(first, others, tag).Valid()
  {
    var policy := PolicyFor(first, others, tag);
    assert forall i | 0 <= i < |others| :: policy.allowedAliases[i + 1] == others[i];
    assert policy.allowedAliases[0] == first;
  }

  lemma {:induction false} TaggedUniform(models: seq<Model>, tag: string, t: string)
    requires forall m | m in models :: m.capabilities.tags == [tag]
    ensures Tagged(models, t) == if t == tag then models else []
    decreases |models|
  {
    if models != [] {
      var front, last := models[..|models| - 1], models[|models| - 1];
      assert models == front + [last];
      TaggedUniform(front, tag, t);
      assert [tag][..0] == [];
      assert Occurrences([tag], t) == if t == tag then 1 else 0;
      assert Copies(last, 1) == [last];
    }
  }

  lemma CatalogueIsLoaded(first: string, others: seq<string>, tag: string)
    requires |others| <= 1 && first !in others
    ensures Loaded(CatalogueOf(first, others, tag))
  {
    var c := CatalogueOf(first, others, tag);
    forall t ensures c.FindByCapability(t) == Tagged(c.models, t) {
      TaggedUniform(c.models, tag, t);
    }
  }

  function SampleCandidate(alias: string, first: string, others: seq<string>, tag: string, health: HealthStatus): (c: Candidate)
    ensures c.alias == alias
  {
    var policy, request := PolicyFor(first, others, tag), RequestOf(tag);
    CandidateFor(FreeModel(alias, tag), ResolveEffective(request.requirements, policy), policy, request.messages, health)
  }

  /** Every model of the sample is eligible unless it is UNAVAILABLE. */
  lemma FreeModelEligible(alias: string, first: string, others: seq<string>, tag: string, health: HealthStatus)
    requires alias in [first] + others && !health.Unavailable?
    ensures SampleCandidate(alias, first, others, tag, health).eligible
  {
    var policy, request := PolicyFor(first, others, tag), RequestOf(tag);
    var req := ResolveEffective(request.requirements, policy);
    var usage := UsageFor(req, request.messages);
    assert TotalChars([]) == 0;
    assert usage.inputTokens == 1 && usage.outputTokens == 100;
    FreeCost(usage);
  }

  lemma FreeCost(usage: Usage)
    ensures EstimateCost(usage, Pricing(0.0, 0.0)) == 0.0
  {
    assert ExactCost(usage, Pricing(0.0, 0.0)) == 0.0;
    assert (0.0).Floor == 0;
  }

  function Evaluated(first: string, others: seq<string>, tag: string, health: string -> HealthStatus): Decision
    requires |others| <= 1
  {
    Evaluate(first, RequestOf(tag), PolicyFor(first, others, tag), CatalogueOf(first, others, tag), health, 0)
  }

  function SampleCandidates(first: string, others: seq<string>, tag: string, health: string -> HealthStatus): (r: seq<Candidate>)
    requires |others| <= 1
    ensures |r| == 1 + |others|
  {
    var policy, request := PolicyFor(first, others, tag), RequestOf(tag);
    Candidates(CatalogueOf(first, others, tag).models, ResolveEffective(request.requirements, policy), policy, request.messages, health)
  }

  lemma SampleCandidateAt(first: string, others: seq<string>, tag: string, health: string -> HealthStatus, i: nat)
    requires |others| <= 1 && i <= |others|
    ensures var alias := ([first] + others)[i];
            SampleCandidates(first, others, tag, health)[i] == SampleCandidate(alias, first, others, tag, health(alias))
  {
    assert CatalogueOf(first, others, tag).models[i] == FreeModel(([first] + others)[i], tag);
  }

  lemma AllEligible(first: string, others: seq<string>, tag: string, health: string -> HealthStatus)
    requires |others| <= 1 && forall alias | alias in [first] + others :: !health(alias).Unavailable?
    ensures var candidates := SampleCandidates(first, others, tag, health);
            forall i | 0 <= i < |candidates| :: candidates[i].eligible && candidates[i].alias == ([first] + others)[i]
  {
    var candidates := SampleCandidates(first, others, tag, health);
    forall i | 0 <= i < |candidates| ensures candidates[i].eligible && candidates[i].alias == ([first] + others)[i] {
      var alias := ([first] + others)[i];
      SampleCandidateAt(first, others, tag, health, i);
      FreeModelEligible(alias, first, others, tag, health(alias));
    }
  }

  /** An eligible preferred model is selected. */
  lemma PreferredSelected(id: string, request: Request, policy: Policy, candidates: seq<Candidate>, hash: nat, c: Candidate)
    requires policy.ExperimentValid() && hash <= HASH_SPACE && policy.strategy.PreferredModel?
    requires c in candidates && c.eligible && policy.preferredAlias == Some(c.alias)
    ensures Route(id, request, policy, candidates, Select(EligibleOnly(candidates), policy, hash)).selected == Some(c.alias)
  {
    assert c in EligibleOnly(candidates);
    SelectionMeetsStrategy(EligibleOnly(candidates), policy, hash);
  }

  lemma EvaluatedRoutes(first: string, others: seq<string>, tag: string, health: string -> HealthStatus)
    requires |others| <= 1
    ensures var candidates := SampleCandidates(first, others, tag, health);
            var policy := PolicyFor(first, others, tag);
            Evaluated(first, others, tag, health)
            == Route(first, RequestOf(tag), policy, candidates, Select(EligibleOnly(candidates), policy, 0))
  {
  }

  /** The selected model followed by the one eligible fallback, if there is one. */
  lemma ChainOfPreferred(d: Decision, first: string, others: seq<string>)
    requires |others| <= 1 && first !in others && d.selected == Some(first)
    requires forall alias | alias in others :: alias in EligibleAliases(d.candidates)
    ensures Chain(d, FallbackPolicy(others, 2)) == [first] + others
  {
    if others != [] {
      assert others == [others[0]] && others[..0] == [];
      assert Picks([], EligibleAliases(d.candidates), d.selected) == [];
      assert Picks(others, EligibleAliases(d.candidates), d.selected) == [others[0]];
    }
  }

  /** With every model usable, the chain is the first model followed by the other, if there is one. */
  lemma AllUsableChain(first: string, others: seq<string>, tag: string, health: string -> HealthStatus)
    requires |others| <= 1 && first !in others && forall alias | alias in [first] + others :: !health(alias).Unavailable?
    ensures Chain(Evaluated(first, others, tag, health), FallbackPolicy(others, 2)) == [first] + others
  {
    var candidates := SampleCandidates(first, others, tag, health);
    AllEligible(first, others, tag, health);
    EvaluatedRoutes(first, others, tag, health);
    PreferredSelected(first, RequestOf(tag), PolicyFor(first, others, tag), candidates, 0, candidates[0]);
    OthersEligible(candidates, first, others);
    ChainOfPreferred(Evaluated(first, others, tag, health), first, others);
  }

  lemma OthersEligible(candidates: seq<Candidate>, first: string, others: seq<string>)
    requires |candidates| == 1 + |others| && forall i | 0 <= i < |candidates| :: candidates[i].alias == ([first] + others)[i]
    requires forall i | 0 <= i < |candidates| :: candidates[i].eligible
    ensures forall alias | alias in others :: alias in EligibleAliases(candidates)
  {
    forall i | 0 <= i < |others| ensures others[i] in EligibleAliases(candidates) {
      assert candidates[i + 1] in candidates && candidates[i + 1].alias == others[i];
    }
  }
}
