/** The bounded chain of aliases to attempt (`_build_candidate_chain` in
    src/application/invocation_orchestrator.py), and the governance theorem over it. */
module CandidateChain {
  import opened Domain
  import opened RequirementsResolution
  import opened CostEstimation
  import opened Filtering
  import opened Cohorts
  import opened Catalogue
  import opened RouteEvaluation

  function EligibleAliases(candidates: seq<Candidate>): set<string> {
    set c | c in candidates && c.eligible :: c.alias
  }

  /** The distinct eligible fallback aliases other than the selected one, by first occurrence. */
  function Picks(aliases: seq<string>, eligible: set<string>, selected: Option<string>): (r: seq<string>)
    ensures forall a :: a in r <==> a in aliases && a in eligible && Some(a) != selected
    ensures forall i, j | 0 <= i < j < |r| :: r[i] != r[j]
    decreases |aliases|
  {
    if aliases == [] then []
    else
      var front, a := aliases[..|aliases| - 1], aliases[|aliases| - 1];
      assert aliases == front + [a];
      var p := Picks(front, eligible, selected);
      if a in eligible && Some(a) != selected && a !in p then p + [a] else p
  }

  function Head(selected: Option<string>): seq<string> {
    if selected.Some? then [selected.value] else []
  }

  function Take(s: seq<string>, n: int): seq<string> {
    if n <= 0 then [] else if |s| <= n then s else s[..n]
  }

  /** The selected alias, then as many picks as fit. */
  function Chain(d: Decision, fallback: FallbackPolicy): seq<string> {
    var head := Head(d.selected);
    head + Take(Picks(fallback.aliases, EligibleAliases(d.candidates), d.selected), fallback.maximumAttempts - |head|)
  }

  lemma {:induction false} PicksExtend(aliases: seq<string>, n: nat, eligible: set<string>, selected: Option<string>)
    requires n <= |aliases|
    ensures Picks(aliases[..n], eligible, selected) <= Picks(aliases, eligible, selected)
    decreases |aliases|
  {
    if n < |aliases| {
      var front := aliases[..|aliases| - 1];
      assert front[..n] == aliases[..n];
      PicksExtend(front, n, eligible, selected);
    } else {
      assert aliases[..n] == aliases;
    }
  }

  method BuildCandidateChain(d: Decision, fallback: FallbackPolicy) returns (chain: seq<string>)
    requires 1 <= fallback.maximumAttempts
    ensures chain == Chain(d, fallback)
  {
    var eligible := EligibleAliases(d.candidates);
    chain := Head(d.selected);
    ghost var room := fallback.maximumAttempts - |chain|;
    var n := 0;
    while n < |fallback.aliases|
      invariant n <= |fallback.aliases|
      invariant chain == Head(d.selected) + Take(Picks(fallback.aliases[..n], eligible, d.selected), room)
      invariant |chain| <= fallback.maximumAttempts
    {
      if fallback.maximumAttempts <= |chain| {
        PicksExtend(fallback.aliases, n, eligible, d.selected);
        return;
      }
      var alias := fallback.aliases[n];
      assert fallback.aliases[..n + 1][..n] == fallback.aliases[..n];
      if alias in eligible && alias !in chain {
        chain := chain + [alias];
      }
      n := n + 1;
    }
    assert fallback.aliases[..n] == fallback.aliases;
  }

  /** Duplicate-free, bounded, eligible throughout, and complete whenever there is room. */
  lemma ChainProperties(d: Decision, fallback: FallbackPolicy)
    requires WellFormed(d) && 1 <= fallback.maximumAttempts
    ensures var chain := Chain(d, fallback);
            && |chain| <= fallback.maximumAttempts
            && (forall i, j | 0 <= i < j < |chain| :: chain[i] != chain[j])
            && (forall a | a in chain :: a in EligibleAliases(d.candidates))
            && (d.selected.Some? ==> chain != [] && chain[0] == d.selected.value)
            && (|chain| < fallback.maximumAttempts ==>
                  forall a | a in fallback.aliases && a in EligibleAliases(d.candidates) :: a in chain)
  {
  }

  /** Where an alias first occurs. */
  function FirstIndex(aliases: seq<string>, alias: string): (i: nat)
    requires alias in aliases
    ensures i < |aliases| && aliases[i] == alias && forall j | 0 <= j < i :: aliases[j] != alias
  {
    if aliases[0] == alias then 0
    else
      assert aliases == [aliases[0]] + aliases[1..];
      1 + FirstIndex(aliases[1..], alias)
  }

  /** The picks come in configured order. */
  lemma {:induction false} PicksOrdered(aliases: seq<string>, eligible: set<string>, selected: Option<string>, i: nat, j: nat)
    requires i < j < |Picks(aliases, eligible, selected)|
    ensures var picks := Picks(aliases, eligible, selected);
            picks[i] in aliases && picks[j] in aliases && FirstIndex(aliases, picks[i]) < FirstIndex(aliases, picks[j])
    decreases |aliases|
  {
    var front, last := aliases[..|aliases| - 1], aliases[|aliases| - 1];
    var before, picks := Picks(front, eligible, selected), Picks(aliases, eligible, selected);
    assert aliases == front + [last];
    assert picks[i] in picks && picks[j] in picks;
    if j < |before| {
      PicksOrdered(front, eligible, selected, i, j);
      FirstIndexOfFront(front, last, picks[i]);
      FirstIndexOfFront(front, last, picks[j]);
    } else {
      assert before[i] in before;
      FirstIndexOfFront(front, last, picks[i]);
    }
  }

  lemma FirstIndexOfFront(front: seq<string>, last: string, alias: string)
    requires alias in front
    ensures FirstIndex(front + [last], alias) == FirstIndex(front, alias)
  {
    var i, j := FirstIndex(front + [last], alias), FirstIndex(front, alias);
    assert (front + [last])[j] == alias;
    assert i <= j;
    assert front[i] == (front + [last])[i];
  }

  lemma ChainPick(chain: seq<string>, selected: Option<string>, picks: seq<string>, room: int, i: nat)
    requires chain == Head(selected) + Take(picks, room) && i < |chain| && Some(chain[i]) != selected
    ensures |Head(selected)| <= i && i - |Head(selected)| < |picks| && chain[i] == picks[i - |Head(selected)|]
  {
  }

  /** After the selected alias the chain follows the configured order. */
  lemma ChainInOrder(d: Decision, fallback: FallbackPolicy, i: nat, j: nat, a: string, b: string)
    requires i < j < |Chain(d, fallback)| && Chain(d, fallback)[i] == a && Chain(d, fallback)[j] == b
    requires Some(a) != d.selected && Some(b) != d.selected
    ensures a in fallback.aliases && b in fallback.aliases && FirstIndex(fallback.aliases, a) < FirstIndex(fallback.aliases, b)
  {
    var room := fallback.maximumAttempts - |Head(d.selected)|;
    HeadAndPicksInOrder(Chain(d, fallback), d.selected, fallback.aliases, EligibleAliases(d.candidates), room, i, j);
  }

  lemma HeadAndPicksInOrder(chain: seq<string>, selected: Option<string>, aliases: seq<string>, eligible: set<string>, room: int,
                            i: nat, j: nat)
    requires chain == Head(selected) + Take(Picks(aliases, eligible, selected), room) && i < j < |chain|
    requires Some(chain[i]) != selected && Some(chain[j]) != selected
    ensures chain[i] in aliases && chain[j] in aliases && FirstIndex(aliases, chain[i]) < FirstIndex(aliases, chain[j])
  {
    var picks, offset := Picks(aliases, eligible, selected), |Head(selected)|;
    ChainPick(chain, selected, picks, room, i);
    ChainPick(chain, selected, picks, room, j);
    PicksInOrder(aliases, eligible, selected, i - offset, j - offset, chain[i], chain[j]);
  }

  lemma PicksInOrder(aliases: seq<string>, eligible: set<string>, selected: Option<string>, i: nat, j: nat, a: string, b: string)
    requires i < j < |Picks(aliases, eligible, selected)|
    requires Picks(aliases, eligible, selected)[i] == a && Picks(aliases, eligible, selected)[j] == b
    ensures a in aliases && b in aliases && FirstIndex(aliases, a) < FirstIndex(aliases, b)
  {
    PicksOrdered(aliases, eligible, selected, i, j);
  }

  /** When not every eligible fallback fits, the earliest configured ones are kept: an alias left out comes
      later in the policy than every fallback in the chain. */
  lemma ChainKeepsEarliest(d: Decision, fallback: FallbackPolicy, kept: string, dropped: string)
    requires kept in Chain(d, fallback) && Some(kept) != d.selected
    requires dropped in fallback.aliases && dropped in EligibleAliases(d.candidates) && Some(dropped) != d.selected
    requires dropped !in Chain(d, fallback)
    ensures kept in fallback.aliases && FirstIndex(fallback.aliases, kept) < FirstIndex(fallback.aliases, dropped)
  {
    var picks := Picks(fallback.aliases, EligibleAliases(d.candidates), d.selected);
    var taken := Take(picks, fallback.maximumAttempts - |Head(d.selected)|);
    assert kept in taken && dropped in picks;
    var i :| 0 <= i < |taken| && taken[i] == kept;
    var j :| 0 <= j < |picks| && picks[j] == dropped;
    assert forall k | 0 <= k < |taken| :: taken[k] == picks[k] && taken[k] in taken;
    PicksInOrder(fallback.aliases, EligibleAliases(d.candidates), d.selected, i, j, kept, dropped);
  }

  /** The policy, the catalogue and the health signal all allow sending `sent` to `m`. */
  predicate Governed(m: Model, sent: ProviderRequest, request: Request, policy: Policy, catalogue: Catalogue,
                     health: string -> HealthStatus)
  {
    var req := ResolveEffective(request.requirements, policy);
    && m in catalogue.models && ResolveModel(sent.alias, catalogue) == Ok(m) && CheckCapabilities(sent, m).Ok?
    && request.requirements.capability in policy.allowedCapabilities
    && request.requirements.capability in m.capabilities.tags
    && (request.requirements.requiresToolUse ==> m.capabilities.supportsToolUse)
    && (request.requirements.requiresStructuredOutput ==> m.capabilities.supportsStructuredOutput)
    && sent.messages == request.messages && sent.maxOutputTokens == req.maximumOutputTokens
    && sent.requiresToolUse == request.requirements.requiresToolUse
    && sent.requiresStructuredOutput == request.requirements.requiresStructuredOutput
    && sent.alias == m.alias && m.alias in policy.allowedAliases && m.capabilities.qualityTier in policy.allowedTiers
    && !health(m.alias).Unavailable?
    && EstimateCost(UsageFor(req, request.messages), m.pricing) <= req.maximumCost <= policy.maximumCost
    && sent.maxOutputTokens <= policy.maximumOutputTokens && sent.maxOutputTokens <= m.capabilities.maxOutputTokens
  }

  /** Governance: every alias of the chain names a catalogued model that is allowlisted, matches every
      need, was not UNAVAILABLE, fits the token limits and stays within a cost limit no larger than
      the policy's; so neither resolution nor the capability check can fail for it. */
  lemma ChainIsGoverned(id: string, request: Request, policy: Policy, catalogue: Catalogue,
                        health: string -> HealthStatus, hash: nat, alias: string)
    returns (m: Model)
    requires policy.Valid() && hash <= HASH_SPACE && Loaded(catalogue)
    requires alias in Chain(Evaluate(id, request, policy, catalogue, health, hash), policy.fallback)
    ensures Governed(m, RequestFor(alias, request, ResolveEffective(request.requirements, policy)), request, policy, catalogue, health)
  {
    var d := Evaluate(id, request, policy, catalogue, health, hash);
    EvaluationWellFormed(id, request, policy, catalogue, health, hash);
    ChainProperties(d, policy.fallback);
    var c :| c in d.candidates && c.eligible && c.alias == alias;
    m := EligibleCandidateIsGoverned(id, request, policy, catalogue, health, hash, c);
  }

  /** What the orchestrator sends for an alias. */
  function RequestFor(alias: string, request: Request, req: EffectiveRequirements): ProviderRequest {
    ProviderRequest(alias, request.messages, req.maximumOutputTokens, req.requiresToolUse, req.requiresStructuredOutput)
  }

  /** The requests handed to the provider for the first `n` aliases of a chain. */
  function Requests(chain: seq<string>, n: nat, request: Request, req: EffectiveRequirements): seq<ProviderRequest>
    requires n <= |chain|
  {
    if n == 0 then [] else Requests(chain, n - 1, request, req) + [RequestFor(chain[n - 1], request, req)]
  }

  lemma {:induction false} RequestsAt(chain: seq<string>, n: nat, request: Request, req: EffectiveRequirements)
    requires n <= |chain|
    ensures var sent := Requests(chain, n, request, req);
            |sent| == n && forall i | 0 <= i < n :: sent[i] == RequestFor(chain[i], request, req)
  {
    if n > 0 { RequestsAt(chain, n - 1, request, req); }
  }

  /** Governance of every request handed to the provider, primary or fallback, however the provider
      behaves: `n` is however many of the chain were attempted. */
  lemma SentRequestsGoverned(id: string, request: Request, policy: Policy, catalogue: Catalogue,
                             health: string -> HealthStatus, hash: nat, n: nat, sent: ProviderRequest)
    returns (m: Model)
    requires policy.Valid() && hash <= HASH_SPACE && Loaded(catalogue)
    requires n <= |Chain(Evaluate(id, request, policy, catalogue, health, hash), policy.fallback)|
    requires sent in Requests(Chain(Evaluate(id, request, policy, catalogue, health, hash), policy.fallback), n, request,
                              ResolveEffective(request.requirements, policy))
    ensures Governed(m, sent, request, policy, catalogue, health)
  {
    var chain := Chain(Evaluate(id, request, policy, catalogue, health, hash), policy.fallback);
    var req := ResolveEffective(request.requirements, policy);
    RequestsAt(chain, n, request, req);
    var i :| 0 <= i < n && Requests(chain, n, request, req)[i] == sent;
    m := ChainIsGoverned(id, request, policy, catalogue, health, hash, chain[i]);
  }

  /** Two catalogues that hold the same models, in any order, evaluate to the same selection and
      the same chain. */
  lemma ReorderingKeepsChain(id: string, request: Request, policy: Policy, c1: Catalogue, c2: Catalogue,
                             health: string -> HealthStatus, hash: nat)
    requires policy.ExperimentValid() && hash <= HASH_SPACE && Loaded(c1) && Loaded(c2)
    requires multiset(c1.models) == multiset(c2.models)
    ensures var d1 := Evaluate(id, request, policy, c1, health, hash);
            var d2 := Evaluate(id, request, policy, c2, health, hash);
            d1.selected == d2.selected && d1.reasonCodes == d2.reasonCodes && Chain(d1, policy.fallback) == Chain(d2, policy.fallback)
  {
    var req := ResolveEffective(request.requirements, policy);
    var m1, m2 := c1.FindByCapability(req.capability), c2.FindByCapability(req.capability);
    SameMembers(c1, c2, req.capability);
    assert m1 != [] ==> m1[0] in m1;
    assert m2 != [] ==> m2[0] in m2;
    assert m1 == [] <==> m2 == [];
    CandidatesSameMembers(m1, m2, req, policy, request.messages, health);
    CandidatesUnique(c1, req, policy, request.messages, health);
    var k1 := Candidates(m1, req, policy, request.messages, health);
    var k2 := Candidates(m2, req, policy, request.messages, health);
    Strategy.SelectionIgnoresOrder(EligibleOnly(k1), EligibleOnly(k2), policy, hash);
    RouteIgnoresOrder(id, request, policy, k1, k2, Strategy.Select(EligibleOnly(k1), policy, hash));
  }

  lemma RouteIgnoresOrder(id: string, request: Request, policy: Policy, k1: seq<Candidate>, k2: seq<Candidate>,
                          selection: Strategy.Selection)
    requires forall c :: c in k1 <==> c in k2
    ensures var d1, d2 := Route(id, request, policy, k1, selection), Route(id, request, policy, k2, selection);
            && d1.selected == d2.selected && d1.reasonCodes == d2.reasonCodes
            && Chain(d1, policy.fallback) == Chain(d2, policy.fallback)
  {
    assert EligibleAliases(k1) == EligibleAliases(k2);
  }

  lemma SameMembers(c1: Catalogue, c2: Catalogue, tag: string)
    requires Loaded(c1) && Loaded(c2) && multiset(c1.models) == multiset(c2.models)
    ensures forall m :: m in c1.FindByCapability(tag) <==> m in c2.FindByCapability(tag)
  {
    forall m ensures m in c1.FindByCapability(tag) <==> m in c2.FindByCapability(tag) {
      TaggedMembers(c1.models, tag, m);
      TaggedMembers(c2.models, tag, m);
      assert m in c1.models <==> m in multiset(c1.models);
      assert m in c2.models <==> m in multiset(c2.models);
    }
  }

  lemma CandidatesSameMembers(m1: seq<Model>, m2: seq<Model>, req: EffectiveRequirements, policy: Policy,
                              messages: seq<Message>, health: string -> HealthStatus)
    requires forall m :: m in m1 <==> m in m2
    ensures forall c :: c in Candidates(m1, req, policy, messages, health) <==> c in Candidates(m2, req, policy, messages, health)
  {
    CandidatesIncluded(m1, m2, req, policy, messages, health);
    CandidatesIncluded(m2, m1, req, policy, messages, health);
  }

  lemma CandidatesIncluded(m1: seq<Model>, m2: seq<Model>, req: EffectiveRequirements, policy: Policy,
                           messages: seq<Message>, health: string -> HealthStatus)
    requires forall m :: m in m1 ==> m in m2
    ensures forall c :: c in Candidates(m1, req, policy, messages, health) ==> c in Candidates(m2, req, policy, messages, health)
  {
    var k1, k2 := Candidates(m1, req, policy, messages, health), Candidates(m2, req, policy, messages, health);
    forall i | 0 <= i < |k1| ensures k1[i] in k2 {
      assert m1[i] in m2;
      var j :| 0 <= j < |m2| && m2[j] == m1[i];
      assert k2[j] == k1[i];
    }
  }

  lemma CandidatesUnique(c: Catalogue, req: EffectiveRequirements, policy: Policy, messages: seq<Message>,
                         health: string -> HealthStatus)
    requires Loaded(c)
    ensures Strategy.UniqueAliases(EligibleOnly(Candidates(c.FindByCapability(req.capability), req, policy, messages, health)))
  {
    var models := c.FindByCapability(req.capability);
    var candidates := Candidates(models, req, policy, messages, health);
    forall i, j | 0 <= i < |models| && 0 <= j < |models| && candidates[i].alias == candidates[j].alias
      ensures candidates[i] == candidates[j]
    {
      TaggedMembers(c.models, req.capability, models[i]);
      TaggedMembers(c.models, req.capability, models[j]);
    }
  }
}
