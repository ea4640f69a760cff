/** The streaming entry, from the request to the generator (`_invoke_stream_uncached` in
    src/application/invocation_orchestrator.py). */
module StreamingInvocation {
  import opened Domain
  import opened RequirementsResolution
  import opened HealthRepository
  import opened Cohorts
  import opened Catalogue
  import opened RouteEvaluation
  import opened CandidateChain
  import Orchestrator
  import opened Streaming
  import opened StreamingRuns

  /** What the generator works from once the request is evaluated. */
  function PlanFor(id: string, request: Request, policy: Policy, catalogue: Catalogue, health: string -> HealthStatus,
                   hash: nat, streams: seq<Stream>, latency: seq<nat>): Plan
    requires policy.ExperimentValid() && hash <= HASH_SPACE
  {
    var d := Evaluate(id, request, policy, catalogue, health, hash);
    Plan(d, Chain(d, policy.fallback), request, ResolveEffective(request.requirements, policy), streams, latency)
  }

  lemma EvaluatedPlanIsKnown(id: string, request: Request, policy: Policy, catalogue: Catalogue, health: string -> HealthStatus,
                             hash: nat, streams: seq<Stream>, latency: seq<nat>)
    requires policy.Valid() && hash <= HASH_SPACE
    requires policy.fallback.maximumAttempts <= |streams| && policy.fallback.maximumAttempts <= |latency|
    ensures PlanFor(id, request, policy, catalogue, health, hash, streams, latency).Known()
  {
    EvaluationWellFormed(id, request, policy, catalogue, health, hash);
    Orchestrator.ChainMembersFound(Evaluate(id, request, policy, catalogue, health, hash), policy.fallback);
  }

  /** Evaluates, builds the chain and hands back the generator, nothing sent yet. */
  method InvokeStreamUncached(id: string, request: Request, policy: Policy, catalogue: Catalogue, hash: nat,
                              streams: seq<Stream>, latency: seq<nat>, health: InMemoryModelHealthRepository)
    returns (session: StreamSession)
    requires policy.Valid() && hash <= HASH_SPACE && health.Valid()
    requires policy.fallback.maximumAttempts <= |streams| && policy.fallback.maximumAttempts <= |latency|
    ensures fresh(session) && session.Valid() && session.health == health && session.progress == INITIAL && session.sent == []
    ensures var view := Orchestrator.HealthView(health.failures, health.degradedAfter, health.unavailableAfter);
            session.plan == PlanFor(id, request, policy, catalogue, view, hash, streams, latency)
  {
    var view := Orchestrator.HealthView(health.failures, health.degradedAfter, health.unavailableAfter);
    var d := Evaluate(id, request, policy, catalogue, view, hash);
    var chain := BuildCandidateChain(d, policy.fallback);
    EvaluatedPlanIsKnown(id, request, policy, catalogue, view, hash, streams, latency);
    session := new StreamSession(
      Plan(d, chain, request, ResolveEffective(request.requirements, policy), streams, latency), health);
  }

  /** The iterator `invoke_stream` returns: nothing happens until the first pull, which evaluates the route
      against the health of that moment. */
  class LazyStream {
    const id: string
    const request: Request
    const policy: Policy
    const catalogue: Catalogue
    const hash: nat
    const streams: seq<Stream>
    const latency: seq<nat>
    const health: InMemoryModelHealthRepository
    var session: StreamSession?

    ghost predicate Ready() {
      && policy.Valid() && hash <= HASH_SPACE && health.Valid()
      && policy.fallback.maximumAttempts <= |streams| && policy.fallback.maximumAttempts <= |latency|
    }

    constructor (id: string, request: Request, policy: Policy, catalogue: Catalogue, hash: nat, streams: seq<Stream>,
                 latency: seq<nat>, health: InMemoryModelHealthRepository)
      ensures this.id == id && this.request == request && this.policy == policy && this.catalogue == catalogue
      ensures this.hash == hash && this.streams == streams && this.latency == latency && this.health == health
      ensures session == null
    {
      this.id, this.request, this.policy, this.catalogue := id, request, policy, catalogue;
      this.hash, this.streams, this.latency, this.health, this.session := hash, streams, latency, health, null;
    }

    /** The first pull. */
    method First() returns (r: Pull)
      requires Ready() && session == null
      modifies this, health
      ensures session != null && fresh(session) && session.Valid() && session.health == health
      ensures var view := Orchestrator.HealthView(old(health.failures), health.degradedAfter, health.unavailableAfter);
              && session.plan == PlanFor(id, request, policy, catalogue, view, hash, streams, latency)
              && Move(session.progress, r) == FirstMove(session.plan)
      ensures health.failures == RecordedAll(old(health.failures), session.progress.attempts)
    {
      var started := InvokeStreamUncached(id, request, policy, catalogue, hash, streams, latency, health);
      r := started.Start();
      session := started;
    }

    /** Any later pull. */
    method Later() returns (r: Pull)
      requires session != null && session.Valid() && session.health == health
      modifies session, health
      ensures session.Valid() && Move(session.progress, r) == Step(session.plan, old(session.progress))
    {
      ghost var recorded;
      r, recorded := session.Next();
    }

    /** One pull: the first evaluates, the others step. */
    method Next() returns (r: Pull)
      requires if session == null then Ready() else session.Valid() && session.health == health
      modifies this, health, if session == null then {} else {session}
      ensures session != null && session.Valid() && session.health == health
      ensures old(session) == null ==>
                var view := Orchestrator.HealthView(old(health.failures), health.degradedAfter, health.unavailableAfter);
                && session.plan == PlanFor(id, request, policy, catalogue, view, hash, streams, latency)
                && Move(session.progress, r) == FirstMove(session.plan)
      ensures old(session) != null ==>
                session == old(session) && Move(session.progress, r) == Step(session.plan, old(session.progress))
    {
      if session == null {
        r := First();
      } else {
        r := Later();
      }
    }
  }

  /** Governance of the streaming form: however many pulls the caller makes and whatever the streams do,
      every request handed to the provider is governed. */
  lemma StreamedRequestsGoverned(id: string, request: Request, policy: Policy, catalogue: Catalogue,
                                 health: string -> HealthStatus, hash: nat, streams: seq<Stream>, latency: seq<nat>,
                                 pulls: nat, sent: ProviderRequest)
    returns (m: Model)
    requires policy.Valid() && hash <= HASH_SPACE && Loaded(catalogue)
    requires PlanFor(id, request, policy, catalogue, health, hash, streams, latency).Known()
    requires var plan := PlanFor(id, request, policy, catalogue, health, hash, streams, latency);
             var tried := After(plan, pulls).tried;
             tried <= |plan.chain| && sent in Requests(plan.chain, tried, plan.request, plan.req)
    ensures Governed(m, sent, request, policy, catalogue, health)
  {
    var plan := PlanFor(id, request, policy, catalogue, health, hash, streams, latency);
    m := SentRequestsGoverned(id, request, policy, catalogue, health, hash, After(plan, pulls).tried, sent);
  }
}
