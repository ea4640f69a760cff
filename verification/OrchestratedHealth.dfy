/** Orchestrated requests in flight together over one health repository. A request reads the health of the
    models that declare its capability, one at a time, evaluates its route from those readings, and
    attempts the resulting chain in order; other requests act in between. Each such run is a run of
    `HealthProtocol`, whose guards are therefore what evaluation and the chain supply. */
module OrchestratedHealth {
  import opened Domain
  import opened RequirementsResolution
  import opened HealthRepository
  import opened Cohorts
  import opened Catalogue
  import opened RouteEvaluation
  import opened CandidateChain
  import P = HealthProtocol

  datatype Input = Input(id: string, request: Request, policy: Policy, catalogue: Catalogue, hash: nat)
  {
    ghost predicate Valid() { policy.Valid() && hash <= HASH_SPACE && Loaded(catalogue) }
  }

  type Readings = map<string, HealthStatus>

  datatype Work =
    | Reading(input: Input, seen: Readings)
    | Walking(input: Input, seen: Readings, chain: seq<string>, next: nat)

  datatype State = State(failures: Failures, requests: map<P.RequestId, Work>)

  datatype Step =
    | Begin(r: P.RequestId, input: Input)
    | Read(r: P.RequestId, alias: string)
    | Route(r: P.RequestId, chain: seq<string>)
    | Attempt(r: P.RequestId, status: AttemptStatus)
    | Finish(r: P.RequestId)

  function ChainFor(input: Input, health: string -> HealthStatus): seq<string>
    requires input.Valid()
  {
    Chain(Evaluate(input.id, input.request, input.policy, input.catalogue, health, input.hash), input.policy.fallback)
  }

  /** The models evaluation consults. */
  function Consulted(input: Input): seq<Model> {
    input.catalogue.FindByCapability(input.request.requirements.capability)
  }

  /** The repository, asked about a model that was read, answers what was read. */
  ghost predicate Answers(health: string -> HealthStatus, seen: Readings) {
    forall alias | alias in seen :: health(alias) == seen[alias]
  }

  /** Every model evaluation consults has been read, and evaluating with those answers leads to this chain. */
  ghost predicate RoutesTo(input: Input, seen: Readings, chain: seq<string>) {
    && input.Valid() && (forall m | m in Consulted(input) :: m.alias in seen)
    && forall health | Answers(health, seen) :: chain == ChainFor(input, health)
  }

  ghost predicate Enabled(s: State, step: Step) {
    match step
    case Begin(r, input) => r !in s.requests && input.Valid()
    case Read(r, alias) => r in s.requests && s.requests[r].Reading? && alias !in s.requests[r].seen
    case Route(r, chain) => r in s.requests && s.requests[r].Reading? && RoutesTo(s.requests[r].input, s.requests[r].seen, chain)
    case Attempt(r, status) => r in s.requests && s.requests[r].Walking? && s.requests[r].next < |s.requests[r].chain|
    case Finish(r) => r in s.requests
  }

  ghost function Apply(s: State, degradedAfter: nat, limit: nat, step: Step): State
    requires 1 <= degradedAfter < limit && Enabled(s, step)
  {
    match step
    case Begin(r, input) => s.(requests := s.requests[r := Reading(input, map[])])
    case Read(r, alias) =>
      var work := s.requests[r];
      s.(requests := s.requests[r := Reading(work.input, work.seen[alias := Health(s.failures, degradedAfter, limit, alias)])])
    case Route(r, chain) =>
      var work := s.requests[r];
      s.(requests := s.requests[r := Walking(work.input, work.seen, chain, 0)])
    case Attempt(r, status) =>
      var work := s.requests[r];
      State(Recorded(s.failures, work.chain[work.next], status), s.requests[r := work.(next := work.next + 1)])
    case Finish(r) => s.(requests := s.requests - {r})
  }

  /** Runs from a fresh repository, with the given thresholds. */
  ghost predicate IsRun(degradedAfter: nat, limit: nat, states: seq<State>, steps: seq<Step>) {
    && 1 <= degradedAfter < limit && |states| == |steps| + 1
    && states[0].failures == map[] && states[0].requests == map[]
    && forall i | 0 <= i < |steps| ::
         Enabled(states[i], steps[i]) && states[i + 1] == Apply(states[i], degradedAfter, limit, steps[i])
  }

  // ---- What evaluation and the chain supply ----

  /** No alias twice, and each one read and not UNAVAILABLE when read. */
  ghost predicate Approved(chain: seq<string>, seen: Readings) {
    && (forall i | 0 <= i < |chain| :: chain[i] in seen && !seen[chain[i]].Unavailable?)
    && (forall i, j | 0 <= i < j < |chain| :: chain[i] != chain[j])
  }

  /** What was read, and UNAVAILABLE for the rest. */
  function View(seen: Readings): string -> HealthStatus {
    alias => if alias in seen then seen[alias] else Unavailable
  }

  /** The readings determine the chain: evaluation consults nothing else. So a request that has read the
      models it consults can route. */
  lemma ReadingsDetermineChain(input: Input, seen: Readings)
    requires input.Valid() && forall m | m in Consulted(input) :: m.alias in seen
    ensures RoutesTo(input, seen, ChainFor(input, View(seen)))
  {
    forall health | Answers(health, seen) ensures ChainFor(input, View(seen)) == ChainFor(input, health) {
      SameAnswers(input, View(seen), health);
    }
  }

  lemma SameAnswers(input: Input, a: string -> HealthStatus, b: string -> HealthStatus)
    requires input.Valid() && forall m | m in Consulted(input) :: a(m.alias) == b(m.alias)
    ensures ChainFor(input, a) == ChainFor(input, b)
  {
    var req := ResolveEffective(input.request.requirements, input.policy);
    assert Candidates(Consulted(input), req, input.policy, input.request.messages, a)
        == Candidates(Consulted(input), req, input.policy, input.request.messages, b);
  }

  lemma ChainIsApproved(input: Input, seen: Readings, chain: seq<string>)
    requires RoutesTo(input, seen, chain)
    ensures Approved(chain, seen)
  {
    var health := View(seen);
    assert Answers(health, seen);
    assert chain == ChainFor(input, health);
    forall i | 0 <= i < |chain| ensures chain[i] in seen && !seen[chain[i]].Unavailable? {
      var m := ChainIsGoverned(input.id, input.request, input.policy, input.catalogue, health, input.hash, chain[i]);
    }
    EvaluationWellFormed(input.id, input.request, input.policy, input.catalogue, health, input.hash);
    ChainProperties(Evaluate(input.id, input.request, input.policy, input.catalogue, health, input.hash), input.policy.fallback);
  }

  ghost predicate Sound(s: State) {
    forall r | r in s.requests && s.requests[r].Walking? ::
      s.requests[r].next <= |s.requests[r].chain| && Approved(s.requests[r].chain, s.requests[r].seen)
  }

  lemma SoundPreserved(s: State, degradedAfter: nat, limit: nat, step: Step)
    requires 1 <= degradedAfter < limit && Enabled(s, step) && Sound(s)
    ensures Sound(Apply(s, degradedAfter, limit, step))
  {
    if step.Route? {
      ChainIsApproved(s.requests[step.r].input, s.requests[step.r].seen, step.chain);
    }
  }

  // ---- Refinement ----

  function Usable(seen: Readings): set<string> {
    set alias | alias in seen && !seen[alias].Unavailable?
  }

  function Attempted(chain: seq<string>, next: nat): set<string>
    requires next <= |chain|
  {
    set i | 0 <= i < next :: chain[i]
  }

  /** A request as the protocol sees it. */
  function InFlight(work: Work): P.InFlight {
    P.InFlight(Usable(work.seen), if work.Walking? && work.next <= |work.chain| then Attempted(work.chain, work.next) else {})
  }

  function Abstract(s: State): P.State {
    P.State(s.failures, map r | r in s.requests :: InFlight(s.requests[r]))
  }

  /** The protocol step a step amounts to; routing is internal to its request. */
  function Image(s: State, step: Step): Option<P.Step> {
    match step
    case Begin(r, input) => Some(P.Begin(r))
    case Read(r, alias) => Some(P.Check(r, alias))
    case Route(r, chain) => None
    case Attempt(r, status) =>
      if r in s.requests && s.requests[r].Walking? && s.requests[r].next < |s.requests[r].chain|
      then Some(P.Invoke(r, s.requests[r].chain[s.requests[r].next], status)) else None
    case Finish(r) => Some(P.Finish(r))
  }

  lemma AbstractUpdate(s: State, failures: Failures, r: P.RequestId, work: Work)
    ensures Abstract(State(failures, s.requests[r := work])) == P.State(failures, Abstract(s).requests[r := InFlight(work)])
  {
    assert Abstract(State(failures, s.requests[r := work])).requests == Abstract(s).requests[r := InFlight(work)];
  }

  /** Reading a model approves it in the protocol exactly when it was not UNAVAILABLE. */
  lemma ReadIsCheck(s: State, degradedAfter: nat, limit: nat, step: Step)
    requires 1 <= degradedAfter < limit && step.Read? && Enabled(s, step)
    ensures Abstract(Apply(s, degradedAfter, limit, step)) == P.Apply(Abstract(s), limit, P.Check(step.r, step.alias))
  {
    var work := s.requests[step.r];
    var h := Health(s.failures, degradedAfter, limit, step.alias);
    var read := Reading(work.input, work.seen[step.alias := h]);
    AbstractUpdate(s, s.failures, step.r, read);
    if h.Unavailable? {
      assert Usable(read.seen) == Usable(work.seen);
      assert Abstract(s).requests[step.r := InFlight(work)] == Abstract(s).requests;
    } else {
      assert Usable(read.seen) == Usable(work.seen) + {step.alias};
    }
  }

  /** The next attempt of a chain is one the protocol allows: its model was approved and not yet attempted. */
  lemma AttemptIsInvoke(s: State, degradedAfter: nat, limit: nat, step: Step)
    requires 1 <= degradedAfter < limit && step.Attempt? && Enabled(s, step) && Sound(s)
    ensures var invoke := P.Invoke(step.r, s.requests[step.r].chain[s.requests[step.r].next], step.status);
            P.Enabled(Abstract(s), invoke) && Abstract(Apply(s, degradedAfter, limit, step)) == P.Apply(Abstract(s), limit, invoke)
  {
    var work := s.requests[step.r];
    var alias := work.chain[work.next];
    AbstractUpdate(s, Recorded(s.failures, alias, step.status), step.r, work.(next := work.next + 1));
    assert Attempted(work.chain, work.next + 1) == Attempted(work.chain, work.next) + {alias};
  }

  /** Routing shows the protocol nothing. */
  lemma RouteIsInternal(s: State, degradedAfter: nat, limit: nat, step: Step)
    requires 1 <= degradedAfter < limit && step.Route? && Enabled(s, step)
    ensures Abstract(Apply(s, degradedAfter, limit, step)) == Abstract(s)
  {
    var work := s.requests[step.r];
    AbstractUpdate(s, s.failures, step.r, Walking(work.input, work.seen, step.chain, 0));
    assert Attempted(step.chain, 0) == {};
    assert Abstract(s).requests[step.r := InFlight(work)] == Abstract(s).requests;
  }

  /** A request enters with nothing read and leaves with everything it had. */
  lemma BeginAndFinishCarryOver(s: State, degradedAfter: nat, limit: nat, step: Step)
    requires 1 <= degradedAfter < limit && (step.Begin? || step.Finish?) && Enabled(s, step)
    ensures P.Enabled(Abstract(s), Image(s, step).value)
    ensures Abstract(Apply(s, degradedAfter, limit, step)) == P.Apply(Abstract(s), limit, Image(s, step).value)
  {
    if step.Begin? {
      AbstractUpdate(s, s.failures, step.r, Reading(step.input, map[]));
      assert Usable(map[]) == {};
    } else {
      assert Abstract(Apply(s, degradedAfter, limit, step)).requests == Abstract(s).requests - {step.r};
    }
  }

  /** The step is the protocol step it amounts to, or invisible to the protocol. */
  ghost predicate Simulated(s: State, degradedAfter: nat, limit: nat, step: Step)
    requires 1 <= degradedAfter < limit && Enabled(s, step)
  {
    var a, t := Abstract(s), Abstract(Apply(s, degradedAfter, limit, step));
    match Image(s, step)
    case None => t == a
    case Some(image) => P.Enabled(a, image) && t == P.Apply(a, limit, image)
  }

  /** Every step of orchestrated requests is a step of the protocol, guards included, or internal. */
  lemma Simulates(s: State, degradedAfter: nat, limit: nat, step: Step)
    requires 1 <= degradedAfter < limit && Enabled(s, step) && Sound(s)
    ensures Simulated(s, degradedAfter, limit, step)
  {
    match step
    case Read(r, alias) => ReadIsCheck(s, degradedAfter, limit, step);
    case Attempt(r, status) => AttemptIsInvoke(s, degradedAfter, limit, step);
    case Route(r, chain) => RouteIsInternal(s, degradedAfter, limit, step);
    case _ => BeginAndFinishCarryOver(s, degradedAfter, limit, step);
  }

  // ---- The counter bound, for orchestrated requests ----

  lemma {:induction false} AlwaysSound(degradedAfter: nat, limit: nat, states: seq<State>, steps: seq<Step>, n: nat)
    requires IsRun(degradedAfter, limit, states, steps) && n < |states|
    ensures Sound(states[n])
  {
    if n > 0 {
      AlwaysSound(degradedAfter, limit, states, steps, n - 1);
      SoundPreserved(states[n - 1], degradedAfter, limit, steps[n - 1]);
    }
  }

  lemma BoundKept(s: State, degradedAfter: nat, limit: nat, k: nat, step: Step, alias: string)
    requires 1 <= degradedAfter < limit && Enabled(s, step) && Sound(s)
    requires P.Bounded(Abstract(s), limit, k, alias) && |s.requests| <= k
    ensures P.Bounded(Abstract(Apply(s, degradedAfter, limit, step)), limit, k, alias)
  {
    Simulates(s, degradedAfter, limit, step);
    var a := Abstract(s);
    assert a.requests.Keys == s.requests.Keys;
    assert |a.requests| == |a.requests.Keys| && |s.requests| == |s.requests.Keys|;
    match Image(s, step)
    case None =>
    case Some(image) => P.BoundPreserved(a, limit, k, image, alias);
  }

  lemma {:induction false} BoundHolds(degradedAfter: nat, limit: nat, k: nat, states: seq<State>, steps: seq<Step>,
                                      alias: string, n: nat)
    requires IsRun(degradedAfter, limit, states, steps) && n < |states|
    requires forall i | 0 <= i < n :: |states[i].requests| <= k
    ensures P.Bounded(Abstract(states[n]), limit, k, alias)
  {
    if n > 0 {
      BoundHolds(degradedAfter, limit, k, states, steps, alias, n - 1);
      AlwaysSound(degradedAfter, limit, states, steps, n - 1);
      BoundKept(states[n - 1], degradedAfter, limit, k, steps[n - 1], alias);
    }
  }

  /** With at most `k` orchestrated requests in flight a failure counter never exceeds
      `unavailable_after - 1 + k`, whatever their policies, catalogues and providers. */
  lemma CounterBound(degradedAfter: nat, limit: nat, k: nat, states: seq<State>, steps: seq<Step>, alias: string, n: nat)
    requires IsRun(degradedAfter, limit, states, steps) && n < |states|
    requires forall i | 0 <= i < n :: |states[i].requests| <= k
    ensures FailureCount(states[n].failures, alias) <= limit - 1 + k
  {
    BoundHolds(degradedAfter, limit, k, states, steps, alias, n);
  }

  // ---- Absorption ----

  lemma AbsorptionKept(s: State, degradedAfter: nat, limit: nat, step: Step, alias: string)
    requires 1 <= degradedAfter < limit && Enabled(s, step) && Sound(s) && P.Absorbed(Abstract(s), limit, alias)
    ensures var t := Apply(s, degradedAfter, limit, step);
            P.Absorbed(Abstract(t), limit, alias) && FailureCount(t.failures, alias) == FailureCount(s.failures, alias)
    ensures step.Attempt? ==> s.requests[step.r].chain[s.requests[step.r].next] != alias
  {
    Simulates(s, degradedAfter, limit, step);
    match Image(s, step)
    case None =>
    case Some(image) => P.AbsorptionPreserved(Abstract(s), limit, image, alias);
  }

  /** Sequential traffic: from the moment a model is UNAVAILABLE no orchestrated request attempts it again. */
  lemma {:induction false} SequentialUnavailableAbsorbs(degradedAfter: nat, limit: nat, states: seq<State>, steps: seq<Step>,
                                                        alias: string, i: nat, n: nat)
    requires IsRun(degradedAfter, limit, states, steps) && i <= n < |states|
    requires forall j | 0 <= j < i :: |states[j].requests| <= 1
    requires limit <= FailureCount(states[i].failures, alias)
    ensures P.Absorbed(Abstract(states[n]), limit, alias) && FailureCount(states[n].failures, alias) == limit
    ensures n < |steps| && steps[n].Attempt? ==>
              states[n].requests[steps[n].r].chain[states[n].requests[steps[n].r].next] != alias
  {
    if n == i {
      BoundHolds(degradedAfter, limit, 1, states, steps, alias, i);
    } else {
      SequentialUnavailableAbsorbs(degradedAfter, limit, states, steps, alias, i, n - 1);
      AlwaysSound(degradedAfter, limit, states, steps, n - 1);
      AbsorptionKept(states[n - 1], degradedAfter, limit, steps[n - 1], alias);
    }
    if n < |steps| {
      AlwaysSound(degradedAfter, limit, states, steps, n);
      AbsorptionKept(states[n], degradedAfter, limit, steps[n], alias);
    }
  }
}
