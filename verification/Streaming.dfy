/** Streaming invocation (`_invoke_stream_uncached` and `_finalize_stream` in
    src/application/invocation_orchestrator.py): a generator, as a machine advanced by `Next`. */
module Streaming {
  import opened Domain
  import opened HealthRepository
  import opened Aggregation
  import opened AttemptHistory
  import opened CandidateChain
  import Strategy

  datatype StreamEnd = Drains | Breaks(category: ErrorCategory)

  /** What the provider does for one candidate; `streams[i]` below answers the i-th candidate. */
  datatype Stream = FailsToStart(category: ErrorCategory) | Streams(first: Chunk, rest: seq<Chunk>, end: StreamEnd)
  {
    /** A stream that breaks midway ends the walk and contributes no code. */
    function AsLeg(alias: string, latencyMs: nat): Leg {
      match this
      case FailsToStart(category) => Leg(Attempt(alias, StatusFor(category), latencyMs), !category.Permanent?, CodeFor(category))
      case Streams(_, _, end) =>
        Leg(Attempt(alias, if end.Drains? then Succeeded else StatusFor(end.category), latencyMs), false, None)
    }

    function Chunks(): seq<Chunk> { if Streams? then [first] + rest else [] }
  }

  /** Everything fixed when the generator is created. */
  datatype Plan = Plan(
    decision: Decision,
    chain: seq<string>,
    request: Request,
    req: EffectiveRequirements,
    streams: seq<Stream>,
    latency: seq<nat>)
  {
    predicate Covered() { |chain| <= |streams| && |chain| <= |latency| }

    /** Every chain member is a considered candidate, so aggregation can look it up. */
    ghost predicate Known() {
      Covered() && forall alias | alias in chain :: Strategy.Find(decision.candidates, alias).Some?
    }

    function Legs(): (r: seq<Leg>)
      requires Covered()
      ensures |r| == |chain| && forall i | 0 <= i < |r| :: r[i] == streams[i].AsLeg(chain[i], latency[i])
    {
      seq(|chain|, i requires 0 <= i < |chain| && Covered() => streams[i].AsLeg(chain[i], latency[i]))
    }

    /** The n-th candidate's stream started: the model choice is final. */
    predicate CommittedAt(n: nat)
      requires Covered() && n <= |chain|
    {
      0 < n && streams[n - 1].Streams?
    }

    /** Attempts recorded when the walk reaches the n-th candidate: a started stream is not one yet. */
    function Recorded(n: nat): nat
      requires Covered() && n <= |chain|
    {
      if CommittedAt(n) then n - 1 else n
    }

    function SucceededAlias(n: nat): Option<string>
      requires Covered() && n <= |chain|
    {
      if CommittedAt(n) && streams[n - 1].end.Drains? then Some(chain[n - 1]) else None
    }

    /** Unlike the synchronous form, a fallback is marked as soon as its stream starts. */
    predicate FallbackMarked(n: nat)
      requires Covered() && n <= |chain|
    {
      CommittedAt(n) && Some(chain[n - 1]) != decision.selected
    }

    /** The failure codes gathered along the way, FALLBACK_SELECTED last. */
    function Marked(legs: seq<Leg>, n: nat): seq<ReasonCode>
      requires Covered() && n <= |chain| && n <= |legs|
    {
      if FallbackMarked(n) then FailureCodes(legs, n) + [FallbackSelected] else FailureCodes(legs, n)
    }

    function ExtraCodes(n: nat): seq<ReasonCode>
      requires Covered() && n <= |chain|
    {
      Marked(Legs(), n)
    }

    ghost predicate Added(n: nat, code: ReasonCode)
      requires Covered() && n <= |chain|
    {
      CodeAdded(Legs(), n, code) || (code.FallbackSelected? && FallbackMarked(n))
    }

    ghost function AddedCodes(n: nat): (r: set<ReasonCode>)
      requires Covered() && n <= |chain|
      ensures forall code :: code in r <==> Added(n, code)
    {
      set code | Added(n, code)
    }

    /** All chunks of the n-th candidate. */
    function LastChunks(n: nat): seq<Chunk>
      requires Covered() && n <= |chain|
    {
      if n == 0 then [] else streams[n - 1].Chunks()
    }
  }

  ghost predicate IsResult(plan: Plan, r: InferenceResult)
    requires plan.Covered()
  {
    && IsHistory(plan.Legs(), r.attempts) && r.response.None?
    && var n := |r.attempts|;
       Reports(plan.decision, plan.SucceededAlias(n), plan.AddedCodes(n), r.decision)
  }

  /** Walks the chain until a stream starts; `n` candidates were tried. `legs` is what each would do. */
  method WalkToFirstChunk(plan: Plan, legs: seq<Leg>, health: InMemoryModelHealthRepository)
    returns (walked: seq<Attempt>, codes: seq<ReasonCode>, requests: seq<ProviderRequest>, n: nat)
    requires plan.Covered() && |legs| == |plan.chain|
    requires forall i | 0 <= i < |legs| :: plan.streams[i].Streams? ==> !legs[i].movesOn && legs[i].code.None?
    modifies health
    ensures StopsAfter(legs, n)
    ensures codes == plan.Marked(legs, n)
    ensures |walked| == plan.Recorded(n) && walked == Attempts(legs, |walked|)
    ensures requests == Requests(plan.chain, n, plan.request, plan.req)
    ensures health.failures == HealthAfter(old(health.failures), legs, |walked|)
  {
    walked, codes, requests, n := [], [], [], 0;
    while n < |plan.chain|
      invariant n == |walked| <= |plan.chain| && walked == Attempts(legs, n)
      invariant AllMovedOn(legs, n) && !plan.CommittedAt(n)
      invariant codes == FailureCodes(legs, n)
      invariant requests == Requests(plan.chain, n, plan.request, plan.req)
      invariant health.failures == HealthAfter(old(health.failures), legs, n)
    {
      var leg := legs[n];
      requests := requests + [RequestFor(plan.chain[n], plan.request, plan.req)];
      n := n + 1;
      if plan.streams[n - 1].Streams? {
        if Some(plan.chain[n - 1]) != plan.decision.selected {
          codes := codes + [FallbackSelected];
        }
        return;
      }
      walked := walked + [leg.attempt];
      health.RecordOutcome(leg.attempt.alias, leg.attempt.status);
      if leg.code.Some? {
        codes := codes + [leg.code.value];
      }
      if !leg.movesOn {
        return;
      }
    }
  }

  datatype Phase = NotStarted | Delivering(remaining: seq<Chunk>) | Exhausted

  datatype Pull = Yielded(chunk: Chunk) | Stopped | Raised(category: ErrorCategory)

  /** The generator's locals, with what has been published (`finalised`), how many candidates were
      handed to the provider (`tried`) and what the caller has received (`delivered`). */
  datatype Progress = Progress(
    phase: Phase,
    attempts: seq<Attempt>,
    extra: seq<ReasonCode>,
    finalised: seq<InferenceResult>,
    tried: nat,
    delivered: seq<Chunk>)

  const INITIAL: Progress := Progress(NotStarted, [], [], [], 0, [])

  /** A stream has started and some of its chunks are still to come. */
  ghost predicate Committed(plan: Plan, p: Progress)
    requires plan.Covered()
  {
    && p.tried <= |plan.chain| && plan.CommittedAt(p.tried) && AllMovedOn(plan.Legs(), p.tried - 1)
    && p.attempts == Attempts(plan.Legs(), p.tried - 1) && p.extra == plan.ExtraCodes(p.tried)
    && p.phase.Delivering? && p.delivered != [] && p.delivered + p.phase.remaining == plan.LastChunks(p.tried)
    && p.finalised == []
  }

  ghost predicate Ended(plan: Plan, p: Progress)
    requires plan.Covered()
  {
    && p.phase.Exhausted? && p.tried == |p.attempts| <= |plan.chain| && |p.finalised| == 1
    && IsResult(plan, p.finalised[0]) && p.finalised[0].attempts == p.attempts
    && p.delivered == plan.LastChunks(p.tried)
  }

  /** Every reachable state: chunks come only from the last candidate tried, and the request is
      finalised exactly once, exactly when the generator has ended. */
  ghost predicate Consistent(plan: Plan, p: Progress) {
    plan.Covered() && (p == INITIAL || Committed(plan, p) || Ended(plan, p))
  }

  /** Aggregates what the walk gathered, publishes it and ends the generator. */
  function Finalise(plan: Plan, p: Progress): Progress
    requires plan.Known() && p.tried <= |plan.chain|
  {
    var final := Aggregate(plan.decision, plan.SucceededAlias(p.tried), p.extra);
    p.(phase := Exhausted, finalised := p.finalised + [InferenceResult(final, None, p.attempts)])
  }

  lemma FinaliseEnds(plan: Plan, p: Progress)
    requires plan.Known() && StopsAfter(plan.Legs(), p.tried)
    requires p.attempts == Attempts(plan.Legs(), p.tried) && p.extra == plan.ExtraCodes(p.tried)
    requires p.finalised == [] && p.delivered == plan.LastChunks(p.tried)
    ensures Ended(plan, Finalise(plan, p))
  {
    var n := p.tried;
    WalkIsHistory(plan.Legs(), n);
    FailureCodesAreAdded(plan.Legs(), n);
    AggregateReports(plan.decision, plan.SucceededAlias(n), plan.ExtraCodes(n), plan.AddedCodes(n));
  }

  /** The attempt that the end of the committed stream records. */
  function EndAttempt(plan: Plan, p: Progress): Progress
    requires plan.Covered() && 0 < p.tried <= |plan.chain|
  {
    var last := p.tried - 1;
    p.(attempts := p.attempts + [plan.streams[last].AsLeg(plan.chain[last], plan.latency[last]).attempt])
  }

  /** What one pull may do. Once a chunk is delivered no further candidate is tried; an error reaches
      the caller exactly when the committed stream breaks; a pull after the end changes nothing. */
  ghost predicate Pulled(plan: Plan, p: Progress, q: Progress, r: Pull) {
    && Consistent(plan, q) && q != INITIAL
    && (r.Yielded? <==> q.phase.Delivering?)
    && q.delivered == (if r.Yielded? then p.delivered + [r.chunk] else p.delivered)
    && (p.delivered != [] ==> q.tried == p.tried)
    && (r.Raised? <==> p.phase == Delivering([]) && EndPull(plan, p.tried).Raised?)
    && (r.Raised? ==> r == EndPull(plan, p.tried))
    && (p.phase.Exhausted? ==> q == p)
    && (p.phase.Delivering? ==> Measure(q.phase) < Measure(p.phase))
  }

  /** How the pull that reaches the end of the committed stream answers. */
  function EndPull(plan: Plan, tried: nat): Pull {
    if 0 < tried <= |plan.streams| && plan.streams[tried - 1].Streams? && plan.streams[tried - 1].end.Breaks?
    then Raised(plan.streams[tried - 1].end.category)
    else Stopped
  }

  lemma EndStreamPulls(plan: Plan, p: Progress)
    requires plan.Known() && Committed(plan, p) && p.phase.remaining == []
    ensures Pulled(plan, p, Finalise(plan, EndAttempt(plan, p)), EndPull(plan, p.tried))
  {
    assert p.delivered == plan.LastChunks(p.tried);
    assert !plan.Legs()[p.tried - 1].movesOn;
    FinaliseEnds(plan, EndAttempt(plan, p));
  }

  /** Hand the next chunk to the caller. */
  function Deliver(p: Progress): Progress
    requires p.phase.Delivering? && p.phase.remaining != []
  {
    p.(delivered := p.delivered + [p.phase.remaining[0]], phase := Delivering(p.phase.remaining[1..]))
  }

  lemma DeliverPulls(plan: Plan, p: Progress)
    requires plan.Covered() && Committed(plan, p) && p.phase.remaining != []
    ensures Pulled(plan, p, Deliver(p), Yielded(p.phase.remaining[0]))
  {
    var chunks := p.phase.remaining;
    assert p.delivered + chunks == (p.delivered + [chunks[0]]) + chunks[1..];
  }

  /** One transition of the generator: the state it leaves and what the caller sees. */
  datatype Move = Move(next: Progress, pull: Pull)

  /** Having walked to the n-th candidate: commit to its stream if it started, else end the generator. */
  function AfterWalk(plan: Plan, attempts: seq<Attempt>, extra: seq<ReasonCode>, n: nat): Move
    requires plan.Known() && n <= |plan.chain|
  {
    if plan.CommittedAt(n) then
      var stream := plan.streams[n - 1];
      Move(Progress(Delivering(stream.rest), attempts, extra, [], n, [stream.first]), Yielded(stream.first))
    else
      Move(Finalise(plan, Progress(NotStarted, attempts, extra, [], n, [])), Stopped)
  }

  /** The first pull walks the chain. */
  function FirstMove(plan: Plan): Move
    requires plan.Known()
  {
    var n := Stop(plan.Legs());
    AfterWalk(plan, Attempts(plan.Legs(), plan.Recorded(n)), plan.ExtraCodes(n), n)
  }

  /** A delivering generator has a candidate whose stream it delivers. */
  predicate Steppable(plan: Plan, p: Progress) {
    p.phase.Delivering? ==> 0 < p.tried <= |plan.chain|
  }

  /** What any pull does. */
  function Step(plan: Plan, p: Progress): (m: Move)
    requires plan.Known() && Steppable(plan, p)
    ensures Steppable(plan, m.next)
  {
    match p.phase
    case NotStarted => FirstMove(plan)
    case Exhausted => Move(p, Stopped)
    case Delivering(remaining) =>
      if remaining == [] then Move(Finalise(plan, EndAttempt(plan, p)), EndPull(plan, p.tried))
      else Move(Deliver(p), Yielded(remaining[0]))
  }

  lemma WalkIsFirstMove(plan: Plan, n: nat)
    requires plan.Known() && StopsAfter(plan.Legs(), n)
    ensures AfterWalk(plan, Attempts(plan.Legs(), plan.Recorded(n)), plan.ExtraCodes(n), n) == FirstMove(plan)
  {
    StopUnique(plan.Legs(), n);
  }

  lemma FirstMovePulls(plan: Plan)
    requires plan.Known()
    ensures Pulled(plan, INITIAL, FirstMove(plan).next, FirstMove(plan).pull)
  {
    var legs, n := plan.Legs(), Stop(plan.Legs());
    if !plan.CommittedAt(n) {
      FinaliseEnds(plan, Progress(NotStarted, Attempts(legs, n), plan.ExtraCodes(n), [], n, []));
    }
  }

  lemma FirstMoveConsistent(plan: Plan)
    requires plan.Known()
    ensures Consistent(plan, FirstMove(plan).next) && FirstMove(plan).next.tried <= |plan.chain|
  {
    FirstMovePulls(plan);
  }

  /** Every transition keeps the state consistent and does only what a pull may do. */
  lemma StepPulls(plan: Plan, p: Progress)
    requires plan.Known() && Consistent(plan, p)
    ensures Pulled(plan, p, Step(plan, p).next, Step(plan, p).pull)
  {
    match p.phase
    case NotStarted => FirstMovePulls(plan);
    case Exhausted =>
    case Delivering(remaining) =>
      if remaining == [] {
        EndStreamPulls(plan, p);
      } else {
        DeliverPulls(plan, p);
      }
  }

  /** The pull that ended the generator raised exactly when a stream had started and broke, and then its error. */
  ghost predicate AnswersEnd(plan: Plan, tried: nat, last: Pull)
    requires plan.Covered() && tried <= |plan.chain|
  {
    forall category :: last == Raised(category) <==> plan.CommittedAt(tried) && plan.streams[tried - 1].end == Breaks(category)
  }

  /** A pull raises exactly at the end of a committed stream that broke, and then that stream's error. */
  lemma StepRaisesIff(plan: Plan, p: Progress, category: ErrorCategory)
    requires plan.Known() && Consistent(plan, p)
    ensures Step(plan, p).pull == Raised(category)
            <==> p.phase == Delivering([]) && plan.streams[p.tried - 1].end == Breaks(category)
  {
  }

  lemma LastStepAnswers(plan: Plan, p: Progress)
    requires plan.Known() && Committed(plan, p) && !Step(plan, p).pull.Yielded?
    ensures Step(plan, p).next.tried == p.tried && AnswersEnd(plan, p.tried, Step(plan, p).pull)
  {
    forall category
      ensures Step(plan, p).pull == Raised(category) <==> plan.CommittedAt(p.tried) && plan.streams[p.tried - 1].end == Breaks(category)
    {
      StepRaisesIff(plan, p, category);
    }
  }

  lemma FirstStepAnswers(plan: Plan)
    requires plan.Known() && !FirstMove(plan).pull.Yielded?
    ensures FirstMove(plan).next.tried <= |plan.chain| && AnswersEnd(plan, FirstMove(plan).next.tried, FirstMove(plan).pull)
  {
  }

  class StreamSession {
    const plan: Plan
    const health: InMemoryModelHealthRepository
    var progress: Progress
    /** Requests handed to the provider, oldest first. */
    var sent: seq<ProviderRequest>

    ghost predicate Valid()
      reads this
    {
      && plan.Known() && Consistent(plan, progress) && progress.tried <= |plan.chain|
      && sent == Requests(plan.chain, progress.tried, plan.request, plan.req)
    }

    constructor (plan: Plan, health: InMemoryModelHealthRepository)
      requires plan.Known()
      ensures Valid() && progress == INITIAL && sent == [] && this.plan == plan && this.health == health
    {
      this.plan, this.health, this.progress, this.sent := plan, health, INITIAL, [];
    }

    /** The first pull. */
    method Start() returns (r: Pull)
      requires Valid() && progress == INITIAL
      modifies this, health
      ensures Valid() && Move(progress, r) == FirstMove(plan)
      ensures health.failures == RecordedAll(old(health.failures), progress.attempts)
    {
      var attempts, extra, requests, n := WalkToFirstChunk(plan, plan.Legs(), health);
      HealthFollowsHistory(old(health.failures), plan.Legs(), |attempts|);
      WalkIsFirstMove(plan, n);
      FirstMoveConsistent(plan);
      sent := requests;
      var move := AfterWalk(plan, attempts, extra, n);
      progress := move.next;
      return move.pull;
    }

    /** The pull that reaches the end of the committed stream. */
    method EndStream() returns (r: Pull, ghost recorded: seq<Attempt>)
      requires plan.Known() && 0 < progress.tried <= |plan.chain|
      modifies this, health
      ensures progress == Finalise(plan, EndAttempt(plan, old(progress))) && r == EndPull(plan, old(progress).tried)
      ensures progress.attempts == old(progress).attempts + recorded && sent == old(sent)
      ensures health.failures == RecordedAll(old(health.failures), recorded)
    {
      var last := progress.tried - 1;
      var a := plan.streams[last].AsLeg(plan.chain[last], plan.latency[last]).attempt;
      recorded := [a];
      health.RecordOutcome(a.alias, a.status);
      progress := Finalise(plan, EndAttempt(plan, progress));
      r := EndPull(plan, progress.tried);
    }

    /** One pull by the caller is one step; `recorded` is what it adds to the history. */
    method Next() returns (r: Pull, ghost recorded: seq<Attempt>)
      requires Valid()
      modifies this, health
      ensures Valid() && Move(progress, r) == Step(plan, old(progress))
      ensures progress.attempts == old(progress).attempts + recorded
      ensures health.failures == RecordedAll(old(health.failures), recorded)
    {
      StepPulls(plan, progress);
      recorded := [];
      match progress.phase {
        case NotStarted =>
          r := Start();
          recorded := progress.attempts;
        case Exhausted =>
          r := Stopped;
        case Delivering(remaining) =>
          if remaining == [] {
            r, recorded := EndStream();
          } else {
            progress := Deliver(progress);
            r := Yielded(remaining[0]);
          }
      }
    }

    /** Pulls until the generator ends. */
    method Drain() returns (chunks: seq<Chunk>, last: Pull)
      requires Valid() && progress == INITIAL
      modifies this, health
      ensures Valid() && Ended(plan, progress) && !last.Yielded?
      ensures chunks == progress.delivered && AnswersEnd(plan, progress.tried, last)
      ensures health.failures == RecordedAll(old(health.failures), progress.attempts)
    {
      FirstMovePulls(plan);
      last := Start();
      chunks := [];
      if !last.Yielded? { FirstStepAnswers(plan); }
      while last.Yielded?
        invariant Valid() && progress != INITIAL && (last.Yielded? <==> progress.phase.Delivering?)
        invariant progress.delivered == if last.Yielded? then chunks + [last.chunk] else chunks
        invariant !last.Yielded? ==> AnswersEnd(plan, progress.tried, last)
        invariant health.failures == RecordedAll(old(health.failures), progress.attempts)
        decreases Measure(progress.phase)
      {
        chunks := chunks + [last.chunk];
        ghost var before := progress.attempts;
        ghost var recorded;
        StepPulls(plan, progress);
        if !Step(plan, progress).pull.Yielded? { LastStepAnswers(plan, progress); }
        last, recorded := Next();
        RecordedAllConcat(old(health.failures), before, recorded);
      }
    }
  }

  /** Pulls left before the committed stream is exhausted. */
  function Measure(phase: Phase): nat {
    if phase.Delivering? then |phase.remaining| + 1 else 0
  }
}
