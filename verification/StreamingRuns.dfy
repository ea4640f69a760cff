/** Whole streaming runs, and their relation to synchronous invocation. */
module StreamingRuns {
  import opened Domain
  import opened ReasonCodes
  import opened HealthRepository
  import opened RouteEvaluation
  import opened CandidateChain
  import opened Aggregation
  import opened AttemptHistory
  import Sync = Orchestrator
  import opened Streaming

  // ---- Every run, drained or abandoned ----

  /** The generator after `n` pulls. */
  ghost function After(plan: Plan, n: nat): (p: Progress)
    requires plan.Known()
    ensures Steppable(plan, p)
  {
    if n == 0 then INITIAL else Step(plan, After(plan, n - 1)).next
  }

  /** What the pull numbered `i` shows the caller. */
  ghost function PullAt(plan: Plan, i: nat): Pull
    requires plan.Known()
  {
    Step(plan, After(plan, i)).pull
  }

  /** What the caller has received from the first `n` pulls. */
  ghost function Received(plan: Plan, n: nat): seq<Chunk>
    requires plan.Known()
  {
    if n == 0 then []
    else if PullAt(plan, n - 1).Yielded? then Received(plan, n - 1) + [PullAt(plan, n - 1).chunk]
    else Received(plan, n - 1)
  }

  /** Some pull so far met the end of the generator. */
  ghost predicate MetEnd(plan: Plan, n: nat)
    requires plan.Known()
  {
    exists i: nat :: i < n && !PullAt(plan, i).Yielded?
  }

  lemma {:induction false} AfterConsistent(plan: Plan, n: nat)
    requires plan.Known()
    ensures Consistent(plan, After(plan, n))
  {
    if n > 0 {
      AfterConsistent(plan, n - 1);
      StepPulls(plan, After(plan, n - 1));
    }
  }

  /** What the pull numbered `n` changes. */
  lemma OnePull(plan: Plan, n: nat)
    requires plan.Known()
    ensures var p, q, r := After(plan, n), After(plan, n + 1), PullAt(plan, n);
            && q.delivered == (if r.Yielded? then p.delivered + [r.chunk] else p.delivered)
            && (p.delivered != [] ==> q.tried == p.tried)
            && (q.phase.Exhausted? <==> !r.Yielded?)
            && (p.phase.Exhausted? ==> q == p)
            && (p.phase.Delivering? ==> Measure(q.phase) < Measure(p.phase))
  {
    AfterConsistent(plan, n);
    StepPulls(plan, After(plan, n));
  }

  lemma {:induction false} DeliveredIsReceived(plan: Plan, n: nat)
    requires plan.Known()
    ensures After(plan, n).delivered == Received(plan, n)
  {
    if n > 0 {
      DeliveredIsReceived(plan, n - 1);
      OnePullDelivers(plan, n - 1);
    }
  }

  lemma OnePullDelivers(plan: Plan, n: nat)
    requires plan.Known()
    ensures var before, r := After(plan, n).delivered, PullAt(plan, n);
            After(plan, n + 1).delivered == if r.Yielded? then before + [r.chunk] else before
  {
    OnePull(plan, n);
  }

  lemma OnePullEnds(plan: Plan, n: nat)
    requires plan.Known()
    ensures After(plan, n + 1).phase.Exhausted? <==> !PullAt(plan, n).Yielded?
  {
    OnePull(plan, n);
  }

  lemma EndedStep(plan: Plan, n: nat)
    requires plan.Known() && After(plan, n).phase.Exhausted?
    ensures After(plan, n + 1).phase.Exhausted?
  {
  }

  lemma {:induction false} StaysEnded(plan: Plan, m: nat, k: nat)
    requires plan.Known() && After(plan, m).phase.Exhausted?
    ensures After(plan, m + k).phase.Exhausted?
    decreases k
  {
    if k > 0 {
      EndedStep(plan, m);
      StaysEnded(plan, m + 1, k - 1);
    }
  }

  lemma EndedIffMetEnd(plan: Plan, n: nat)
    requires plan.Known()
    ensures After(plan, n).phase.Exhausted? <==> MetEnd(plan, n)
  {
    if n > 0 {
      OnePullEnds(plan, n - 1);
    }
    if i: nat :| i < n && !PullAt(plan, i).Yielded? {
      OnePullEnds(plan, i);
      StaysEnded(plan, i + 1, n - i - 1);
    }
  }

  /** After any number of pulls the caller holds an initial part of one candidate's chunks, the last
      candidate tried; and the request has been finalised once if some pull met the end (by drain,
      error or exhausted chain), and not at all otherwise, however early the caller stops. */
  lemma RunDeliversOneCandidate(plan: Plan, n: nat)
    requires plan.Known()
    ensures var p := After(plan, n);
            && p.tried <= |plan.chain| && Received(plan, n) <= plan.LastChunks(p.tried)
            && |p.finalised| == (if MetEnd(plan, n) then 1 else 0)
  {
    AfterConsistent(plan, n);
    DeliveredIsReceived(plan, n);
    EndedIffMetEnd(plan, n);
  }

  lemma {:induction false} EndsWithin(plan: Plan, n: nat, k: nat)
    requires plan.Known() && 0 < n && Measure(After(plan, n).phase) <= k
    ensures After(plan, n + k).phase.Exhausted?
    decreases k
  {
    AfterStarted(plan, n);
    if k > 0 {
      OnePull(plan, n);
      EndsWithin(plan, n + 1, k - 1);
    }
  }

  /** A caller that keeps pulling reaches the end, and then one result has been published. */
  lemma RunEnds(plan: Plan) returns (n: nat)
    requires plan.Known()
    ensures Ended(plan, After(plan, n))
  {
    var k := Measure(After(plan, 1).phase);
    EndsWithin(plan, 1, k);
    n := 1 + k;
    AfterConsistent(plan, n);
  }

  /** Once the generator has started, the candidates it has tried are settled. */
  lemma StartedHasTried(plan: Plan, p: Progress)
    requires Consistent(plan, p) && p != INITIAL
    ensures p.tried == Stop(plan.Legs())
  {
    if p.phase.Exhausted? {
      HistoryLength(plan.Legs(), p.attempts);
    } else {
      StopUnique(plan.Legs(), p.tried);
    }
  }

  lemma AfterStarted(plan: Plan, n: nat)
    requires plan.Known() && 0 < n
    ensures After(plan, n) != INITIAL && !After(plan, n).phase.NotStarted?
  {
    AfterConsistent(plan, n - 1);
    StepPulls(plan, After(plan, n - 1));
  }

  /** The model choice is final: from the first pull on, the candidates tried are those up to where the
      walk of the chain ends, and no pull tries another. */
  lemma ChoiceIsIrrevocable(plan: Plan, n: nat)
    requires plan.Known() && 0 < n
    ensures After(plan, n).tried == Stop(plan.Legs())
  {
    AfterConsistent(plan, n);
    AfterStarted(plan, n);
    StartedHasTried(plan, After(plan, n));
  }

  // ---- Errors ----

  /** From the n-th pull on, with `k` chunks left, `k` more pulls deliver them all. */
  lemma {:induction false} DeliversAll(plan: Plan, n: nat, k: nat)
    requires plan.Known() && After(plan, n).phase.Delivering? && |After(plan, n).phase.remaining| == k
    ensures After(plan, n + k).phase == Delivering([])
    decreases k
  {
    if k > 0 {
      DeliversOne(plan, n);
      DeliversAll(plan, n + 1, k - 1);
    }
  }

  lemma DeliversOne(plan: Plan, n: nat)
    requires plan.Known() && After(plan, n).phase.Delivering? && After(plan, n).phase.remaining != []
    ensures var left := After(plan, n).phase.remaining; After(plan, n + 1).phase == Delivering(left[1..])
  {
  }

  /** The caller meets an error, at some pull, exactly when the walk ends at a stream that starts and breaks; and
      the error is that stream's. */
  lemma RunRaisesIff(plan: Plan, category: ErrorCategory)
    requires plan.Known()
    ensures (exists i: nat :: PullAt(plan, i) == Raised(category))
            <==> var n := Stop(plan.Legs());
                 0 < n && plan.streams[n - 1].Streams? && plan.streams[n - 1].end == Breaks(category)
  {
    var n := Stop(plan.Legs());
    forall i: nat | PullAt(plan, i) == Raised(category)
      ensures 0 < n && plan.streams[n - 1].Streams? && plan.streams[n - 1].end == Breaks(category)
    {
      RaisedAt(plan, i, category);
    }
    if 0 < n && plan.streams[n - 1].Streams? && plan.streams[n - 1].end == Breaks(category) {
      var i := BreakIsRaised(plan, category);
    }
  }

  lemma RaisedAt(plan: Plan, i: nat, category: ErrorCategory)
    requires plan.Known() && PullAt(plan, i) == Raised(category)
    ensures var n := Stop(plan.Legs());
            0 < n && plan.streams[n - 1].Streams? && plan.streams[n - 1].end == Breaks(category)
  {
    AfterConsistent(plan, i);
    StepRaisesIff(plan, After(plan, i), category);
    StartedHasTried(plan, After(plan, i));
  }

  lemma BreakIsRaised(plan: Plan, category: ErrorCategory) returns (i: nat)
    requires plan.Known() && plan.CommittedAt(Stop(plan.Legs()))
    requires plan.streams[Stop(plan.Legs()) - 1].end == Breaks(category)
    ensures PullAt(plan, i) == Raised(category)
  {
    FirstDelivers(plan);
    var k := |After(plan, 1).phase.remaining|;
    DeliversAll(plan, 1, k);
    i := 1 + k;
    AfterConsistent(plan, i);
    StepRaisesIff(plan, After(plan, i), category);
    StartedHasTried(plan, After(plan, i));
  }

  lemma FirstDelivers(plan: Plan)
    requires plan.Known() && plan.CommittedAt(Stop(plan.Legs()))
    ensures After(plan, 1).phase.Delivering?
  {
    assert After(plan, 0) == INITIAL;
  }

  // ---- What attempts and codes report ----

  /** The candidate's stream failed with this category, before its first chunk or after. */
  predicate FailedWith(stream: Stream, category: ErrorCategory) {
    stream == FailsToStart(category) || (stream.Streams? && stream.end == Breaks(category))
  }

  /** Each attempt names its candidate, carries its latency, and its status says what the stream did. */
  lemma StatusesFollowStreams(plan: Plan, r: InferenceResult, i: nat)
    requires plan.Covered() && IsResult(plan, r) && i < |r.attempts|
    ensures i < |plan.chain| && r.attempts[i].alias == plan.chain[i] && r.attempts[i].latencyMs == plan.latency[i]
    ensures r.attempts[i].status == Succeeded <==> plan.streams[i].Streams? && plan.streams[i].end == Drains
    ensures r.attempts[i].status == ThrottledCall <==> FailedWith(plan.streams[i], Throttled)
    ensures r.attempts[i].status == TransientError <==> FailedWith(plan.streams[i], Transient)
    ensures r.attempts[i].status == TimedOut <==> FailedWith(plan.streams[i], Timeout)
    ensures r.attempts[i].status == NonRetryableError <==> FailedWith(plan.streams[i], Permanent)
  {
    assert r.attempts[i] == plan.Legs()[i].attempt;
  }

  /** Some attempt failed to start with one of these statuses. */
  ghost predicate FailedToStart(plan: Plan, r: InferenceResult, statuses: set<AttemptStatus>)
    requires plan.Covered() && |r.attempts| <= |plan.chain|
  {
    exists i | 0 <= i < |r.attempts| :: r.attempts[i].status in statuses && plan.streams[i].FailsToStart?
  }

  /** The codes of failed attempts, told by the attempts' statuses: those that failed before their first chunk. */
  lemma CodesFollowStreams(plan: Plan, r: InferenceResult)
    requires plan.Covered() && WellFormed(plan.decision) && IsResult(plan, r)
    ensures |r.attempts| <= |plan.chain|
    ensures ModelThrottled in r.decision.reasonCodes <==> FailedToStart(plan, r, {ThrottledCall})
    ensures ModelUnavailable in r.decision.reasonCodes <==> FailedToStart(plan, r, {TransientError, TimedOut})
    ensures forall code | code !in {ModelThrottled, ModelUnavailable, FallbackSelected, NoEligibleModel} ::
              code in r.decision.reasonCodes <==> code in plan.decision.reasonCodes
  {
    var n, legs := |r.attempts|, plan.Legs();
    forall i | 0 <= i < n
      ensures legs[i].code == Some(ModelThrottled) <==> r.attempts[i].status in {ThrottledCall} && plan.streams[i].FailsToStart?
      ensures legs[i].code == Some(ModelUnavailable)
              <==> r.attempts[i].status in {TransientError, TimedOut} && plan.streams[i].FailsToStart?
      ensures legs[i].code in {None, Some(ModelThrottled), Some(ModelUnavailable)}
    {
      StatusesFollowStreams(plan, r, i);
      CodeOfStream(plan, i);
    }
    CodesAdded(plan, r);
  }

  lemma CodeOfStream(plan: Plan, i: nat)
    requires plan.Covered() && i < |plan.chain|
    ensures plan.Legs()[i].code == Some(ModelThrottled) <==> plan.streams[i] == FailsToStart(Throttled)
    ensures plan.Legs()[i].code == Some(ModelUnavailable) <==> plan.streams[i] in {FailsToStart(Transient), FailsToStart(Timeout)}
    ensures plan.Legs()[i].code in {None, Some(ModelThrottled), Some(ModelUnavailable)}
  {
  }

  lemma CodesAdded(plan: Plan, r: InferenceResult)
    requires plan.Covered() && WellFormed(plan.decision) && IsResult(plan, r)
    ensures forall code | code in {ModelThrottled, ModelUnavailable} ::
              code in r.decision.reasonCodes <==> CodeAdded(plan.Legs(), |r.attempts|, code)
    ensures forall code: ReasonCode | !code.FallbackSelected? && !code.NoEligibleModel? ::
              code in r.decision.reasonCodes <==> code in plan.decision.reasonCodes || CodeAdded(plan.Legs(), |r.attempts|, code)
  {
  }

  // ---- Refinement ----

  /** The stream fails to start exactly where the call fails, alike, and otherwise drains. */
  predicate Corresponds(outcome: Sync.Outcome, stream: Stream) {
    if outcome.Errored? then stream == FailsToStart(outcome.category) else stream.Streams? && stream.end.Drains?
  }

  lemma {:induction false} LatencyDoesNotAffectHealth(failures: Failures, a: seq<Attempt>, b: seq<Attempt>)
    requires SameUpToLatency(a, b)
    ensures RecordedAll(failures, a) == RecordedAll(failures, b)
    decreases |a|
  {
    if a != [] {
      LatencyDoesNotAffectHealth(failures, a[..|a| - 1], b[..|b| - 1]);
    }
  }

  lemma LegsMatch(plan: Plan, w: Sync.World)
    requires plan.Covered() && w.Covers(|plan.chain|)
    requires forall i | 0 <= i < |plan.chain| :: Corresponds(w.outcomes[i], plan.streams[i])
    ensures SameLegs(Sync.Legs(plan.chain, w), plan.Legs())
  {
  }

  lemma AddedMatch(plan: Plan, w: Sync.World, n: nat, code: ReasonCode)
    requires plan.Covered() && w.Covers(|plan.chain|) && 0 < n <= |plan.chain|
    requires forall i | 0 <= i < |plan.chain| :: Corresponds(w.outcomes[i], plan.streams[i])
    ensures Sync.Added(plan.decision, plan.chain, w, n, code) <==> plan.Added(n, code)
  {
    LegsMatch(plan, w);
    assert Corresponds(w.outcomes[n - 1], plan.streams[n - 1]);
    var legs, others := Sync.Legs(plan.chain, w), plan.Legs();
    assert forall i | 0 <= i < n :: legs[i].code == others[i].code;
    assert CodeAdded(legs, n, code) <==> CodeAdded(others, n, code);
  }

  /** Streaming refines synchronous invocation: the same final decision, the same attempts up to
      latency and the same health updates. */
  lemma StreamingRefinesSync(plan: Plan, w: Sync.World, sync: InferenceResult, streamed: InferenceResult)
    requires plan.Covered() && w.Covers(|plan.chain|) && plan.chain != []
    requires forall i | 0 <= i < |plan.chain| :: Corresponds(w.outcomes[i], plan.streams[i])
    requires Sync.IsResult(plan.decision, plan.chain, w, sync) && IsResult(plan, streamed)
    ensures sync.decision == streamed.decision
    ensures SameUpToLatency(sync.attempts, streamed.attempts)
    ensures forall failures :: RecordedAll(failures, sync.attempts) == RecordedAll(failures, streamed.attempts)
  {
    LegsMatch(plan, w);
    HistoryUnique(Sync.Legs(plan.chain, w), plan.Legs(), sync.attempts, streamed.attempts);
    forall failures ensures RecordedAll(failures, sync.attempts) == RecordedAll(failures, streamed.attempts) {
      LatencyDoesNotAffectHealth(failures, sync.attempts, streamed.attempts);
    }
    var n := |sync.attempts|;
    assert Corresponds(w.outcomes[n - 1], plan.streams[n - 1]);
    forall code ensures Sync.Added(plan.decision, plan.chain, w, n, code) <==> plan.Added(n, code) {
      AddedMatch(plan, w, n, code);
    }
    assert plan.AddedCodes(n) == Sync.AddedCodes(plan.decision, plan.chain, w, n);
    ReportDetermines(plan.decision, plan.SucceededAlias(n), plan.AddedCodes(n), sync.decision, streamed.decision);
  }

  /** The two imperative forms, side by side on equal health, agree; `sent` is what the streaming form
      handed to the provider. */
  method RunBothForms(orchestrator: Sync.InvocationOrchestrator, health: InMemoryModelHealthRepository, plan: Plan, w: Sync.World)
    returns (sync: InferenceResult, streamed: InferenceResult, sent: seq<ProviderRequest>)
    requires health != orchestrator.health && health.failures == orchestrator.health.failures
    requires plan.Known() && plan.chain != [] && w.Covers(|plan.chain|)
    requires forall i | 0 <= i < |plan.chain| :: Corresponds(w.outcomes[i], plan.streams[i])
    modifies orchestrator, orchestrator.health, health
    ensures sync.decision == streamed.decision && SameUpToLatency(sync.attempts, streamed.attempts)
    ensures health.failures == orchestrator.health.failures
    ensures orchestrator.sent == old(orchestrator.sent) + sent
  {
    sync := orchestrator.InvokeChain(plan.decision, plan.chain, plan.request, plan.req, w);
    var session := new StreamSession(plan, health);
    var chunks, last := session.Drain();
    streamed, sent := session.progress.finalised[0], session.sent;
    StreamingRefinesSync(plan, w, sync, streamed);
  }

  // ---- Where the forms differ ----

  /** With an empty chain the synchronous form returns the evaluated decision unchanged, the streaming
      form an aggregated one; they agree exactly when evaluation did not report NO_ELIGIBLE_MODEL. */
  lemma EmptyChainFormsAgreeIff(plan: Plan, fallback: FallbackPolicy, streamed: InferenceResult)
    requires plan.chain == Chain(plan.decision, fallback) == [] && WellFormed(plan.decision) && IsResult(plan, streamed)
    ensures streamed == InferenceResult(plan.decision, None, []) <==> NoEligibleModel !in plan.decision.reasonCodes
  {
    assert plan.decision.selected.None?;
    assert forall code :: !plan.Added(0, code);
    if NoEligibleModel !in plan.decision.reasonCodes {
      CanonicalListUnique(streamed.decision.reasonCodes, plan.decision.reasonCodes);
    }
  }

  /** FALLBACK_SELECTED and `fallback_used` agree unless the walk ends at a fallback whose stream breaks. */
  lemma FallbackMarkAgreesIff(plan: Plan, streamed: InferenceResult)
    requires plan.Covered() && WellFormed(plan.decision) && IsResult(plan, streamed)
    ensures var n := Stop(plan.Legs());
            (FallbackSelected in streamed.decision.reasonCodes <==> streamed.decision.fallbackUsed)
            <==> !(plan.FallbackMarked(n) && plan.streams[n - 1].end.Breaks?)
  {
    HistoryLength(plan.Legs(), streamed.attempts);
    var n := |streamed.attempts|;
    assert !CodeAdded(plan.Legs(), n, FallbackSelected);
    assert plan.Added(n, FallbackSelected) <==> plan.FallbackMarked(n);
  }
}
