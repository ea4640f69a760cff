/** From wire events to the final decision: the stream mappers under the streaming form, and the response
    parsers under the synchronous one. */
module WireForms {
  import opened Domain
  import opened HealthRepository
  import opened AttemptHistory
  import opened StreamMappers
  import opened RequestBudget
  import Sync = Orchestrator
  import opened Streaming
  import opened StreamingRuns

  /** The stream that what a mapper emits amounts to, seen from the orchestrator. */
  function StreamOf(e: Emission): Stream
    requires e.chunks != [] || e.error.Some?
  {
    if e.chunks == [] then FailsToStart(e.error.value)
    else Streams(e.chunks[0], e.chunks[1..], if e.error.None? then Drains else Breaks(e.error.value))
  }

  /** A mapper never ends silently, so what it emits is a stream; that stream delivers exactly the mapper's
      chunks, and drains exactly when the mapper ends without error. */
  lemma EmissionIsStream(pieces: seq<Piece>, mapStop: string -> StopReason)
    ensures var e := Emitted(pieces, mapStop);
            && (e.chunks != [] || e.error.Some?)
            && StreamOf(e).Chunks() == e.chunks
            && (StreamOf(e).Streams? && StreamOf(e).end.Drains? <==> e.error.None?)
  {
    StreamNeverEndsSilently(pieces, mapStop);
  }

  /** What a provider holds ready for one candidate: an error, or content it would send either way. */
  datatype Exchange =
    | Refused(category: ErrorCategory)
    | Converse(events: seq<ConverseEvent>, response: ConverseResponse)
    | Completion(stream: seq<CompletionChunk>, completion: ChatCompletion)
  {
    function Pieces(): seq<Piece> {
      match this
      case Refused(_) => []
      case Converse(events, _) => ConversePieces(events)
      case Completion(stream, _) => CompletionPieces(stream)
    }

    function MapStop(): string -> StopReason {
      if Completion? then MapFinishReason else MapStopReason
    }

    function Emission(): Emission { Emitted(Pieces(), MapStop()) }

    /** The two ways of sending carry the same text, stop reason and usage. */
    ghost predicate SameContent() {
      match this
      case Refused(_) => true
      case Converse(events, response) =>
        && JoinBlocks(response.blocks) == Text(Pieces())
        && response.stop == LastStop(Pieces()) && response.usage == LastUsage(Pieces())
      case Completion(stream, raw) =>
        && (raw.choice.Some? ==> Text(Pieces()) == if raw.choice.value.content.Some? then raw.choice.value.content.value else "")
        && LastStop(Pieces()) == (if raw.choice.Some? then Some(raw.choice.value.finish) else None)
        && raw.usage == LastUsage(Pieces())
    }

    /** The content, if any, is whole, or nothing of it can have reached the caller. */
    predicate Clean() {
      Refused? || (LastStop(Pieces()).Some? && LastUsage(Pieces()).Some?) || TextChunks(Pieces()) == []
    }
  }

  function CallOutcome(x: Exchange): Sync.Outcome {
    match x
    case Refused(category) => Sync.Errored(category)
    case Converse(_, response) => OutcomeOf(ParseConverse(response))
    case Completion(_, completion) => OutcomeOf(ParseCompletion(completion))
  }

  function StreamOutcome(x: Exchange): Stream {
    match x
    case Refused(category) => FailsToStart(category)
    case _ =>
      EmissionIsStream(x.Pieces(), x.MapStop());
      StreamOf(x.Emission())
  }

  /** The call's outcome is what a consumer of the stream would reassemble. */
  lemma CallIsReassembly(x: Exchange)
    requires x.SameContent() && !x.Refused?
    ensures CallOutcome(x) == OutcomeOf(Reassemble(x.Emission()))
  {
    match x
    case Converse(events, response) => ConverseFormsAgree(events, response);
    case Completion(stream, completion) => CompletionFormsAgree(stream, completion);
  }

  /** One candidate behaves alike in both forms if and only if its content is clean. */
  lemma CorrespondsIffClean(x: Exchange)
    requires x.SameContent()
    ensures Corresponds(CallOutcome(x), StreamOutcome(x)) <==> x.Clean()
  {
    if !x.Refused? {
      CallIsReassembly(x);
      EmissionIsStream(x.Pieces(), x.MapStop());
      SplittingIsInvisible(x.Pieces(), x.MapStop());
    }
  }

  /** Both forms meet the same exchanges. */
  ghost predicate Meets(plan: Plan, w: Sync.World, exchanges: seq<Exchange>) {
    && plan.Covered() && w.Covers(|plan.chain|) && |exchanges| == |plan.chain|
    && forall i | 0 <= i < |exchanges| ::
         && exchanges[i].SameContent() && w.outcomes[i] == CallOutcome(exchanges[i])
         && plan.streams[i] == StreamOutcome(exchanges[i])
  }

  /** Streaming refines synchronous invocation from the wire up: over clean exchanges the two forms reach the same
      decision, attempts up to latency and health, and the chunks of the answering candidate reassemble to the
      response the synchronous form returns. */
  lemma FormsAgreeFromWire(plan: Plan, w: Sync.World, exchanges: seq<Exchange>, sync: InferenceResult, streamed: InferenceResult)
    requires Meets(plan, w, exchanges) && plan.chain != []
    requires forall i | 0 <= i < |exchanges| :: exchanges[i].Clean()
    requires Sync.IsResult(plan.decision, plan.chain, w, sync) && IsResult(plan, streamed)
    ensures sync.decision == streamed.decision && SameUpToLatency(sync.attempts, streamed.attempts)
    ensures forall failures :: RecordedAll(failures, sync.attempts) == RecordedAll(failures, streamed.attempts)
    ensures sync.response.Some? ==>
              var last := exchanges[|sync.attempts| - 1];
              && plan.LastChunks(|streamed.attempts|) == last.Emission().chunks
              && Reassemble(last.Emission()) == Parsed.Ok(sync.response.value)
  {
    forall i | 0 <= i < |exchanges| ensures Corresponds(w.outcomes[i], plan.streams[i]) {
      CorrespondsIffClean(exchanges[i]);
    }
    StreamingRefinesSync(plan, w, sync, streamed);
    LastCandidateReassembles(exchanges[|sync.attempts| - 1]);
  }

  lemma LastCandidateReassembles(x: Exchange)
    requires x.SameContent()
    ensures CallOutcome(x).Responded? ==>
              StreamOutcome(x).Chunks() == x.Emission().chunks && Reassemble(x.Emission()) == Parsed.Ok(CallOutcome(x).response)
  {
    if !x.Refused? {
      CallIsReassembly(x);
      EmissionIsStream(x.Pieces(), x.MapStop());
    }
  }
}
