/** Wire formats to chunks and responses (src/adapters/bedrock/converse_mapper.py and
    src/adapters/openai/chat_completions_mapper.py). */
module StreamMappers {
  import opened Domain

  /** What one wire event adds, for either provider. */
  datatype Piece = Piece(text: string, stop: Option<string>, usage: Option<Usage>)

  /** What a stream mapper yields before it ends, and the error that ends it, if any. */
  datatype Emission = Emission(chunks: seq<Chunk>, error: Option<ErrorCategory>)

  datatype Parsed = Ok(response: ProviderResponse) | Malformed(category: ErrorCategory)

  function TextChunk(text: string): Chunk { Chunk(text, false, None, None) }

  // ---- Reference: what the pieces amount to ----

  function Text(pieces: seq<Piece>): string
    decreases |pieces|
  {
    if pieces == [] then "" else Text(pieces[..|pieces| - 1]) + pieces[|pieces| - 1].text
  }

  function LastStop(pieces: seq<Piece>): Option<string>
    decreases |pieces|
  {
    if pieces == [] then None
    else if pieces[|pieces| - 1].stop.Some? then pieces[|pieces| - 1].stop
    else LastStop(pieces[..|pieces| - 1])
  }

  function LastUsage(pieces: seq<Piece>): Option<Usage>
    decreases |pieces|
  {
    if pieces == [] then None
    else if pieces[|pieces| - 1].usage.Some? then pieces[|pieces| - 1].usage
    else LastUsage(pieces[..|pieces| - 1])
  }

  /** A response is whole only with a stop reason and usage. */
  function Whole(text: string, stop: Option<string>, usage: Option<Usage>, mapStop: string -> StopReason): Parsed {
    if stop.None? || usage.None? then Malformed(Permanent)
    else Ok(ProviderResponse(text, mapStop(stop.value), usage.value))
  }

  // ---- Bedrock ConverseStream ----

  datatype ConverseEvent =
    | ContentBlockDelta(text: Option<string>)
    | MessageStop(stopReason: string)
    | Metadata(usage: Option<Usage>)
    | OtherEvent

  function MapStopReason(raw: string): StopReason {
    if raw == "end_turn" then EndTurn
    else if raw == "max_tokens" then MaxTokens
    else if raw == "stop_sequence" then StopSequence
    else if raw == "tool_use" then ToolUse
    else if raw == "content_filtered" then ContentFiltered
    else if raw == "guardrail_intervened" then GuardrailIntervened
    else Other
  }

  function ConversePiece(e: ConverseEvent): Piece {
    match e
    case ContentBlockDelta(text) => Piece(if text.Some? then text.value else "", None, None)
    case MessageStop(reason) => Piece("", Some(reason), None)
    case Metadata(usage) => Piece("", None, usage)
    case OtherEvent => Piece("", None, None)
  }

  function ConversePieces(events: seq<ConverseEvent>): (r: seq<Piece>)
    ensures |r| == |events| && forall i | 0 <= i < |r| :: r[i] == ConversePiece(events[i])
  {
    seq(|events|, i requires 0 <= i < |events| => ConversePiece(events[i]))
  }

  /** Text blocks in order, stop reason and usage when the response carries them. */
  datatype ConverseResponse = ConverseResponse(blocks: seq<Option<string>>, stop: Option<string>, usage: Option<Usage>)

  function JoinBlocks(blocks: seq<Option<string>>): string
    decreases |blocks|
  {
    if blocks == [] then ""
    else
      var last := blocks[|blocks| - 1];
      JoinBlocks(blocks[..|blocks| - 1]) + (if last.Some? then last.value else "")
  }

  function ParseConverse(raw: ConverseResponse): Parsed {
    Whole(JoinBlocks(raw.blocks), raw.stop, raw.usage, MapStopReason)
  }

  // ---- OpenAI Chat Completions ----

  datatype Choice = Choice(content: Option<string>, finish: Option<string>)

  datatype CompletionChunk = CompletionChunk(choice: Option<Choice>, usage: Option<Usage>)

  function MapFinishReason(raw: string): StopReason {
    if raw == "stop" then EndTurn
    else if raw == "length" then MaxTokens
    else if raw == "tool_calls" || raw == "function_call" then ToolUse
    else if raw == "content_filter" then ContentFiltered
    else Other
  }

  function CompletionPiece(c: CompletionChunk): Piece {
    match c.choice
    case None => Piece("", None, c.usage)
    case Some(choice) => Piece(if choice.content.Some? then choice.content.value else "", choice.finish, c.usage)
  }

  function CompletionPieces(chunks: seq<CompletionChunk>): (r: seq<Piece>)
    ensures |r| == |chunks| && forall i | 0 <= i < |r| :: r[i] == CompletionPiece(chunks[i])
  {
    seq(|chunks|, i requires 0 <= i < |chunks| => CompletionPiece(chunks[i]))
  }

  /** The first choice, if the response has any, and usage when reported. */
  datatype ChatCompletion = ChatCompletion(choice: Option<FullChoice>, usage: Option<Usage>)

  datatype FullChoice = FullChoice(content: Option<string>, finish: string)

  function ParseCompletion(raw: ChatCompletion): Parsed {
    match raw.choice
    case None => Malformed(Permanent)
    case Some(choice) =>
      Whole(if choice.content.Some? then choice.content.value else "", Some(choice.finish), raw.usage, MapFinishReason)
  }

  // ---- What the wire values mean ----

  /** Joined text is the concatenation of its parts, in order and with nothing between them. */
  lemma {:induction false} TextConcatenates(a: seq<Piece>, b: seq<Piece>)
    ensures Text(a + b) == Text(a) + Text(b)
    decreases |b|
  {
    if b == [] {
      assert a + b == a;
    } else {
      var front, last := b[..|b| - 1], b[|b| - 1];
      assert (a + b)[..|a + b| - 1] == a + front;
      TextConcatenates(a, front);
    }
  }

  lemma {:induction false} BlocksConcatenate(a: seq<Option<string>>, b: seq<Option<string>>)
    ensures JoinBlocks(a + b) == JoinBlocks(a) + JoinBlocks(b)
    decreases |b|
  {
    if b == [] {
      assert a + b == a;
    } else {
      var front := b[..|b| - 1];
      assert (a + b)[..|a + b| - 1] == a + front;
      BlocksConcatenate(a, front);
    }
  }

  /** One part alone: a block or delta without text contributes nothing, one with text exactly that text. */
  lemma OnePart(text: string, p: Piece)
    ensures Text([p]) == p.text
    ensures JoinBlocks([Some(text)]) == text && JoinBlocks([None]) == ""
    ensures ConversePiece(ContentBlockDelta(Some(text))).text == text && ConversePiece(ContentBlockDelta(None)).text == ""
    ensures CompletionPiece(CompletionChunk(Some(Choice(Some(text), None)), None)).text == text
  {
    var some: seq<Option<string>>, none: seq<Option<string>> := [Some(text)], [None];
    assert [p][..0] == [] && some[..0] == [] && none[..0] == [];
  }

  /** Only a message stop carries a stop reason, only metadata carries usage. */
  lemma PiecesCarry(e: ConverseEvent)
    ensures ConversePiece(e).stop.Some? <==> e.MessageStop?
    ensures e.MessageStop? ==> ConversePiece(e).stop == Some(e.stopReason)
    ensures ConversePiece(e).usage.Some? <==> e.Metadata? && e.usage.Some?
    ensures e.Metadata? ==> ConversePiece(e).usage == e.usage
    ensures ConversePiece(e).text != "" ==> e.ContentBlockDelta?
  {
  }

  lemma ChunksCarry(c: CompletionChunk)
    ensures CompletionPiece(c).usage == c.usage
    ensures CompletionPiece(c).stop == if c.choice.Some? then c.choice.value.finish else None
    ensures CompletionPiece(c).text == if c.choice.Some? && c.choice.value.content.Some? then c.choice.value.content.value else ""
  {
  }

  /** Which wire values each stop reason stands for. */
  lemma StopReasonsMean(raw: string)
    ensures MapStopReason(raw) == EndTurn <==> raw == "end_turn"
    ensures MapStopReason(raw) == MaxTokens <==> raw == "max_tokens"
    ensures MapStopReason(raw) == StopSequence <==> raw == "stop_sequence"
    ensures MapStopReason(raw) == ToolUse <==> raw == "tool_use"
    ensures MapStopReason(raw) == ContentFiltered <==> raw == "content_filtered"
    ensures MapStopReason(raw) == GuardrailIntervened <==> raw == "guardrail_intervened"
  {
  }

  lemma FinishReasonsMean(raw: string)
    ensures MapFinishReason(raw) == EndTurn <==> raw == "stop"
    ensures MapFinishReason(raw) == MaxTokens <==> raw == "length"
    ensures MapFinishReason(raw) == ToolUse <==> raw == "tool_calls" || raw == "function_call"
    ensures MapFinishReason(raw) == ContentFiltered <==> raw == "content_filter"
    ensures MapFinishReason(raw) !in {StopSequence, GuardrailIntervened}
  {
  }

  // ---- What the mappers emit ----

  function TextChunks(pieces: seq<Piece>): seq<Chunk>
    decreases |pieces|
  {
    if pieces == [] then []
    else
      var before, text := TextChunks(pieces[..|pieces| - 1]), pieces[|pieces| - 1].text;
      if text == "" then before else before + [TextChunk(text)]
  }

  function Emitted(pieces: seq<Piece>, mapStop: string -> StopReason): Emission {
    var stop, usage := LastStop(pieces), LastUsage(pieces);
    if stop.None? || usage.None? then Emission(TextChunks(pieces), Some(Permanent))
    else Emission(TextChunks(pieces) + [Chunk("", true, Some(mapStop(stop.value)), usage)], None)
  }

  method IterConverseStream(events: seq<ConverseEvent>) returns (r: Emission)
    ensures r == Emitted(ConversePieces(events), MapStopReason)
  {
    var chunks, stop, usage: Option<Usage> := [], None, None;
    ghost var pieces := ConversePieces(events);
    for n := 0 to |events|
      invariant chunks == TextChunks(pieces[..n]) && stop == LastStop(pieces[..n]) && usage == LastUsage(pieces[..n])
    {
      assert pieces[..n + 1][..n] == pieces[..n];
      match events[n] {
        case ContentBlockDelta(text) =>
          if text.Some? && text.value != "" {
            chunks := chunks + [TextChunk(text.value)];
          }
        case MessageStop(reason) =>
          stop := Some(reason);
        case Metadata(reported) =>
          if reported.Some? {
            usage := reported;
          }
        case OtherEvent =>
      }
    }
    assert pieces[..|events|] == pieces;
    if stop.None? || usage.None? {
      return Emission(chunks, Some(Permanent));
    }
    r := Emission(chunks + [Chunk("", true, Some(MapStopReason(stop.value)), usage)], None);
  }

  method IterCompletionStream(stream: seq<CompletionChunk>) returns (r: Emission)
    ensures r == Emitted(CompletionPieces(stream), MapFinishReason)
  {
    var chunks, finish, usage: Option<Usage> := [], None, None;
    ghost var pieces := CompletionPieces(stream);
    for n := 0 to |stream|
      invariant chunks == TextChunks(pieces[..n]) && finish == LastStop(pieces[..n]) && usage == LastUsage(pieces[..n])
    {
      assert pieces[..n + 1][..n] == pieces[..n];
      var chunk := stream[n];
      if chunk.choice.Some? {
        var choice := chunk.choice.value;
        if choice.content.Some? && choice.content.value != "" {
          chunks := chunks + [TextChunk(choice.content.value)];
        }
        if choice.finish.Some? {
          finish := choice.finish;
        }
      }
      if chunk.usage.Some? {
        usage := chunk.usage;
      }
    }
    assert pieces[..|stream|] == pieces;
    if finish.None? || usage.None? {
      return Emission(chunks, Some(Permanent));
    }
    r := Emission(chunks + [Chunk("", true, Some(MapFinishReason(finish.value)), usage)], None);
  }

  // ---- What a consumer of the chunks can rebuild ----

  function JoinDeltas(chunks: seq<Chunk>): string
    decreases |chunks|
  {
    if chunks == [] then "" else JoinDeltas(chunks[..|chunks| - 1]) + chunks[|chunks| - 1].deltaText
  }

  /** Exactly one final chunk, at the end, carrying a stop reason and usage. */
  ghost predicate EndsWithFinal(chunks: seq<Chunk>) {
    && chunks != []
    && (forall i | 0 <= i < |chunks| :: chunks[i].isFinal <==> i == |chunks| - 1)
    && chunks[|chunks| - 1].stopReason.Some? && chunks[|chunks| - 1].usage.Some?
  }

  /** A consumer's reassembly: joined text, and the last chunk's stop reason and usage. */
  function Reassemble(e: Emission): Parsed {
    if e.error.Some? then Malformed(e.error.value)
    else if e.chunks == [] || e.chunks[|e.chunks| - 1].stopReason.None? || e.chunks[|e.chunks| - 1].usage.None? then Malformed(Permanent)
    else
      var final := e.chunks[|e.chunks| - 1];
      Ok(ProviderResponse(JoinDeltas(e.chunks), final.stopReason.value, final.usage.value))
  }

  lemma {:induction false} DeltasSpellText(pieces: seq<Piece>)
    ensures JoinDeltas(TextChunks(pieces)) == Text(pieces)
    ensures forall i | 0 <= i < |TextChunks(pieces)| :: !TextChunks(pieces)[i].isFinal
    decreases |pieces|
  {
    if pieces != [] {
      var front := pieces[..|pieces| - 1];
      DeltasSpellText(front);
      var before, after := TextChunks(front), TextChunks(pieces);
      if pieces[|pieces| - 1].text == "" {
        assert Text(pieces) == Text(front);
      } else {
        assert after[..|after| - 1] == before;
      }
    }
  }

  /** One text chunk per piece that has text, in order, carrying that text and nothing else. */
  lemma {:induction false} ChunkPerPiece(a: seq<Piece>, b: seq<Piece>, p: Piece)
    ensures TextChunks(a + b) == TextChunks(a) + TextChunks(b)
    ensures TextChunks([p]) == if p.text == "" then [] else [Chunk(p.text, false, None, None)]
    decreases |b|
  {
    assert [p][..0] == [];
    if b == [] {
      assert a + b == a;
    } else {
      assert (a + b)[..|a + b| - 1] == a + b[..|b| - 1];
      ChunkPerPiece(a, b[..|b| - 1], p);
    }
  }

  /** Reassembling a stream depends only on the joined text, the last stop reason and the last usage:
      not on how the text was split into events. */
  lemma SplittingIsInvisible(pieces: seq<Piece>, mapStop: string -> StopReason)
    ensures Reassemble(Emitted(pieces, mapStop)) == Whole(Text(pieces), LastStop(pieces), LastUsage(pieces), mapStop)
  {
    DeltasSpellText(pieces);
    var e := Emitted(pieces, mapStop);
    if e.error.None? {
      assert e.chunks[..|e.chunks| - 1] == TextChunks(pieces);
    }
  }

  /** A stream either ends with exactly one final chunk or with a PERMANENT error and no final chunk;
      it never ends silently without a chunk. */
  lemma StreamNeverEndsSilently(pieces: seq<Piece>, mapStop: string -> StopReason)
    ensures var e := Emitted(pieces, mapStop);
            && (e.error.None? ==> EndsWithFinal(e.chunks))
            && (e.error.Some? ==> e.error.value == Permanent && forall i | 0 <= i < |e.chunks| :: !e.chunks[i].isFinal)
            && (e.error.Some? <==> LastStop(pieces).None? || LastUsage(pieces).None?)
  {
    DeltasSpellText(pieces);
  }

  /** Streaming and not streaming the same Bedrock content give the same response, or both fail. */
  lemma ConverseFormsAgree(events: seq<ConverseEvent>, raw: ConverseResponse)
    requires JoinBlocks(raw.blocks) == Text(ConversePieces(events))
    requires raw.stop == LastStop(ConversePieces(events)) && raw.usage == LastUsage(ConversePieces(events))
    ensures Reassemble(Emitted(ConversePieces(events), MapStopReason)) == ParseConverse(raw)
  {
    SplittingIsInvisible(ConversePieces(events), MapStopReason);
  }

  /** The same for OpenAI; a response without choices corresponds to a stream without a finish reason. */
  lemma CompletionFormsAgree(stream: seq<CompletionChunk>, raw: ChatCompletion)
    requires raw.choice.Some? ==> Text(CompletionPieces(stream)) == if raw.choice.value.content.Some? then raw.choice.value.content.value else ""
    requires LastStop(CompletionPieces(stream)) == if raw.choice.Some? then Some(raw.choice.value.finish) else None
    requires raw.usage == LastUsage(CompletionPieces(stream))
    ensures Reassemble(Emitted(CompletionPieces(stream), MapFinishReason)) == ParseCompletion(raw)
  {
    SplittingIsInvisible(CompletionPieces(stream), MapFinishReason);
  }
}
