/**
 From the generator to the client: the frames of a streamed response against the body of an
 ordinary one, for every interleaving of the engine's threads.
 */
module EndToEnd {
  import opened EngineBase
  import opened Sequences
  import opened StopFilter
  import opened StopTheorems
  import opened EngineStream
  import opened ChatStream

  /** The engine's answer to a request that is not streamed, for a decoded text and its token count. */
  function GenerateSync(r: Request, text: string, tokens: nat): GenerationResult {
    var (kept, matched) := TruncateAtStop(text, r.stops);
    GenerationResult(kept, r.promptTokens, tokens, Reason(r, matched, tokens))
  }

  /** The reply to a client that stays, when the generation thread's report lands at k. */
  function SseReply(r: Request, texts: seq<string>, tokens: nat, k: nat): Reply
    requires k <= |TextThread(texts)|
  {
    Respond(Turns(Run(r, START, Merge(TextThread(texts), Generated(tokens), k)).chunks), true)
  }

  function UsageOfRun(r: Request, texts: seq<string>, tokens: nat): Frame {
    UsageFrame(Some(Reason(r, Feed(r.stops, texts).0.stopped, tokens)), r.promptTokens, tokens, r.promptTokens + tokens)
  }

  lemma ExpectedEnds(r: Request, texts: seq<string>, tokens: nat)
    ensures DoneLast(Expected(r, texts, tokens))
    ensures var chunks := Expected(r, texts, tokens);
            chunks[|chunks| - 1] == DoneChunk(r, Feed(r.stops, texts).0.stopped, tokens)
  {
    ExpectedIsTheFilteredText(r, texts, tokens);
  }

  lemma DoneFramesOf(r: Request, texts: seq<string>, tokens: nat)
    ensures UsageOf(DoneChunk(r, Feed(r.stops, texts).0.stopped, tokens)) == UsageOfRun(r, texts, tokens)
  {
  }

  lemma ReplyToChunks(chunks: seq<StreamChunk>, last: StreamChunk)
    requires DoneLast(chunks) && chunks[|chunks| - 1] == last
    ensures Respond(Turns(chunks), true)
         == Reply(TextsOnly(chunks, true) + [UsageOf(last), DoneFrame], Some("success"), last.generatedTokens)
    ensures forall frame | frame in TextsOnly(chunks, true) :: frame.ContentFrame?
  {
    ExhaustedRun(chunks, true);
    TextsOnlyAreContent(chunks, true);
  }

  /** Every interleaving sends the same frames: contents, one usage frame, [DONE]. */
  lemma EveryReply(r: Request, texts: seq<string>, tokens: nat, k: nat)
    requires k <= |TextThread(texts)|
    ensures SseReply(r, texts, tokens, k)
         == Reply(TextsOnly(Expected(r, texts, tokens), true) + [UsageOfRun(r, texts, tokens), DoneFrame],
                  Some("success"), tokens)
    ensures forall frame | frame in TextsOnly(Expected(r, texts, tokens), true) :: frame.ContentFrame?
  {
    ExpectedEnds(r, texts, tokens);
    DoneFramesOf(r, texts, tokens);
    assert Run(r, START, Merge(TextThread(texts), Generated(tokens), k)).chunks == Expected(r, texts, tokens) by {
      EveryInterleaving(r, texts, tokens, k);
    }
    ReplyToChunks(Expected(r, texts, tokens), DoneChunk(r, Feed(r.stops, texts).0.stopped, tokens));
  }

  /** Its contents are the filtered text, with the role on the first of them only. */
  lemma EveryReplyCarriesTheFilteredText(r: Request, texts: seq<string>, tokens: nat, k: nat)
    requires k <= |TextThread(texts)|
    ensures Contents(SseReply(r, texts, tokens, k).frames) == Streamed(r.stops, texts)
    ensures RoleOnce(SseReply(r, texts, tokens, k).frames, true)
  {
    var chunks := Expected(r, texts, tokens);
    EveryInterleaving(r, texts, tokens, k);
    ExpectedIsTheFilteredText(r, texts, tokens);
    AllDelivered(chunks);
    EveryRun(Turns(chunks));
  }

  /** What the text thread passes on of a text generated as `full`: all of it; or, where generation was
      cancelled, the same chunks up to one that stopped the filter and then whatever was still under way,
      such as the streamer's held-back tail, which is no chunk of the full text. */
  ghost predicate Delivers(stops: seq<string>, full: seq<string>, texts: seq<string>) {
    texts == full || exists n: nat :: StoppedBy(stops, full, texts, n)
  }

  /** The first n chunks agree and stop the filter. */
  ghost predicate StoppedBy(stops: seq<string>, full: seq<string>, texts: seq<string>, n: nat) {
    n <= |texts| && n <= |full| && texts[..n] == full[..n] && Feed(stops, texts[..n]).0.stopped
  }

  lemma StopDecides(stops: seq<string>, texts: seq<string>, n: nat)
    requires n <= |texts| && Feed(stops, texts[..n]).0.stopped
    ensures Streamed(stops, texts) == Streamed(stops, texts[..n]) && Feed(stops, texts) == Feed(stops, texts[..n])
  {
    CancellationIsInvisible(stops, texts[..n], texts[n..]);
    FeedStoppedIgnores(stops, texts[..n], texts[n..]);
    assert texts[..n] + texts[n..] == texts;
  }

  lemma DeliveredStreamsTheSame(stops: seq<string>, full: seq<string>, texts: seq<string>)
    requires Delivers(stops, full, texts)
    ensures Streamed(stops, texts) == Streamed(stops, full)
    ensures Feed(stops, texts).0.stopped == Feed(stops, full).0.stopped
  {
    hide Feed, Streamed;
    if texts != full {
      var n: nat :| StoppedBy(stops, full, texts, n);
      StopDecides(stops, texts, n);
      StopDecides(stops, full, n);
    }
  }

  /** With stream-safe stops a streamed response carries the text of an ordinary one, even when
      generation is cancelled at a stop and a cut-off tail still arrives; with any stops at least that text, and no stop. */
  lemma StreamedContentMatches(r: Request, full: seq<string>, texts: seq<string>, tokens: nat, k: nat)
    requires NonEmptyStops(r.stops) && Delivers(r.stops, full, texts) && k <= |TextThread(texts)|
    ensures var content := Contents(SseReply(r, texts, tokens, k).frames);
            var whole := GenerateSync(r, Join(full), tokens).text;
            && whole <= content <= Join(full)
            && !HasStop(content, r.stops)
            && (StreamSafe(r.stops) ==> content == whole)
  {
    EveryReplyCarriesTheFilteredText(r, texts, tokens, k);
    DeliveredStreamsTheSame(r.stops, full, texts);
    Sandwich(r.stops, full);
    if StreamSafe(r.stops) {
      SafeStopsStreamExactly(r.stops, full);
    }
  }

  lemma StoppedMeansMatched(stops: seq<string>, full: seq<string>, texts: seq<string>)
    requires NonEmptyStops(stops) && Delivers(stops, full, texts)
    ensures Feed(stops, texts).0.stopped == TruncateAtStop(Join(full), stops).1
  {
    DeliveredStreamsTheSame(stops, full, texts);
    StreamedIsBatchOfSeen(stops, full);
    TruncationCutsAtFirstStop(Join(full), stops);
  }

  /** The usage section of an ordinary response, with its finish reason. */
  function UsageOfResult(g: GenerationResult): Frame {
    UsageFrame(Some(g.finishReason), g.promptTokens, g.completionTokens, g.promptTokens + g.completionTokens)
  }

  /** The usage frame reports the finish reason and token counts of the ordinary response, for any stops. */
  lemma StreamedUsageMatches(r: Request, full: seq<string>, texts: seq<string>, tokens: nat, k: nat)
    requires NonEmptyStops(r.stops) && Delivers(r.stops, full, texts) && k <= |TextThread(texts)|
    ensures UsageOfResult(GenerateSync(r, Join(full), tokens)) in SseReply(r, texts, tokens, k).frames
  {
    assert UsageOfRun(r, texts, tokens) == UsageOfResult(GenerateSync(r, Join(full), tokens)) by {
      StoppedMeansMatched(r.stops, full, texts);
    }
    EveryReply(r, texts, tokens, k);
    InSealed(TextsOnly(Expected(r, texts, tokens), true), UsageOfRun(r, texts, tokens));
  }

  lemma InSealed(body: seq<Frame>, usage: Frame)
    ensures usage in body + [usage, DoneFrame]
  {
    assert (body + [usage, DoneFrame])[|body|] == usage;
  }

  /** Stream-safety is also necessary: other stops have a text that reaches clients differently. */
  lemma StreamedResponseDiffers(r: Request, tokens: nat) returns (texts: seq<string>)
    requires NonEmptyStops(r.stops) && !StreamSafe(r.stops)
    ensures forall k | 0 <= k <= |TextThread(texts)| ::
              Contents(SseReply(r, texts, tokens, k).frames) != GenerateSync(r, Join(texts), tokens).text
  {
    texts := UnsafeStopsLeak(r.stops);
    forall k | 0 <= k <= |TextThread(texts)|
      ensures Contents(SseReply(r, texts, tokens, k).frames) != GenerateSync(r, Join(texts), tokens).text
    {
      EveryReplyCarriesTheFilteredText(r, texts, tokens, k);
    }
  }

  /** The ordinary answer: the text before the first stop, and stop as the reason exactly when there was one
      or generation ended short of the maximum. */
  lemma OrdinaryAnswer(r: Request, text: string, tokens: nat)
    ensures var g := GenerateSync(r, text, tokens);
            && g.promptTokens == r.promptTokens && g.completionTokens == tokens
            && (g.finishReason == Stop <==> HasStop(text, r.stops) || tokens < r.maxNewTokens)
            && g.text <= text && (if HasStop(text, r.stops) then FirstStopAt(text, r.stops, |g.text|) else g.text == text)
  {
    TruncationCutsAtFirstStop(text, r.stops);
  }

  /** What the usage frame says, in terms of the text and the count alone. */
  ghost function UsageFor(r: Request, text: string, tokens: nat): Frame {
    UsageFrame(Some(if HasStop(text, r.stops) || tokens < r.maxNewTokens then Stop else Length),
               r.promptTokens, tokens, r.promptTokens + tokens)
  }

  lemma UsageOfRunExplained(r: Request, texts: seq<string>, tokens: nat)
    requires NonEmptyStops(r.stops)
    ensures UsageOfRun(r, texts, tokens) == UsageFor(r, Join(texts), tokens)
  {
    hide Feed, Join, HasStop;
    StreamedIsBatchOfSeen(r.stops, texts);
  }

  lemma SealedFrames(body: seq<Frame>, usage: Frame)
    requires forall frame | frame in body :: frame.ContentFrame?
    ensures var frames := body + [usage, DoneFrame];
            && |frames| >= 2 && frames[|frames| - 2..] == [usage, DoneFrame]
            && forall i :: 0 <= i < |frames| - 2 ==> frames[i].ContentFrame?
  {
    assert forall i :: 0 <= i < |body| ==> (body + [usage, DoneFrame])[i] == body[i] && body[i] in body;
  }

  /** Every streamed reply ends with one usage frame and [DONE]; the usage says what was generated, and stop as
      the reason exactly when the text holds a stop or generation ended short of the maximum. */
  lemma UsageSaysWhy(r: Request, texts: seq<string>, tokens: nat, k: nat)
    requires NonEmptyStops(r.stops) && k <= |TextThread(texts)|
    ensures var frames := SseReply(r, texts, tokens, k).frames;
            && |frames| >= 2 && frames[|frames| - 2..] == [UsageFor(r, Join(texts), tokens), DoneFrame]
            && forall i :: 0 <= i < |frames| - 2 ==> frames[i].ContentFrame?
  {
    hide SseReply, UsageFor, UsageOfRun, TextsOnly, Join;
    EveryReply(r, texts, tokens, k);
    UsageOfRunExplained(r, texts, tokens);
    SealedFrames(TextsOnly(Expected(r, texts, tokens), true), UsageOfRun(r, texts, tokens));
  }
}
