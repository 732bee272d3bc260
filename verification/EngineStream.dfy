/**
 The consumer loop of the engine's stream: one queue filled by a generation thread and a text
 thread, drained into a sequence of chunks.  The queue is any interleaving of the two threads.
 */
module EngineStream {
  import opened EngineBase
  import opened Sequences
  import opened StopFilter
  import opened StopTheorems

  datatype Event = Text(text: string) | Generated(tokens: nat) | StreamDone | Failed(error: string)

  /** Waiting: the queue is empty and the loop awaits another event. */
  datatype Outcome = Waiting | Finished | Raised(error: string)

  datatype Request = Request(stops: seq<string>, promptTokens: nat, maxNewTokens: nat)

  /** The local variables of the loop, and what it has yielded. */
  datatype Loop = Loop(
    filter: Filter,
    generated: Option<nat>,
    streamFinished: bool,
    cancelled: bool,
    chunks: seq<StreamChunk>,
    outcome: Outcome)

  const START := Loop(FRESH, None, false, false, [], Waiting)

  function Content(text: string): StreamChunk {
    StreamChunk(text, false, 0, 0, None)
  }

  function ContentChunks(text: string): seq<StreamChunk> {
    if text == "" then [] else [Content(text)]
  }

  function Reason(r: Request, stopped: bool, tokens: nat): FinishReason {
    if stopped || tokens < r.maxNewTokens then Stop else Length
  }

  function DoneChunk(r: Request, stopped: bool, tokens: nat): StreamChunk {
    StreamChunk("", true, r.promptTokens, tokens, Some(Reason(r, stopped, tokens)))
  }

  /** The end of the loop body: finish once both threads have reported. */
  function Settle(r: Request, l: Loop): Loop {
    if l.generated.None? || !l.streamFinished then l
    else
      var (f, tail) := FinishStep(l.filter);
      l.(filter := f,
         chunks := l.chunks + ContentChunks(tail) + [DoneChunk(r, f.stopped, l.generated.value)],
         cancelled := true,
         outcome := Finished)
  }

  /** One turn of the loop.  A loop that has finished or raised takes no more events. */
  function Handle(r: Request, l: Loop, e: Event): Loop {
    if !l.outcome.Waiting? then l
    else match e
      case Failed(error) => l.(outcome := Raised(error), cancelled := true)
      case Text(text) =>
        var (f, filtered) := PushStep(r.stops, l.filter, text);
        l.(filter := f, cancelled := l.cancelled || f.stopped, chunks := l.chunks + ContentChunks(filtered))
      case Generated(tokens) => Settle(r, l.(generated := Some(tokens)))
      case StreamDone => Settle(r, l.(streamFinished := true))
  }

  function Run(r: Request, l: Loop, queue: seq<Event>): Loop
    decreases |queue|
  {
    if queue == [] then l else Run(r, Handle(r, l, queue[0]), queue[1..])
  }

  lemma RunNothing(r: Request, l: Loop)
    ensures Run(r, l, []) == l
  {
  }

  lemma RunCons(r: Request, l: Loop, e: Event, rest: seq<Event>)
    ensures Run(r, l, [e] + rest) == Run(r, Handle(r, l, e), rest)
  {
    assert ([e] + rest)[1..] == rest;
  }

  lemma {:induction false} RunConcat(r: Request, l: Loop, a: seq<Event>, b: seq<Event>)
    ensures Run(r, l, a + b) == Run(r, Run(r, l, a), b)
    decreases |a|
  {
    if a == [] {
      assert a + b == b;
    } else {
      assert a + b == [a[0]] + (a[1..] + b);
      RunCons(r, l, a[0], a[1..] + b);
      RunConcat(r, Handle(r, l, a[0]), a[1..], b);
    }
  }

  lemma {:induction false} RunOver(r: Request, l: Loop, queue: seq<Event>)
    requires !l.outcome.Waiting?
    ensures Run(r, l, queue) == l
  {
    if queue != [] {
      RunOver(r, l, queue[1..]);
    }
  }

  /** The loop as the engine runs it, over the events that have arrived so far. */
  method Drain(r: Request, queue: seq<Event>) returns (chunks: seq<StreamChunk>, outcome: Outcome, cancelled: bool)
    requires NonEmptyStops(r.stops)
    ensures var l := Run(r, START, queue);
            chunks == l.chunks && outcome == l.outcome && cancelled == l.cancelled
  {
    hide Run, PushStep, FinishStep;
    chunks, outcome, cancelled := [], Waiting, false;
    var generated: Option<nat> := None;
    var streamFinished := false;
    var filter := new BufferedStopFilter(r.stops);
    var i := 0;
    while i < |queue|
      invariant 0 <= i <= |queue|
      invariant filter.Valid() && filter.stops == r.stops
      invariant outcome == Waiting
      invariant Run(r, Loop(filter.State(), generated, streamFinished, cancelled, chunks, outcome), queue[i..])
             == Run(r, START, queue)
    {
      var e := queue[i];
      ghost var before := Loop(filter.State(), generated, streamFinished, cancelled, chunks, outcome);
      ghost var rest := queue[i + 1..];
      assert queue[i..] == [e] + rest;
      RunCons(r, before, e, rest);
      i := i + 1;
      match e {
        case Failed(error) =>
          outcome, cancelled := Raised(error), true;
          RunOver(r, Handle(r, before, e), rest);
          return;
        case Text(text) =>
          var filtered := filter.Push(text);
          cancelled := cancelled || filter.stopped;
          if filtered != "" {
            chunks := chunks + [Content(filtered)];
          }
          assert Handle(r, before, e) == Loop(filter.State(), generated, streamFinished, cancelled, chunks, outcome);
          continue;
        case Generated(tokens) =>
          generated := Some(tokens);
        case StreamDone =>
          streamFinished := true;
      }
      if generated.None? || !streamFinished {
        assert Handle(r, before, e) == Loop(filter.State(), generated, streamFinished, cancelled, chunks, outcome);
        continue;
      }
      var tail := filter.Finish();
      if tail != "" {
        chunks := chunks + [Content(tail)];
      }
      chunks := chunks + [DoneChunk(r, filter.stopped, generated.value)];
      outcome, cancelled := Finished, true;
      RunOver(r, Handle(r, before, e), rest);
      return;
    }
    assert queue[i..] == [];
    RunNothing(r, Loop(filter.State(), generated, streamFinished, cancelled, chunks, outcome));
  }

  /******* The text thread *******/

  function Texts(texts: seq<string>): seq<Event> {
    if texts == [] then [] else [Text(texts[0])] + Texts(texts[1..])
  }

  /** What the loop yields for a sequence of texts alone. */
  function Pushed(stops: seq<string>, texts: seq<string>): seq<StreamChunk> {
    if texts == [] then []
    else
      var init := texts[..|texts| - 1];
      Pushed(stops, init) + ContentChunks(PushStep(stops, Feed(stops, init).0, texts[|texts| - 1]).1)
  }

  /** The one well-formed result: the pushed texts, the flushed tail, then done. */
  function Expected(r: Request, texts: seq<string>, tokens: nat): seq<StreamChunk> {
    var f := Feed(r.stops, texts).0;
    Pushed(r.stops, texts) + ContentChunks(FinishStep(f).1) + [DoneChunk(r, f.stopped, tokens)]
  }

  /** The loop after some texts, with or without the worker's report, before the text thread's. */
  ghost function After(r: Request, generated: Option<nat>, texts: seq<string>): Loop {
    var f := Feed(r.stops, texts).0;
    Loop(f, generated, false, f.stopped, Pushed(r.stops, texts), Waiting)
  }

  lemma HandleText(r: Request, generated: Option<nat>, texts: seq<string>, text: string)
    ensures Handle(r, After(r, generated, texts), Text(text)) == After(r, generated, texts + [text])
  {
    assert (texts + [text])[..|texts|] == texts;
  }

  lemma {:induction false} RunTexts(r: Request, generated: Option<nat>, texts: seq<string>, more: seq<string>)
    ensures Run(r, After(r, generated, texts), Texts(more)) == After(r, generated, texts + more)
    decreases |more|
  {
    if more == [] {
      assert texts + more == texts;
    } else {
      assert Run(r, After(r, generated, texts), Texts(more)) == After(r, generated, texts + more) by {
        var next, tail := texts + [more[0]], more[1..];
        assert next + tail == texts + more;
        assert Run(r, After(r, generated, next), Texts(tail)) == After(r, generated, next + tail) by {
          RunTexts(r, generated, next, tail);
        }
        assert Handle(r, After(r, generated, texts), Text(more[0])) == After(r, generated, next) by {
          HandleText(r, generated, texts, more[0]);
        }
        RunCons(r, After(r, generated, texts), Text(more[0]), Texts(tail));
      }
    }
  }

  /******* Both threads *******/

  /** The events of a text thread that succeeds. */
  function TextThread(texts: seq<string>): seq<Event> {
    Texts(texts) + [StreamDone]
  }

  /** The generation thread reports once; its report may land anywhere among the text events. */
  function Merge(events: seq<Event>, report: Event, k: nat): seq<Event>
    requires k <= |events|
  {
    events[..k] + [report] + events[k..]
  }

  lemma {:induction false} TextsSplit(texts: seq<string>, k: nat)
    requires k <= |texts|
    ensures |Texts(texts)| == |texts|
    ensures Texts(texts)[..k] == Texts(texts[..k]) && Texts(texts)[k..] == Texts(texts[k..])
  {
    if k == 0 {
      if texts != [] {
        TextsSplit(texts[1..], 0);
      }
    } else {
      TextsSplit(texts[1..], k - 1);
      assert texts[..k][1..] == texts[1..][..k - 1];
      assert texts[k..] == texts[1..][k - 1..];
      var rest := Texts(texts[1..]);
      assert ([Text(texts[0])] + rest)[..k] == [Text(texts[0])] + rest[..k - 1];
      assert ([Text(texts[0])] + rest)[k..] == rest[k - 1..];
    }
  }

  lemma RunSnoc(r: Request, l: Loop, a: seq<Event>, e: Event)
    ensures Run(r, l, a + [e]) == Handle(r, Run(r, l, a), e)
  {
    RunConcat(r, l, a, [e]);
    var m := Run(r, l, a);
    assert Run(r, m, [e]) == Handle(r, m, e) by {
      var none: seq<Event> := [];
      assert [e][1..] == none;
      assert Run(r, Handle(r, m, e), none) == Handle(r, m, e);
    }
  }

  /** The loop once both threads have reported. */
  ghost function Complete(r: Request, texts: seq<string>, tokens: nat): Loop {
    Settle(r, After(r, Some(tokens), texts).(streamFinished := true))
  }

  lemma RunTextsFromStart(r: Request, texts: seq<string>)
    ensures Run(r, START, Texts(texts)) == After(r, None, texts)
  {
    var none: seq<string> := [];
    assert After(r, None, none) == START;
    RunTexts(r, None, none, texts);
    assert none + texts == texts;
  }

  lemma ReportBeforeTheEnd(r: Request, early: seq<string>, late: seq<string>, tokens: nat)
    ensures Run(r, START, Texts(early) + [Generated(tokens)] + Texts(late) + [StreamDone])
         == Complete(r, early + late, tokens)
  {
    var upTo := Texts(early) + [Generated(tokens)];
    assert Run(r, START, upTo + Texts(late)) == After(r, Some(tokens), early + late) by {
      assert Run(r, START, upTo) == After(r, Some(tokens), early) by {
        RunTextsFromStart(r, early);
        RunSnoc(r, START, Texts(early), Generated(tokens));
      }
      RunConcat(r, START, upTo, Texts(late));
      RunTexts(r, Some(tokens), early, late);
    }
    RunSnoc(r, START, upTo + Texts(late), StreamDone);
  }

  lemma ReportAfterTheEnd(r: Request, texts: seq<string>, tokens: nat)
    ensures Run(r, START, Texts(texts) + [StreamDone] + [Generated(tokens)])
         == Complete(r, texts, tokens)
  {
    RunTextsFromStart(r, texts);
    RunSnoc(r, START, Texts(texts), StreamDone);
    RunSnoc(r, START, Texts(texts) + [StreamDone], Generated(tokens));
  }

  lemma MergedBeforeTheEnd(r: Request, texts: seq<string>, tokens: nat, k: nat)
    requires k <= |texts|
    ensures k <= |TextThread(texts)|
    ensures Run(r, START, Merge(TextThread(texts), Generated(tokens), k)) == Complete(r, texts, tokens)
  {
    TextsSplit(texts, k);
    var early, late := texts[..k], texts[k..];
    assert TextThread(texts)[..k] == Texts(early);
    assert TextThread(texts)[k..] == Texts(late) + [StreamDone];
    assert Merge(TextThread(texts), Generated(tokens), k) == Texts(early) + [Generated(tokens)] + Texts(late) + [StreamDone];
    assert early + late == texts;
    ReportBeforeTheEnd(r, early, late, tokens);
  }

  lemma MergedAfterTheEnd(r: Request, texts: seq<string>, tokens: nat)
    ensures Merge(TextThread(texts), Generated(tokens), |TextThread(texts)|) == Texts(texts) + [StreamDone] + [Generated(tokens)]
    ensures Run(r, START, Merge(TextThread(texts), Generated(tokens), |TextThread(texts)|)) == Complete(r, texts, tokens)
  {
    ReportAfterTheEnd(r, texts, tokens);
  }

  /** Wherever the generation thread's report lands, the loop yields the one well-formed result. */
  lemma EveryInterleaving(r: Request, texts: seq<string>, tokens: nat, k: nat)
    requires k <= |TextThread(texts)|
    ensures var l := Run(r, START, Merge(TextThread(texts), Generated(tokens), k));
            l.chunks == Expected(r, texts, tokens) && l.outcome == Finished && l.cancelled
  {
    hide Run, Merge, Texts, Feed;
    TextsSplit(texts, 0);
    if k <= |texts| {
      MergedBeforeTheEnd(r, texts, tokens, k);
    } else {
      MergedAfterTheEnd(r, texts, tokens);
    }
  }

  /******* The shape of the result *******/

  /** Non-empty texts, and a done chunk exactly when finished, in last place. */
  ghost predicate WellFormed(chunks: seq<StreamChunk>, finished: bool) {
    && (forall i | 0 <= i < |chunks| :: chunks[i].text != "" || chunks[i].done)
    && (forall i | 0 <= i < |chunks| :: chunks[i].done ==> finished && i == |chunks| - 1)
    && (finished ==> chunks != [] && chunks[|chunks| - 1].done)
  }

  lemma ConcatenatedText(chunks: seq<StreamChunk>, text: string)
    ensures Concatenated(chunks + ContentChunks(text)) == Concatenated(chunks) + text
  {
    if text == "" {
      assert chunks + ContentChunks(text) == chunks;
      assert Concatenated(chunks) + text == Concatenated(chunks);
    } else {
      ConcatenatedSnoc(chunks, Content(text));
    }
  }

  lemma WellFormedText(chunks: seq<StreamChunk>, text: string)
    requires WellFormed(chunks, false)
    ensures WellFormed(chunks + ContentChunks(text), false)
  {
  }

  lemma {:induction false} PushedConcatenates(stops: seq<string>, texts: seq<string>)
    ensures WellFormed(Pushed(stops, texts), false)
    ensures Concatenated(Pushed(stops, texts)) == Feed(stops, texts).1
  {
    if texts != [] {
      var init := texts[..|texts| - 1];
      PushedConcatenates(stops, init);
      var emitted := PushStep(stops, Feed(stops, init).0, texts[|texts| - 1]).1;
      ConcatenatedText(Pushed(stops, init), emitted);
      WellFormedText(Pushed(stops, init), emitted);
    }
  }

  lemma WellFormedSeal(chunks: seq<StreamChunk>, done: StreamChunk)
    requires WellFormed(chunks, false) && done.done && done.text == ""
    ensures WellFormed(chunks + [done], true)
  {
  }

  lemma SealConcatenates(chunks: seq<StreamChunk>, tail: string, done: StreamChunk)
    requires WellFormed(chunks, false) && done.done && done.text == ""
    ensures WellFormed(chunks + ContentChunks(tail) + [done], true)
    ensures Concatenated(chunks + ContentChunks(tail) + [done]) == Concatenated(chunks) + tail
  {
    var body := chunks + ContentChunks(tail);
    assert WellFormed(body + [done], true) by {
      WellFormedText(chunks, tail);
      WellFormedSeal(body, done);
    }
    ConcatenatedText(chunks, tail);
    ConcatenatedSnoc(body, done);
    assert Concatenated(body) + "" == Concatenated(body);
  }

  /** The result is non-empty text chunks then one done chunk, and its text is the filter's. */
  lemma ExpectedIsTheFilteredText(r: Request, texts: seq<string>, tokens: nat)
    ensures WellFormed(Expected(r, texts, tokens), true)
    ensures Concatenated(Expected(r, texts, tokens)) == Streamed(r.stops, texts)
  {
    PushedConcatenates(r.stops, texts);
    var f := Feed(r.stops, texts).0;
    SealConcatenates(Pushed(r.stops, texts), FinishStep(f).1, DoneChunk(r, f.stopped, tokens));
  }

  /******* Every queue, with errors and at every moment *******/

  ghost predicate Sound(l: Loop, queue: seq<Event>) {
    && WellFormed(l.chunks, l.outcome.Finished?)
    && (l.generated.Some? ==> Generated(l.generated.value) in queue)
    && (l.streamFinished ==> StreamDone in queue)
    && (l.outcome.Finished? ==> l.generated.Some? && l.streamFinished)
    && (l.outcome.Raised? ==> Failed(l.outcome.error) in queue)
    && (l.cancelled <==> l.filter.stopped || !l.outcome.Waiting?)
  }

  lemma SettleIsSound(r: Request, l: Loop, queue: seq<Event>)
    requires Sound(l, queue) && l.outcome.Waiting?
    ensures Sound(Settle(r, l), queue) && l.chunks <= Settle(r, l).chunks
  {
    var (f, tail) := FinishStep(l.filter);
    if l.generated.Some? {
      SealConcatenates(l.chunks, tail, DoneChunk(r, f.stopped, l.generated.value));
    }
  }

  lemma HandleIsSound(r: Request, l: Loop, queue: seq<Event>, e: Event)
    requires Sound(l, queue)
    ensures Sound(Handle(r, l, e), queue + [e]) && l.chunks <= Handle(r, l, e).chunks
  {
    assert e in queue + [e];
    assert forall x | x in queue :: x in queue + [e];
    if l.outcome.Waiting? {
      match e
      case Failed(_) =>
      case Text(text) => WellFormedText(l.chunks, PushStep(r.stops, l.filter, text).1);
      case Generated(tokens) => SettleIsSound(r, l.(generated := Some(tokens)), queue + [e]);
      case StreamDone => SettleIsSound(r, l.(streamFinished := true), queue + [e]);
    }
  }

  /** Whatever arrives: text chunks only, then done exactly when both threads have reported. */
  lemma {:induction false} EveryQueueIsSound(r: Request, queue: seq<Event>)
    ensures Sound(Run(r, START, queue), queue)
  {
    if queue != [] {
      var init, e := queue[..|queue| - 1], queue[|queue| - 1];
      EveryQueueIsSound(r, init);
      assert init + [e] == queue;
      RunSnoc(r, START, init, e);
      HandleIsSound(r, Run(r, START, init), init, e);
    }
  }

  /** Chunks, once yielded, stand: more events only append. */
  lemma {:induction false} MoreEventsOnlyAppend(r: Request, queue: seq<Event>, more: seq<Event>)
    ensures Run(r, START, queue).chunks <= Run(r, START, queue + more).chunks
    decreases |more|
  {
    if more == [] {
      assert queue + more == queue;
    } else {
      var next := queue + [more[0]];
      EveryQueueIsSound(r, queue);
      RunSnoc(r, START, queue, more[0]);
      HandleIsSound(r, Run(r, START, queue), queue, more[0]);
      MoreEventsOnlyAppend(r, next, more[1..]);
      assert next + more[1..] == queue + more;
    }
  }

  /** At every moment of every interleaving, what has been yielded begins the one result. */
  lemma EveryMomentBeginsTheResult(r: Request, texts: seq<string>, tokens: nat, k: nat, n: nat)
    requires k <= |TextThread(texts)| && n <= |Merge(TextThread(texts), Generated(tokens), k)|
    ensures Run(r, START, Merge(TextThread(texts), Generated(tokens), k)[..n]).chunks <= Expected(r, texts, tokens)
  {
    var queue := Merge(TextThread(texts), Generated(tokens), k);
    assert queue[..n] + queue[n..] == queue;
    MoreEventsOnlyAppend(r, queue[..n], queue[n..]);
    EveryInterleaving(r, texts, tokens, k);
  }

  /** An error that arrives before both reports ends the stream without a done chunk. */
  lemma ErrorEndsTheStream(r: Request, queue: seq<Event>, error: string, more: seq<Event>)
    requires forall e | e in queue :: !e.Failed?
    requires (forall e | e in queue :: !e.Generated?) || StreamDone !in queue
    ensures var l := Run(r, START, queue + [Failed(error)] + more);
            && l.outcome == Raised(error) && l.cancelled
            && l.chunks == Run(r, START, queue).chunks && WellFormed(l.chunks, false)
  {
    EveryQueueIsSound(r, queue);
    RunSnoc(r, START, queue, Failed(error));
    RunConcat(r, START, queue + [Failed(error)], more);
    RunOver(r, Run(r, START, queue + [Failed(error)]), more);
  }

  /******* Exactly how any queue ends *******/

  function TextsOf(queue: seq<Event>): seq<string> {
    if queue == [] then []
    else
      var init, e := queue[..|queue| - 1], queue[|queue| - 1];
      TextsOf(init) + if e.Text? then [e.text] else []
  }

  function LastReport(queue: seq<Event>): Option<nat> {
    if queue == [] then None
    else
      var init, e := queue[..|queue| - 1], queue[|queue| - 1];
      if e.Generated? then Some(e.tokens) else LastReport(init)
  }

  /** No error has arrived, and not both threads' reports. */
  predicate Quiet(queue: seq<Event>) {
    (forall e | e in queue :: !e.Failed?) && (LastReport(queue).None? || StreamDone !in queue)
  }

  lemma QuietPrefix(queue: seq<Event>, e: Event)
    requires Quiet(queue + [e])
    ensures Quiet(queue) && !e.Failed?
  {
    assert (queue + [e])[..|queue|] == queue && e in queue + [e];
    assert forall x | x in queue :: x in queue + [e];
  }

  lemma TextsOfSnoc(queue: seq<Event>, e: Event)
    ensures TextsOf(queue + [e]) == TextsOf(queue) + (if e.Text? then [e.text] else [])
    ensures LastReport(queue + [e]) == if e.Generated? then Some(e.tokens) else LastReport(queue)
    ensures StreamDone in queue + [e] <==> StreamDone in queue || e.StreamDone?
  {
    assert (queue + [e])[..|queue|] == queue;
  }

  /** The loop's variables after a quiet queue: everything the filter let through has been yielded. */
  ghost predicate KeptUp(r: Request, l: Loop, queue: seq<Event>) {
    && l.outcome.Waiting?
    && l.filter == Feed(r.stops, TextsOf(queue)).0
    && Concatenated(l.chunks) == Feed(r.stops, TextsOf(queue)).1
    && l.generated == LastReport(queue)
    && (l.streamFinished <==> StreamDone in queue)
  }

  lemma FeedSnoc(stops: seq<string>, texts: seq<string>, text: string)
    ensures var (f, out) := Feed(stops, texts);
            var (g, emitted) := PushStep(stops, f, text);
            Feed(stops, texts + [text]) == (g, out + emitted)
  {
    assert (texts + [text])[..|texts|] == texts;
  }

  lemma QuietStep(r: Request, l: Loop, queue: seq<Event>, e: Event)
    requires KeptUp(r, l, queue) && Quiet(queue + [e])
    ensures KeptUp(r, Handle(r, l, e), queue + [e])
  {
    hide PushStep, Feed, Concatenated, FinishStep, TextsOf, LastReport;
    QuietPrefix(queue, e);
    TextsOfSnoc(queue, e);
    assert TextsOf(queue) + [] == TextsOf(queue);
    if e.Text? {
      FeedSnoc(r.stops, TextsOf(queue), e.text);
      ConcatenatedText(l.chunks, PushStep(r.stops, l.filter, e.text).1);
    }
  }

  /** Until an error or the second report arrives the loop waits, having yielded all that the filter let through. */
  lemma {:induction false} QuietQueueWaits(r: Request, queue: seq<Event>)
    requires Quiet(queue)
    ensures KeptUp(r, Run(r, START, queue), queue)
  {
    if queue != [] {
      var init, e := queue[..|queue| - 1], queue[|queue| - 1];
      assert init + [e] == queue;
      QuietPrefix(init, e);
      QuietQueueWaits(r, init);
      RunSnoc(r, START, init, e);
      QuietStep(r, Run(r, START, init), init, e);
    }
  }

  /** The event that ends a quiet queue decides the outcome, and nothing after it matters: an error raises;
      the second report flushes the filter and yields the done chunk, whose finish reason is stop exactly
      when the text holds a stop or generation ended short of the maximum. */
  lemma EndingDecides(r: Request, queue: seq<Event>, e: Event, more: seq<Event>)
    requires NonEmptyStops(r.stops) && Quiet(queue) && !Quiet(queue + [e])
    ensures var l, before := Run(r, START, queue + [e] + more), Run(r, START, queue);
            var texts := TextsOf(queue);
            if e.Failed? then l.outcome == Raised(e.error) && l.chunks == before.chunks
            else
              && l.outcome == Finished && LastReport(queue + [e]).Some?
              && var tokens := LastReport(queue + [e]).value;
              && l.chunks == before.chunks + ContentChunks(FinishStep(Feed(r.stops, texts).0).1)
                   + [StreamChunk("", true, r.promptTokens, tokens,
                        Some(if HasStop(Join(texts), r.stops) || tokens < r.maxNewTokens then Stop else Length))]
              && Concatenated(l.chunks) == Streamed(r.stops, texts)
  {
    hide Run, PushStep, Feed, Concatenated, TextsOf, LastReport, HasStop, Join, FinishStep;
    var before, texts := Run(r, START, queue), TextsOf(queue);
    QuietQueueWaits(r, queue);
    RunSnoc(r, START, queue, e);
    RunConcat(r, START, queue + [e], more);
    TextsOfSnoc(queue, e);
    var l := Handle(r, before, e);
    if e.Failed? {
      RunOver(r, l, more);
    } else {
      NotQuiet(queue, e);
      RunOver(r, l, more);
      StreamedIsBatchOfSeen(r.stops, texts);
      FinishKeepsStopped(before.filter);
      EveryQueueIsSound(r, queue);
      SealConcatenates(before.chunks, FinishStep(before.filter).1, l.chunks[|l.chunks| - 1]);
    }
  }

  lemma NotQuiet(queue: seq<Event>, e: Event)
    requires Quiet(queue) && !Quiet(queue + [e]) && !e.Failed?
    ensures StreamDone in queue + [e] && LastReport(queue + [e]).Some?
  {
    assert forall x | x in queue + [e] :: x in queue || x == e;
  }

  lemma FinishKeepsStopped(f: Filter)
    ensures FinishStep(f).0.stopped == f.stopped
  {
  }
}
